/**
 Round trips when the slices between ticks are long: every four ticks bring one.

 A slice of a task that is not blocked ends with that task blocked, because alone it cannot
 take the request past the other.  Then the other has been woken, and once the busy task has
 had its turn the next slice is the other's.
 */
module RpcSlices {
  import opened Exec
  import opened Numbers
  import opened Ports
  import opened Rpc
  import opened RpcProgress
  import Signals
  import Turns

  /** `k` steps of whoever runs. */
  ghost function Ran<W>(app: App<W>, ports: seq<Port>, w0: W, d: Demo<W>, k: nat, limit: nat): (r: Demo<W>)
    requires Live(app, ports, w0, d)
    ensures Live(app, ports, w0, r) && r.ps.s.k.cur == d.ps.s.k.cur && r.ps.s.k.ticks == d.ps.s.k.ticks
  {
    if k == 0 then d
    else
      var m := Ran(app, ports, w0, d, k - 1, limit);
      NeverStuck(app, ports, w0, m);
      GoKeepsRunning(app, ports, w0, m, limit);
      Do(app, ports, m, Go, limit)
  }

  /** The client has the reply, or the reply is on its way: one round may end without the server. */
  predicate Replied<W>(d: Demo<W>)
    requires |d.ps.queues| == 2
  {
    d.client.Getting? || d.client.After? || d.ps.queues[REPLY] != []
  }

  /** A step of the busy task, or of a blocked one, changes nothing. */
  lemma IdleStep<W>(app: App<W>, ports: seq<Port>, w0: W, d: Demo<W>, limit: nat)
    requires Live(app, ports, w0, d) && Can(ports, d, Go)
    requires d.ps.s.k.cur == Turns.BUSY || Turns.Spinning(d.ps.s)
    ensures Do(app, ports, d, Go, limit) == d
  {
    IdleIsUser(app, ports, w0, d);
    assert d.ps.s.k.cur == Turns.BUSY ==> Now(d.ps).Idle?;
    assert d.ps.s.calls[d.ps.s.k.cur := Signals.Mine(d.ps.s)] == d.ps.s.calls;
  }

  /** A step of the server: the round and the client's place in it stay. */
  lemma ServerStep<W>(app: App<W>, ports: seq<Port>, w0: W, d: Demo<W>, limit: nat)
    requires Live(app, ports, w0, d) && Can(ports, d, Go) && d.ps.s.k.cur == SERVER
    ensures var r := Do(app, ports, d, Go, limit); r.round == d.round && r.client == d.client
  {
  }

  /** A step of the client ends a round only if the reply was there, and once. */
  lemma ClientStep<W>(app: App<W>, ports: seq<Port>, w0: W, d: Demo<W>, limit: nat)
    requires Live(app, ports, w0, d) && Can(ports, d, Go) && d.ps.s.k.cur == CLIENT
    ensures var r := Do(app, ports, d, Go, limit);
      |r.ps.queues| == 2 && r.round + One(Replied(r)) == d.round + One(Replied(d))
  {
    GoKeepsRunning(app, ports, w0, d, limit);
    if !Now(d.ps).Idle? {
      ProceedEffect(ports, d.ps, limit);
      hide Ports.Step;
    }
    hide Signals.Inv;
    hide Ports.Inv;
  }

  /** The client has sent its request and not yet begun the next round. */
  predicate Sent<W>(d: Demo<W>) { d.client.Receiving? || d.client.Getting? || d.client.After? }

  /** Up to the end of the round such a client wakes nobody. */
  lemma SentStep<W>(app: App<W>, ports: seq<Port>, w0: W, d: Demo<W>, limit: nat)
    requires Live(app, ports, w0, d) && Can(ports, d, Go) && d.ps.s.k.cur == CLIENT && Sent(d)
    ensures var r := Do(app, ports, d, Go, limit);
      r.round == d.round + 1
      || (r.round == d.round && Sent(r) && |r.ps.s.k.tasks| == 3
          && r.ps.s.k.tasks[SERVER].state == d.ps.s.k.tasks[SERVER].state)
  {
    assert Shape(ports, CLIENT, d.ps.ops[CLIENT], d.ps.s.calls[CLIENT]);
    if !Now(d.ps).Idle? {
      if Signals.Mine(d.ps.s).User? || Signals.Mine(d.ps.s).Locked? {
        MovedKernel(ports, d.ps);
        hide Moved;
      } else {
        WaitSpares(d.ps.s, limit, SERVER);
        hide Signals.Step;
      }
    }
  }

  lemma WaitSpares(s: Signals.State, limit: nat, t: nat)
    requires Signals.Enabled(s, Signals.Advance) && t < |s.calls| && t != s.k.cur
    requires !Signals.Mine(s).SignalPost?
    ensures |Signals.Step(s, Signals.Advance, limit).k.tasks| == |s.k.tasks|
    ensures Signals.Step(s, Signals.Advance, limit).k.tasks[t] == s.k.tasks[t]
  {
  }

  // ---------------------------------------------------------------- a whole slice

  lemma {:induction false} IdleSlice<W>(app: App<W>, ports: seq<Port>, w0: W, d: Demo<W>, k: nat, limit: nat)
    requires Live(app, ports, w0, d) && (d.ps.s.k.cur == Turns.BUSY || Turns.Spinning(d.ps.s))
    ensures Ran(app, ports, w0, d, k, limit) == d
  {
    hide Do;
    hide Good;
    if k > 0 {
      IdleSlice(app, ports, w0, d, k - 1, limit);
      NeverStuck(app, ports, w0, d);
      IdleStep(app, ports, w0, d, limit);
    }
  }

  lemma {:induction false} ServerSlice<W>(app: App<W>, ports: seq<Port>, w0: W, d: Demo<W>, k: nat, limit: nat)
    requires Live(app, ports, w0, d) && d.ps.s.k.cur == SERVER
    ensures var r := Ran(app, ports, w0, d, k, limit); r.round == d.round && r.client == d.client
  {
    hide Do;
    hide Live;
    if k > 0 {
      ServerSlice(app, ports, w0, d, k - 1, limit);
      NeverStuckLive(app, ports, w0, Ran(app, ports, w0, d, k - 1, limit));
      ServerStep(app, ports, w0, Ran(app, ports, w0, d, k - 1, limit), limit);
    }
  }

  lemma NeverStuckLive<W>(app: App<W>, ports: seq<Port>, w0: W, d: Demo<W>)
    requires Live(app, ports, w0, d)
    ensures d.ps.s.k.cur != BOOT && |d.ps.queues| == 2 && |d.ps.s.k.tasks| == 3 && Sized(ports, d)
    ensures Can(ports, d, Go) && Can(ports, d, Alarm)
  {
    NeverStuck(app, ports, w0, d);
  }

  /** A blocked client waits for its reply. */
  lemma BlockedHasSent<W>(app: App<W>, ports: seq<Port>, w0: W, d: Demo<W>)
    requires Live(app, ports, w0, d)
    ensures d.ps.s.k.tasks[CLIENT].state == Wait ==> Sent(d)
  {
    if d.ps.s.k.tasks[CLIENT].state == Wait { BlockedShape(ports, d.ps, CLIENT); }
  }

  lemma {:induction false} ClientSlice<W>(app: App<W>, ports: seq<Port>, w0: W, d: Demo<W>, k: nat, limit: nat)
    requires Live(app, ports, w0, d) && d.ps.s.k.cur == CLIENT
    ensures var r := Ran(app, ports, w0, d, k, limit);
      && |d.ps.queues| == |r.ps.queues| == 2
      && r.round + One(Replied(r)) == d.round + One(Replied(d))
      && |d.ps.s.k.tasks| == |r.ps.s.k.tasks| == 3
      && (Sent(d) ==>
            r.round > d.round
            || (r.round == d.round && Sent(r) && r.ps.s.k.tasks[SERVER].state == d.ps.s.k.tasks[SERVER].state))
  {
    hide Do;
    hide Live;
    NeverStuckLive(app, ports, w0, d);
    if k > 0 {
      var m := Ran(app, ports, w0, d, k - 1, limit);
      ClientSlice(app, ports, w0, d, k - 1, limit);
      NeverStuckLive(app, ports, w0, m);
      ClientStep(app, ports, w0, m, limit);
      GoComesNearer(app, ports, w0, m, limit);
      if Sent(m) { SentStep(app, ports, w0, m, limit); }
    }
  }

  /** As long as the task has not blocked, every step has used up some of the measure. */
  lemma {:induction false} StepsAreSpent<W>(app: App<W>, ports: seq<Port>, w0: W, d: Demo<W>, k: nat, limit: nat)
    requires Live(app, ports, w0, d) && Sized(ports, d) && d.ps.s.k.cur != Turns.BUSY
    ensures var r := Ran(app, ports, w0, d, k, limit);
      && Sized(ports, r) && r.round >= d.round
      && (r.ps.s.k.cur != BOOT && !Turns.Spinning(r.ps.s) ==>
            k + Left(app, ports, r) <= Left(app, ports, d) + PerRound(app) * (r.round - d.round))
  {
    hide Do;
    hide Live;
    hide Left;
    hide PerRound;
    if k > 0 {
      var m := Ran(app, ports, w0, d, k - 1, limit);
      StepsAreSpent(app, ports, w0, d, k - 1, limit);
      NeverStuckLive(app, ports, w0, m);
      if Turns.Spinning(m.ps.s) {
        IdleStep(app, ports, w0, m, limit);
      } else {
        GoComesNearer(app, ports, w0, m, limit);
        var r := Do(app, ports, m, Go, limit);
        SpendsOne(app, ports, m, r);
        Paid(m.round - d.round, r.round - m.round, PerRound(app));
      }
    }
  }

  lemma LeftIsBounded<W>(app: App<W>, ports: seq<Port>, d: Demo<W>)
    requires Sized(ports, d)
    ensures 2 * Left(app, ports, d) < PerRound(app)
  {
    SlackIsBounded(app, ports, d);
    hide Left;
    hide PerRound;
  }

  lemma SpendsOne<W>(app: App<W>, ports: seq<Port>, d: Demo<W>, r: Demo<W>)
    requires Sized(ports, d) && Nearer(app, ports, d, r, true)
    ensures r.round == d.round || r.round == d.round + 1
    ensures 1 + Left(app, ports, r) <= Left(app, ports, d) + PerRound(app) * (r.round - d.round)
  {
    hide Left;
    hide PerRound;
    hide Work;
    hide AllWakeups;
    hide CallsLeft;
    if r.round == d.round {
      NearerIsLess(app, ports, d, r, true);
      assert PerRound(app) * (r.round - d.round) == 0;
    } else {
      LeftIsBounded(app, ports, r);
      assert PerRound(app) * (r.round - d.round) == PerRound(app);
    }
  }

  /** A slice this long ends with its task blocked. */
  function Long<W>(app: App<W>): nat { 2 * PerRound(app) }

  lemma LongSliceBlocks<W>(app: App<W>, ports: seq<Port>, w0: W, d: Demo<W>, k: nat, limit: nat)
    requires Live(app, ports, w0, d) && d.ps.s.k.cur != Turns.BUSY && k >= Long(app)
    ensures var r := Ran(app, ports, w0, d, k, limit);
      && r.ps.s.k.cur != BOOT && Signals.Wfs(r.ps.s) && Turns.Spinning(r.ps.s)
      && d.round <= r.round <= d.round + 1
  {
    hide Left;
    hide PerRound;
    hide Ran;
    hide Live;
    hide Replied;
    var r := Ran(app, ports, w0, d, k, limit);
    NeverStuckLive(app, ports, w0, d);
    NeverStuckLive(app, ports, w0, r);
    StepsAreSpent(app, ports, w0, d, k, limit);
    if d.ps.s.k.cur == CLIENT {
      ClientSlice(app, ports, w0, d, k, limit);
    } else {
      ServerSlice(app, ports, w0, d, k, limit);
    }
    LeftIsBounded(app, ports, d);
    assert r.round == d.round ==> PerRound(app) * (r.round - d.round) == 0;
    assert r.round == d.round + 1 ==> PerRound(app) * (r.round - d.round) == PerRound(app);
  }

  // ------------------------------------------------------------- slice after slice

  /** The processor is with the busy task or with one that has blocked. */
  ghost predicate Ended<W>(app: App<W>, ports: seq<Port>, w0: W, d: Demo<W>) {
    Live(app, ports, w0, d) && (d.ps.s.k.cur == Turns.BUSY || Turns.Spinning(d.ps.s))
  }

  /** Slices to the end of the round. */
  ghost function SlicesLeft<W>(d: Demo<W>): nat
    requires |d.ps.s.k.tasks| == 3
  {
    One(d.ps.s.k.cur != Turns.BUSY) +
    (if d.ps.s.k.tasks[CLIENT].state == Wait then 3
     else if d.ps.s.k.tasks[SERVER].state != Wait then 7
     else if Sent(d) then 1
     else 5)
  }

  ghost function Slice<W>(app: App<W>, ports: seq<Port>, w0: W, d: Demo<W>, k: nat, limit: nat): (r: Demo<W>)
    requires Live(app, ports, w0, d) && d.ps.s.k.ticks + 1 < limit
    ensures Live(app, ports, w0, r) && r.ps.s.k.ticks == d.ps.s.k.ticks + 1
  {
    AlarmLeaves(app, ports, w0, d, limit);
    Ran(app, ports, w0, Do(app, ports, d, Alarm, limit), k, limit)
  }

  /** One more slice: nearer to the end of the round, or the round has ended. */
  lemma SliceComesNearer<W>(app: App<W>, ports: seq<Port>, w0: W, d: Demo<W>, k: nat, limit: nat)
    requires Ended(app, ports, w0, d) && d.ps.s.k.ticks + 1 < limit && k >= Long(app)
    ensures var r := Slice(app, ports, w0, d, k, limit);
      && Ended(app, ports, w0, r) && |d.ps.s.k.tasks| == |r.ps.s.k.tasks| == 3
      && d.round <= r.round <= d.round + 1
      && SlicesLeft(r) + 1 <= SlicesLeft(d) + 4 * (r.round - d.round)
  {
    hide Do;
    hide Good;
    hide Ran;
    hide Turns.Running;
    hide Long;
    hide Replied;
    NeverStuckLive(app, ports, w0, d);
    AlarmLeaves(app, ports, w0, d, limit);
    var a := Do(app, ports, d, Alarm, limit);
    var r := Ran(app, ports, w0, a, k, limit);
    AlarmKeepsBlocked(app, ports, w0, d, limit);
    BlockedHasSent(app, ports, w0, d);
    NeverStuckLive(app, ports, w0, r);
    if a.ps.s.k.cur == Turns.BUSY {
      IdleSlice(app, ports, w0, a, k, limit);
    } else {
      LongSliceBlocks(app, ports, w0, a, k, limit);
      NotBothBlocked(app, ports, w0, r);
      if a.ps.s.k.cur == CLIENT {
        ClientSlice(app, ports, w0, a, k, limit);
      } else {
        ServerSlice(app, ports, w0, a, k, limit);
      }
    }
  }

  /** A tick leaves everybody where the round has him; a task it dispatches is not blocked. */
  lemma AlarmKeepsBlocked<W>(app: App<W>, ports: seq<Port>, w0: W, d: Demo<W>, limit: nat)
    requires Live(app, ports, w0, d) && d.ps.s.k.ticks + 1 < limit
    ensures var a := Do(app, ports, d, Alarm, limit);
      && a.client == d.client && a.round == d.round && |d.ps.s.k.tasks| == |a.ps.s.k.tasks| == 3
      && (forall t | 0 <= t < 3 :: a.ps.s.k.tasks[t].state == Wait <==> d.ps.s.k.tasks[t].state == Wait)
      && (d.ps.s.k.cur == Turns.BUSY || Turns.Spinning(d.ps.s) ==>
            a.ps.s.k.cur != BOOT && a.ps.s.k.cur < 3 && a.ps.s.k.tasks[a.ps.s.k.cur].state != Wait)
  {
    Turns.TickTurns(d.ps.s, limit);
    AlarmLeaves(app, ports, w0, d, limit);
    var a := Do(app, ports, d, Alarm, limit);
    assert Signals.TaskOk(a.ps.s.k.tasks[a.ps.s.k.cur], a.ps.s.calls[a.ps.s.k.cur]);
    assert Signals.TaskOk(a.ps.s.k.tasks[Turns.BUSY], a.ps.s.calls[Turns.BUSY]);
    hide Signals.Step;
  }

  // ------------------------------------------------------------------ as schedules

  function Gos(k: nat): seq<Event> { seq(k, _ => Go) }

  /** A tick and `ks[0]` steps, a tick and `ks[1]` steps, and so on. */
  function Slices(ks: seq<nat>): seq<Event> {
    if ks == [] then [] else [Alarm] + Gos(ks[0]) + Slices(ks[1..])
  }

  lemma {:induction false} EventsJoin<W>(app: App<W>, ports: seq<Port>, d: Demo<W>, es: seq<Event>, fs: seq<Event>,
                                         limit: nat)
    requires ValidEvents(app, ports, d, es, limit)
    requires ValidEvents(app, ports, Played(app, ports, d, es, limit), fs, limit)
    ensures ValidEvents(app, ports, d, es + fs, limit)
    ensures Played(app, ports, d, es + fs, limit) == Played(app, ports, Played(app, ports, d, es, limit), fs, limit)
    decreases |es|
  {
    hide Do;
    hide Can;
    if es == [] {
      assert es + fs == fs;
    } else {
      assert (es + fs)[1..] == es[1..] + fs;
      EventsJoin(app, ports, Do(app, ports, d, es[0], limit), es[1..], fs, limit);
    }
  }

  lemma {:induction false} RanIsPlayed<W>(app: App<W>, ports: seq<Port>, w0: W, d: Demo<W>, k: nat, limit: nat)
    requires Live(app, ports, w0, d)
    ensures ValidEvents(app, ports, d, Gos(k), limit)
    ensures Played(app, ports, d, Gos(k), limit) == Ran(app, ports, w0, d, k, limit)
  {
    hide Do;
    hide Can;
    hide Live;
    if k > 0 {
      RanIsPlayed(app, ports, w0, d, k - 1, limit);
      var m := Ran(app, ports, w0, d, k - 1, limit);
      NeverStuckLive(app, ports, w0, m);
      assert [Go][1..] == [] && Gos(k) == Gos(k - 1) + [Go];
      EventsJoin(app, ports, d, Gos(k - 1), [Go], limit);
    }
  }

  lemma SliceIsPlayed<W>(app: App<W>, ports: seq<Port>, w0: W, d: Demo<W>, k: nat, limit: nat)
    requires Live(app, ports, w0, d) && d.ps.s.k.ticks + 1 < limit
    ensures ValidEvents(app, ports, d, [Alarm] + Gos(k), limit)
    ensures Played(app, ports, d, [Alarm] + Gos(k), limit) == Slice(app, ports, w0, d, k, limit)
  {
    hide Do;
    hide Good;
    hide Ran;
    NeverStuckLive(app, ports, w0, d);
    AlarmLeaves(app, ports, w0, d, limit);
    RanIsPlayed(app, ports, w0, Do(app, ports, d, Alarm, limit), k, limit);
    assert ([Alarm] + Gos(k))[1..] == Gos(k);
  }

  ghost predicate AllLong<W>(app: App<W>, ks: seq<nat>) { forall i | 0 <= i < |ks| :: ks[i] >= Long(app) }

  /** Every round costs at most four long slices. */
  lemma {:induction false} RoundsPerSlice<W>(app: App<W>, ports: seq<Port>, w0: W, d: Demo<W>, ks: seq<nat>, limit: nat)
    requires Ended(app, ports, w0, d) && AllLong(app, ks) && d.ps.s.k.ticks + |ks| < limit
    ensures |d.ps.s.k.tasks| == 3 && ValidEvents(app, ports, d, Slices(ks), limit)
    ensures Played(app, ports, d, Slices(ks), limit).round >= d.round
    ensures |ks| <= SlicesLeft(d) + 4 * (Played(app, ports, d, Slices(ks), limit).round - d.round)
    decreases |ks|
  {
    hide Live;
    hide SlicesLeft;
    hide Long;
    hide Slice;
    NeverStuckLive(app, ports, w0, d);
    if ks != [] {
      var es := [Alarm] + Gos(ks[0]);
      SliceComesNearer(app, ports, w0, d, ks[0], limit);
      SliceIsPlayed(app, ports, w0, d, ks[0], limit);
      RoundsPerSlice(app, ports, w0, Slice(app, ports, w0, d, ks[0], limit), ks[1..], limit);
      EventsJoin(app, ports, d, es, Slices(ks[1..]), limit);
      assert Slices(ks) == es + Slices(ks[1..]);
    }
  }

  /** From the start, with slices of at least Long steps: four slices a round, after eight. */
  lemma LongSlicesFromStart<W>(app: App<W>, reqBit: nat, replyBit: nat, pris: seq<int>, w0: W, first: nat, ks: seq<nat>,
                               limit: nat)
    requires |pris| == 3 && Fair(pris) && first >= Long(app) && AllLong(app, ks) && |ks| + 2 < limit
    ensures var ports := PortsOf(reqBit, replyBit);
      var es := [Alarm, Alarm] + (Gos(first) + Slices(ks));
      && ValidEvents(app, ports, Start(ports, pris, w0), es, limit)
      && |ks| <= 8 + 4 * Played(app, ports, Start(ports, pris, w0), es, limit).round
  {
    hide Live;
    hide Long;
    hide Do;
    hide Can;
    hide Dispatched;
    hide Ran;
    hide Slices;
    hide ValidEvents;
    hide Played;
    var ports := PortsOf(reqBit, replyBit);
    StartRuns(app, reqBit, replyBit, pris, w0, limit);
    var d := Dispatched(app, ports, pris, w0, limit);
    FirstSlice(app, ports, w0, d, first, limit);
    RanIsPlayed(app, ports, w0, d, first, limit);
    RoundsPerSlice(app, ports, w0, Ran(app, ports, w0, d, first, limit), ks, limit);
    EventsJoin(app, ports, d, Gos(first), Slices(ks), limit);
    FromStart(app, ports, pris, w0, Gos(first) + Slices(ks), limit);
  }

  lemma FirstSlice<W>(app: App<W>, ports: seq<Port>, w0: W, d: Demo<W>, k: nat, limit: nat)
    requires Live(app, ports, w0, d) && k >= Long(app)
    ensures Ended(app, ports, w0, Ran(app, ports, w0, d, k, limit))
    ensures d.round <= Ran(app, ports, w0, d, k, limit).round <= d.round + 1
  {
    hide Good;
    hide Ran;
    if d.ps.s.k.cur == Turns.BUSY {
      IdleSlice(app, ports, w0, d, k, limit);
    } else {
      LongSliceBlocks(app, ports, w0, d, k, limit);
    }
  }
}
