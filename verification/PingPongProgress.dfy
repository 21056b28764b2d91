/**
 The ping-pong gets on: under every schedule in which a tick is followed by at least one
 step of whoever runs, the two tasks count, and the ticks bound how often.

 `Left` is how far the two are from their next count.  A step of either that is not blocked
 brings it down; the third task's steps leave it alone, and `Turns` says that the third task
 cannot keep the processor over two ticks.
 */
module PingPongProgress {
  import opened Exec
  import opened Signals
  import opened PingPong
  import opened Numbers
  import Turns
  import RoundRobin

  ghost predicate Live(d: Demo) {
    Good(d) && Turns.Running(d.s)
  }

  function Count(d: Demo): nat { d.produced + d.consumed }

  /** Steps to the end of a call. */
  function CallLeft(c: Call): nat {
    match c
    case WaitEnter(_) => 7
    case WaitTest(_) => 6
    case WaitPermit(_) => 5
    case WaitSpin(_) => 4
    case WaitAgain(_) => 3
    case WaitTake(_) => 2
    case WaitDone(_, _) => 1
    case SignalEnter(_, _, _) => 3
    case SignalPost(_, _, _) => 2
    case SignalDone(_) => 1
    case _ => 0
  }

  /** The producer signals, counts, waits; the consumer waits, counts, signals. */
  function ProducerLeft(d: Demo): nat
    requires |d.s.calls| == 3
  {
    var c := CallLeft(d.s.calls[PRODUCER]);
    match d.producer case DoCount => c case DoSignal => 4 + c case DoWait => 12 + c
  }

  function ConsumerLeft(d: Demo): nat
    requires |d.s.calls| == 3
  {
    var c := CallLeft(d.s.calls[CONSUMER]);
    match d.consumer case DoCount => c case DoWait => 8 + c case DoSignal => 12 + c
  }

  function Left(d: Demo): nat
    requires |d.s.calls| == 3
  {
    ProducerLeft(d) + ConsumerLeft(d)
  }

  /** Ticks with a step that may pass before the next count. */
  ghost function Slack(d: Demo): nat
    requires |d.s.calls| == 3
  {
    2 * Left(d) + One(d.s.k.cur != Turns.BUSY)
  }

  const PER_COUNT: nat := 60

  lemma SlackIsBounded(d: Demo)
    requires Live(d)
    ensures Slack(d) < PER_COUNT
  {
    hide Inv;
  }

  /** A step keeps what the ticks rely on. */
  lemma GoKeepsRunning(d: Demo, limit: nat)
    requires Live(d) && Can(d, Go)
    ensures var r := Do(d, Go, limit); Live(r) && r.s.k.cur == d.s.k.cur && r.s.k.ticks == d.s.k.ticks
  {
    var r := Do(d, Go, limit);
    PlayedGood(d, [Go], limit);
    assert Played(d, [Go], limit) == Played(r, [], limit);
    if !Mine(d.s).User? { AdvanceEffect(d.s, limit); }
    NotBothBlocked(r);
  }

  lemma NotBothBlocked(d: Demo)
    requires Good(d)
    ensures !(d.s.k.tasks[PRODUCER].state == Wait && d.s.k.tasks[CONSUMER].state == Wait)
  {
    var p, c := d.s.k.tasks[PRODUCER], d.s.k.tasks[CONSUMER];
    assert TaskOk(p, d.s.calls[PRODUCER]) && TaskOk(c, d.s.calls[CONSUMER]);
    assert p.state == Wait ==> ACK in p.sigWait && ACK !in p.recvd * p.sigWait;
    assert c.state == Wait && d.consumer.DoCount? ==> DATA in c.sigWait && DATA !in c.recvd * c.sigWait;
  }

  /** A step of the producer or the consumer, unless it is blocked, counts or comes nearer to it. */
  ghost predicate Nearer(d: Demo, r: Demo)
    requires Live(d)
  {
    && |r.s.calls| == 3 && Count(d) <= Count(r) <= Count(d) + 1
    && (Count(r) == Count(d) ==> Left(r) <= Left(d))
    && (Count(r) == Count(d) && d.s.k.cur != Turns.BUSY && !Turns.Spinning(d.s) ==> Left(r) < Left(d))
  }

  lemma AdvanceLeft(s: State, limit: nat)
    requires Enabled(s, Advance)
    ensures var c, r := Mine(s), Mine(Step(s, Advance, limit));
      if Turns.Spinning(s) then r == c else CallLeft(r) < CallLeft(c)
  {
    AdvanceEffect(s, limit);
    hide Step;
  }

  lemma CallComesNearer(d: Demo, limit: nat)
    requires Live(d) && Can(d, Go) && !Mine(d.s).User?
    ensures Nearer(d, Do(d, Go, limit))
  {
    AdvanceEffect(d.s, limit);
    AdvanceLeft(d.s, limit);
    assert d.s.k.cur == PRODUCER || d.s.k.cur == CONSUMER;
    hide Step;
    hide Inv;
    hide Tokens;
    hide Sent;
    hide CallLeft;
  }

  lemma GoComesNearer(d: Demo, limit: nat)
    requires Live(d) && Can(d, Go)
    ensures Nearer(d, Do(d, Go, limit))
  {
    hide Inv;
    hide Tokens;
    hide Sent;
    if !Mine(d.s).User? {
      CallComesNearer(d, limit);
    } else if d.s.k.cur == PRODUCER {
      assert CallLeft(Mine(d.s)) == 0;
    } else if d.s.k.cur == CONSUMER {
      assert CallLeft(Mine(d.s)) == 0;
    }
  }

  /** A tick followed by a step: a count, or less slack. */
  lemma PaceComesNearer(d: Demo, limit: nat)
    requires Live(d) && d.s.k.ticks + 1 < limit
    ensures var a := Do(d, Alarm, limit);
      && Live(a) && Can(a, Go) && a.s.k.ticks == d.s.k.ticks + 1
      && var r := Do(a, Go, limit);
         && Live(r) && r.s.k.ticks == d.s.k.ticks + 1 && Count(d) <= Count(r) <= Count(d) + 1
         && (Count(r) == Count(d) ==> Slack(r) < Slack(d))
  {
    var a := Do(d, Alarm, limit);
    AlarmGood(d, limit);
    Turns.TickTurns(d.s, limit);
    NeverStuck(a);
    GoKeepsRunning(a, limit);
    GoComesNearer(a, limit);
    hide Step;
    hide Inv;
  }

  /** Every count costs at most PER_COUNT ticks, under every paced schedule. */
  lemma {:induction false} CountsGoOn(d: Demo, es: seq<Event>, limit: nat)
    requires Live(d) && ValidEvents(d, es, limit) && Turns.Paced(es, Alarm)
    requires d.s.k.ticks + Turns.Ticks(es, Alarm) < limit
    ensures Count(Played(d, es, limit)) >= Count(d)
    ensures Turns.Ticks(es, Alarm) <= Slack(d) + PER_COUNT * (Count(Played(d, es, limit)) - Count(d))
    decreases |es|
  {
    hide Do;
    hide Live;
    if es != [] {
      if es[0].Go? {
        GoKeepsRunning(d, limit);
        GoComesNearer(d, limit);
        var r := Do(d, Go, limit);
        SlackIsBounded(r);
        CountsGoOn(r, es[1..], limit);
      } else {
        PaceComesNearer(d, limit);
        var a := Do(d, Alarm, limit);
        var r := Do(a, Go, limit);
        SlackIsBounded(r);
        assert es[1..][1..] == es[2..] && es[1..][0] == Go;
        CountsGoOn(r, es[2..], limit);
      }
    }
  }

  /** Two ticks after `main` has spawned the tasks. */
  ghost function Dispatched(pris: seq<int>, limit: nat): Demo
    requires |pris| == 3
  {
    Do(Do(Start(pris), Alarm, limit), Alarm, limit)
  }

  /** One of the tasks runs then. */
  lemma StartRuns(pris: seq<int>, limit: nat)
    requires |pris| == 3 && pris[Turns.BUSY] <= pris[PRODUCER] && pris[Turns.BUSY] <= pris[CONSUMER] && 2 < limit
    ensures var d := Dispatched(pris, limit); Live(d) && d.s.k.ticks == 2 && Count(d) == 0
  {
    StartGood(pris);
    var a := Do(Start(pris), Alarm, limit);
    AlarmGood(Start(pris), limit);
    AlarmGood(a, limit);
    var d := Do(a, Alarm, limit);
    NotBothBlocked(d);
    AlarmKeeps(a.s.k, limit);
    SameLists(a.s.k, a.s.k.(ticks := 2));
    ExitInterruptKeeps(a.s.k.(ticks := 2));
    assert forall t | 0 <= t < 3 :: OnlyRuns(a.s.k.tasks[t], d.s.k.tasks[t]);
  }

  lemma FromStart(pris: seq<int>, es: seq<Event>, limit: nat)
    requires |pris| == 3
    ensures ValidEvents(Start(pris), [Alarm, Alarm] + es, limit) <==> ValidEvents(Dispatched(pris, limit), es, limit)
    ensures ValidEvents(Dispatched(pris, limit), es, limit) ==>
              Played(Start(pris), [Alarm, Alarm] + es, limit) == Played(Dispatched(pris, limit), es, limit)
  {
    var a := Do(Start(pris), Alarm, limit);
    assert Can(a, Alarm) && Dispatched(pris, limit) == Do(a, Alarm, limit);
    hide Do;
    assert ([Alarm, Alarm] + es)[1..] == [Alarm] + es && ([Alarm] + es)[1..] == es;
  }

  /**
   From the start, under every paced schedule, `n` ticks after the first two bring at least
   n / PER_COUNT - 1 counts, when the busy task is no more urgent than the two.
   */
  lemma CountsFromStart(pris: seq<int>, es: seq<Event>, limit: nat)
    requires |pris| == 3 && pris[Turns.BUSY] <= pris[PRODUCER] && pris[Turns.BUSY] <= pris[CONSUMER]
    requires Turns.Paced(es, Alarm) && Turns.Ticks(es, Alarm) + 2 < limit
    requires ValidEvents(Start(pris), [Alarm, Alarm] + es, limit)
    ensures Turns.Ticks(es, Alarm) < PER_COUNT * (Count(Played(Start(pris), [Alarm, Alarm] + es, limit)) + 1)
  {
    StartRuns(pris, limit);
    FromStart(pris, es, limit);
    CountsGoOn(Dispatched(pris, limit), es, limit);
    SlackIsBounded(Dispatched(pris, limit));
  }

  /** A tick and a step in turn is a schedule. */
  lemma {:induction false} PulseIsValid(d: Demo, n: nat, limit: nat)
    requires Live(d) && d.s.k.ticks + n < limit
    ensures ValidEvents(d, Turns.Pulse(Alarm, Go, n), limit)
    decreases n
  {
    hide Do;
    if n > 0 {
      PaceComesNearer(d, limit);
      var a := Do(d, Alarm, limit);
      var es := Turns.Pulse(Alarm, Go, n);
      assert es[1..] == [Go] + Turns.Pulse(Alarm, Go, n - 1) && es[1..][1..] == Turns.Pulse(Alarm, Go, n - 1);
      PulseIsValid(Do(a, Go, limit), n - 1, limit);
    }
  }

  /** Such schedules exist, so any number of counts is reached. */
  lemma CountsAreReached(pris: seq<int>, n: nat) returns (es: seq<Event>, limit: nat)
    requires |pris| == 3 && pris[Turns.BUSY] <= pris[PRODUCER] && pris[Turns.BUSY] <= pris[CONSUMER]
    ensures ValidEvents(Start(pris), es, limit) && Count(Played(Start(pris), es, limit)) >= n
  {
    limit := PER_COUNT * n + 3;
    var pulse := Turns.Pulse(Alarm, Go, PER_COUNT * n);
    StartRuns(pris, limit);
    hide Dispatched;
    hide Live;
    PulseIsValid(Dispatched(pris, limit), PER_COUNT * n, limit);
    Turns.PulseIsPaced(Alarm, Go, PER_COUNT * n);
    FromStart(pris, pulse, limit);
    CountsFromStart(pris, pulse, limit);
    es := [Alarm, Alarm] + pulse;
  }

  // ----------------------------------------------------------- and otherwise never

  ghost predicate Starved(d: Demo, t: nat)
    requires t < Turns.BUSY
  {
    Good(d) && Turns.Starved(d.s, t)
  }

  lemma StaysStarved(d: Demo, t: nat, e: Event, limit: nat)
    requires t < Turns.BUSY && Starved(d, t) && Can(d, e)
    ensures Starved(Do(d, e, limit), t)
  {
    PlayedGood(d, [e], limit);
    assert Played(d, [e], limit) == Played(Do(d, e, limit), [], limit);
    if e.Alarm? {
      Turns.TickStarves(d.s, limit, t);
      hide Step;
    } else if !Mine(d.s).User? {
      AdvanceEffect(d.s, limit);
      hide Step;
    }
  }

  function CountOf(d: Demo, t: nat): nat
    requires t < Turns.BUSY
  {
    if t == PRODUCER then d.produced else d.consumed
  }

  lemma {:induction false} NeverCounts(d: Demo, t: nat, es: seq<Event>, limit: nat)
    requires t < Turns.BUSY && Starved(d, t) && ValidEvents(d, es, limit)
    ensures CountOf(Played(d, es, limit), t) == CountOf(d, t)
    decreases |es|
  {
    hide Starved;
    if es != [] {
      StaysStarved(d, t, es[0], limit);
      SameCount(d, t, es[0], limit);
      NeverCounts(Do(d, es[0], limit), t, es[1..], limit);
    }
  }

  lemma SameCount(d: Demo, t: nat, e: Event, limit: nat)
    requires t < Turns.BUSY && Starved(d, t) && Can(d, e)
    ensures CountOf(Do(d, e, limit), t) == CountOf(d, t)
  {
  }

  /** A busy task more urgent than the producer or the consumer: at most one count, however long the run. */
  lemma BusyStarves(pris: seq<int>, es: seq<Event>, limit: nat)
    requires |pris| == 3 && (pris[Turns.BUSY] > pris[PRODUCER] || pris[Turns.BUSY] > pris[CONSUMER])
    requires ValidEvents(Start(pris), es, limit)
    ensures Count(Played(Start(pris), es, limit)) <= 1
  {
    StartGood(pris);
    LockStep(pris, es, limit);
    NeverCounts(Start(pris), if pris[Turns.BUSY] > pris[PRODUCER] then PRODUCER else CONSUMER, es, limit);
  }
}
