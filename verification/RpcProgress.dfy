/**
 Round trips get on: under every schedule in which a tick is followed by at least one step of
 whoever runs, the client completes rounds, and the ticks bound how many.

 How far a round is from its end is measured in three parts, the first counting most: the
 program steps and moves of the request still to come, the wakeups still to be used up, and
 the steps to the end of the calls the two tasks are in.  A step of either task that is not
 blocked brings the measure down: a task that wakes for nothing has used up a wakeup.
 */
module RpcProgress {
  import opened Exec
  import opened Numbers
  import opened Ports
  import opened Rpc
  import Signals
  import Turns
  import RoundRobin

  ghost predicate Live<W>(app: App<W>, ports: seq<Port>, w0: W, d: Demo<W>) {
    Good(app, ports, w0, d) && Turns.Running(d.ps.s)
  }

  // ------------------------------------------------------------------ the measure

  /** Moves of the request before the round ends. */
  function Moves<W>(d: Demo<W>): nat
    requires |d.ps.ops| == 3 && |d.ps.queues| == 2
  {
    if d.ps.queues[REQ] != [] then 3
    else if d.ps.queues[REPLY] != [] then 1
    else if IsWith(d, true) then 2
    else if d.client.Pre? || d.client.Sending? then 4
    else 0
  }

  function Work<W>(app: App<W>, d: Demo<W>): nat
    requires |d.ps.ops| == 3 && |d.ps.queues| == 2
  {
    (if d.done <= |app.All()| then |app.All()| - d.done else 0) + Moves(d)
  }

  /** Wakeups at port `p`: its bit pending, or a sender about to post it. */
  function Wakeups(ports: seq<Port>, st: Ports.State, p: nat, sender: nat): nat
    requires p < |ports| && ports[p].owner < |st.s.k.tasks| && sender < |st.ops| == |st.s.calls|
  {
    One(ports[p].bit in st.s.k.tasks[ports[p].owner].recvd) + One(Between(ports, p, st.ops[sender], st.s.calls[sender]))
  }

  ghost function AllWakeups(ports: seq<Port>, st: Ports.State): nat
    requires Wfp(ports, st) && |st.ops| == 3 && |ports| == 2
  {
    Wakeups(ports, st, REQ, CLIENT) + Wakeups(ports, st, REPLY, SERVER)
  }

  /** Steps inside `Wait`; the take of a bit has used up a wakeup, so the way back comes on top. */
  function WaitLeft(c: Signals.Call): nat {
    match c
    case WaitDone(_, _) => 8
    case User(_) => 7
    case WaitEnter(_) => 6
    case WaitTest(_) => 5
    case WaitPermit(_) => 4
    case WaitSpin(_) => 3
    case WaitAgain(_) => 2
    case WaitTake(_) => 1
    case _ => 0
  }

  function PutLeft(op: Op, c: Signals.Call): nat {
    match op
    case PutEnter(_, _) => 8
    case PutAdd(_, _) => 7
    case PutLeave(_) => 6
    case PutSignal(_) => 5
    case PutSignalling(_) => if c.SignalEnter? then 4 else if c.SignalPost? then 3 else if c.SignalDone? then 2 else 1
    case _ => 0
  }

  function ClientLeft(pc: ClientPc, op: Op, c: Signals.Call): nat {
    match pc
    case Pre(_) => 29
    case Sending => 12 + PutLeft(op, c)
    case Receiving => if op.AtPort? then 3 + WaitLeft(c) else 3
    case Getting => if op.GetEnter? then 2 else if op.GetPop? then 1 else if op.GetLeave? then 31 else 30
    case After(_) => 29
  }

  /** The server's way depends on whether a request is waiting for it. */
  function ServerLeft(pc: ServerPc, op: Op, c: Signals.Call, waiting: bool): nat {
    match pc
    case Starting => 12
    case Heard => if op.AtPort? then 3 + WaitLeft(c) else if waiting then 3 else 17
    case Taking =>
      if op.GetEnter? then (if waiting then 2 else 16)
      else if op.GetPop? then (if waiting then 1 else 15)
      else if op.GetLeave? then (if op.ret.None? then 14 else 31)
      else if op.Idle? && op.ret.None? then 13
      else 30
    case Serving(_) => 29
    case Replying => 20 + PutLeft(op, c)
  }

  function CallsLeft<W>(d: Demo<W>): nat
    requires |d.ps.ops| == |d.ps.s.calls| == 3 && |d.ps.queues| == 2
  {
    ClientLeft(d.client, d.ps.ops[CLIENT], d.ps.s.calls[CLIENT])
    + ServerLeft(d.server, d.ps.ops[SERVER], d.ps.s.calls[SERVER], d.ps.queues[REQ] != [])
  }

  ghost predicate Sized<W>(ports: seq<Port>, d: Demo<W>) {
    Wfp(ports, d.ps) && |d.ps.ops| == 3 && |ports| == 2
  }

  /** From `d` to `r` a round ended, or the measure fell, or (unless `strict`) it stayed. */
  ghost predicate Nearer<W>(app: App<W>, ports: seq<Port>, d: Demo<W>, r: Demo<W>, strict: bool)
    requires Sized(ports, d)
  {
    && Sized(ports, r)
    && (r.round == d.round + 1 ||
        (&& r.round == d.round
         && (|| Work(app, r) < Work(app, d)
             || (Work(app, r) == Work(app, d) && AllWakeups(ports, r.ps) < AllWakeups(ports, d.ps))
             || (Work(app, r) == Work(app, d) && AllWakeups(ports, r.ps) == AllWakeups(ports, d.ps)
                 && (if strict then CallsLeft(r) < CallsLeft(d) else CallsLeft(r) == CallsLeft(d))))))
  }

  // -------------------------------------------------------- one step of the two tasks

  lemma ClientNearer<W>(app: App<W>, ports: seq<Port>, w0: W, d: Demo<W>)
    requires Live(app, ports, w0, d) && Can(ports, d, Go) && Now(d.ps).Idle? && d.ps.s.k.cur == CLIENT
    ensures Nearer(app, ports, d, Client(app, ports, d), true)
  {
    hide Signals.Step;
    hide Signals.Inv;
    hide Ports.Inv;
  }

  lemma ServerNearer<W>(app: App<W>, ports: seq<Port>, w0: W, d: Demo<W>)
    requires Live(app, ports, w0, d) && Can(ports, d, Go) && Now(d.ps).Idle? && d.ps.s.k.cur == SERVER
    ensures Nearer(app, ports, d, Server(app, ports, d), true)
  {
    hide Signals.Step;
    hide Signals.Inv;
    hide Ports.Inv;
    hide Shape;
  }

  /** Program counters that go with each other, and nothing about the data. */
  ghost predicate Placed<W>(ports: seq<Port>, d: Demo<W>) {
    && Sized(ports, d) && d.ps.s.k.cur != BOOT && d.ps.s.k.cur != Turns.BUSY
    && ports[REQ].owner == SERVER && ports[REPLY].owner == CLIENT
    && ClientShape(d.client, d.ps.ops[CLIENT]) && Shape(ports, CLIENT, d.ps.ops[CLIENT], d.ps.s.calls[CLIENT])
    && ServerShape(d.server, d.ps.ops[SERVER]) && Shape(ports, SERVER, d.ps.ops[SERVER], d.ps.s.calls[SERVER])
  }

  lemma LivePlaced<W>(app: App<W>, ports: seq<Port>, w0: W, d: Demo<W>)
    requires Live(app, ports, w0, d) && d.ps.s.k.cur != Turns.BUSY
    ensures Placed(ports, d)
  {
    assert Shape(ports, CLIENT, d.ps.ops[CLIENT], d.ps.s.calls[CLIENT]);
    assert Shape(ports, SERVER, d.ps.ops[SERVER], d.ps.s.calls[SERVER]);
  }

  /** Inside `Wait` and `Signal` a wakeup moves from the sender to the bit, and from the bit to nowhere. */
  lemma AdvanceWakeups<W>(ports: seq<Port>, d: Demo<W>, limit: nat)
    requires Placed(ports, d) && Signals.Inv(d.ps.s) && Signals.Enabled(d.ps.s, Signals.Advance)
    requires !Now(d.ps).Idle?
    ensures var r := d.ps.(s := Signals.Step(d.ps.s, Signals.Advance, limit));
      && Wfp(ports, r)
      && AllWakeups(ports, r) <= AllWakeups(ports, d.ps)
      && (Signals.Mine(d.ps.s).WaitTake? ==> AllWakeups(ports, r) < AllWakeups(ports, d.ps))
  {
    var s := d.ps.s;
    Signals.AdvanceEffect(s, limit);
    Signals.BitsConserved(s, Signals.Advance, limit, SERVER, ports[REQ].bit);
    Signals.BitsConserved(s, Signals.Advance, limit, CLIENT, ports[REPLY].bit);
    assert Signals.TaskOk(s.k.tasks[s.k.cur], s.calls[s.k.cur]);
    hide Signals.Step;
    hide Signals.Inv;
  }

  /** The steps left inside a call fall, except where it spins or has just taken its bit. */
  lemma AdvanceLeft(ports: seq<Port>, st: Ports.State, limit: nat)
    requires Wfp(ports, st) && Signals.Enabled(st.s, Signals.Advance) && !Now(st).Idle?
    requires Shape(ports, st.s.k.cur, Now(st), Signals.Mine(st.s))
    ensures var op, c, c' := Now(st), Signals.Mine(st.s), Signals.Mine(Signals.Step(st.s, Signals.Advance, limit));
      && (Turns.Spinning(st.s) ==> c' == c)
      && (op.AtPort? && !Turns.Spinning(st.s) && !c.WaitTake? ==> WaitLeft(c') < WaitLeft(c))
      && (!op.AtPort? ==>
            op.PutSignalling? && PutLeft(op, c') < PutLeft(op, c) && !Turns.Spinning(st.s) && !c.WaitTake?)
  {
    Signals.AdvanceEffect(st.s, limit);
    hide Signals.Step;
  }

  lemma AdvanceCalls<W>(ports: seq<Port>, d: Demo<W>, limit: nat)
    requires Placed(ports, d) && Signals.Enabled(d.ps.s, Signals.Advance) && !Now(d.ps).Idle?
    ensures var r := d.(ps := d.ps.(s := Signals.Step(d.ps.s, Signals.Advance, limit)));
      && Sized(ports, r)
      && (if Turns.Spinning(d.ps.s) then CallsLeft(r) == CallsLeft(d)
          else if Signals.Mine(d.ps.s).WaitTake? then true
          else CallsLeft(r) < CallsLeft(d))
  {
    AdvanceLeft(ports, d.ps, limit);
    Signals.AdvanceEffect(d.ps.s, limit);
    hide Signals.Step;
    hide Shape;
    hide WaitLeft;
    hide PutLeft;
  }

  lemma AdvanceNearer<W>(app: App<W>, ports: seq<Port>, w0: W, d: Demo<W>, limit: nat)
    requires Live(app, ports, w0, d) && Can(ports, d, Go)
    requires !Now(d.ps).Idle? && !Signals.Mine(d.ps.s).User? && !Signals.Mine(d.ps.s).Locked?
    ensures Nearer(app, ports, d, d.(ps := Step(ports, d.ps, Proceed, limit)), !Turns.Spinning(d.ps.s))
  {
    LivePlaced(app, ports, w0, d);
    AdvanceWakeups(ports, d, limit);
    AdvanceCalls(ports, d, limit);
    Signals.AdvanceEffect(d.ps.s, limit);
    hide Signals.Step;
    hide Signals.Inv;
    hide Ports.Inv;
    hide Wakeups;
    hide CallsLeft;
  }

  /** What a step of a port call outside `Wait` and `Signal` does to the kernel. */
  lemma MovedKernel(ports: seq<Port>, st: Ports.State)
    requires Wfp(ports, st) && st.s.k.cur != BOOT && Shape(ports, st.s.k.cur, Now(st), Signals.Mine(st.s))
    requires Signals.Mine(st.s).User? || Signals.Mine(st.s).Locked?
    ensures var s, r := st.s, Moved(ports, st).s;
      && r.k == s.k.(forbid := r.k.forbid) && |r.calls| == |s.calls|
      && (forall t | 0 <= t < |s.calls| && t != s.k.cur :: r.calls[t] == s.calls[t])
      && match Now(st)
         case PutSignal(p) => r.calls[s.k.cur] == Signals.SignalEnter(ports[p].owner, {ports[p].bit}, 0)
         case AtPort(p) => st.queues[p] == [] ==> r.calls[s.k.cur] == Signals.WaitEnter({ports[p].bit})
         case PutLeave(_) => r.calls[s.k.cur] == Signals.User({})
         case _ => true
  {
  }

  /** The link into a queue and the take from one are the moves of the request. */
  predicate Moving(st: Ports.State, op: Op) {
    op.PutAdd? || (op.GetPop? && op.port < |st.queues| && st.queues[op.port] != [])
  }

  lemma MovingWorks<W>(app: App<W>, ports: seq<Port>, d: Demo<W>, r: Ports.State)
    requires Placed(ports, d) && Track(app, d) && d.done <= |app.All()| && Moving(d.ps, Now(d.ps))
    requires |r.ops| == 3 && |r.queues| == 2
    requires forall t | 0 <= t < 3 && t != d.ps.s.k.cur :: r.ops[t] == d.ps.ops[t]
    requires match Now(d.ps)
      case PutAdd(p, m) => r.ops[d.ps.s.k.cur] == PutLeave(p) && r.queues == d.ps.queues[p := d.ps.queues[p] + [m]]
      case GetPop(p) =>
        r.ops[d.ps.s.k.cur] == GetLeave(Some(d.ps.queues[p][0])) && r.queues == d.ps.queues[p := d.ps.queues[p][1..]]
      case _ => true
    ensures Work(app, d.(ps := r)) < Work(app, d)
  {
    hide ProgramAt;
  }

  /** Any other step of a port call outside `Wait` and `Signal`. */
  ghost predicate Stepping<W>(ports: seq<Port>, d: Demo<W>) {
    && Placed(ports, d) && Enabled(ports, d.ps, Proceed) && !Now(d.ps).Idle? && !Moving(d.ps, Now(d.ps))
    && (Signals.Mine(d.ps.s).User? || Signals.Mine(d.ps.s).Locked?)
    && (d.client.Getting? && d.ps.ops[CLIENT].GetPop? ==> d.ps.queues[REPLY] != [])
  }

  lemma SteppingEffect<W>(ports: seq<Port>, d: Demo<W>, limit: nat)
    requires Stepping(ports, d)
    ensures var c, r := d.ps.s.k.cur, Step(ports, d.ps, Proceed, limit);
      var s, op, op', call' := d.ps.s, d.ps.ops[c], r.ops[c], r.s.calls[c];
      && Wfp(ports, r) && |r.ops| == 3 && r.queues == d.ps.queues && r.s.k.tasks == s.k.tasks
      && (forall t | 0 <= t < 3 && t != c :: r.ops[t] == d.ps.ops[t] && r.s.calls[t] == s.calls[t])
      && match op
         case PutEnter(p, m) => op' == PutAdd(p, m)
         case PutAdd(_, _) => true
         case PutLeave(p) => op' == PutSignal(p)
         case PutSignal(p) => op' == PutSignalling(p) && call' == Signals.SignalEnter(ports[p].owner, {ports[p].bit}, 0)
         case PutSignalling(p) => op' == Idle(None)
         case AtPort(p) =>
           if d.ps.queues[p] == [] then op' == op && call' == Signals.WaitEnter({ports[p].bit})
           else op' == Idle(Some(d.ps.queues[p][0]))
         case GetEnter(p) => op' == GetPop(p)
         case GetPop(p) => op' == GetLeave(None)
         case GetLeave(m) => op' == Idle(m)
         case Idle(_) => true
  {
    MovedKernel(ports, d.ps);
    hide Signals.Step;
  }

  lemma SteppingWork<W>(app: App<W>, ports: seq<Port>, d: Demo<W>, limit: nat)
    requires Stepping(ports, d)
    ensures var r := d.(ps := Step(ports, d.ps, Proceed, limit));
      Sized(ports, r) && Work(app, r) == Work(app, d) && AllWakeups(ports, r.ps) == AllWakeups(ports, d.ps)
  {
    SteppingEffect(ports, d, limit);
    hide Ports.Step;
  }

  lemma SteppingCalls<W>(ports: seq<Port>, d: Demo<W>, limit: nat)
    requires Stepping(ports, d)
    ensures var r := d.(ps := Step(ports, d.ps, Proceed, limit)); Sized(ports, r) && CallsLeft(r) < CallsLeft(d)
  {
    SteppingEffect(ports, d, limit);
    hide Ports.Step;
  }

  lemma MovedNearer<W>(app: App<W>, ports: seq<Port>, w0: W, d: Demo<W>, limit: nat)
    requires Live(app, ports, w0, d) && Can(ports, d, Go)
    requires !Now(d.ps).Idle? && (Signals.Mine(d.ps.s).User? || Signals.Mine(d.ps.s).Locked?)
    ensures Nearer(app, ports, d, d.(ps := Step(ports, d.ps, Proceed, limit)), true)
  {
    LivePlaced(app, ports, w0, d);
    ProceedEffect(ports, d.ps, limit);
    if Moving(d.ps, Now(d.ps)) {
      MovingWorks(app, ports, d, Step(ports, d.ps, Proceed, limit));
    } else {
      SteppingWork(app, ports, d, limit);
      SteppingCalls(ports, d, limit);
    }
    hide Ports.Step;
    hide Ports.Inv;
    hide Track;
    hide AllWakeups;
    hide CallsLeft;
    hide Work;
  }

  // -------------------------------------------------------------- ticks and steps

  /** A step keeps the demo running and the processor where it is. */
  lemma GoKeepsRunning<W>(app: App<W>, ports: seq<Port>, w0: W, d: Demo<W>, limit: nat)
    requires Live(app, ports, w0, d) && Can(ports, d, Go)
    ensures var r := Do(app, ports, d, Go, limit);
      Live(app, ports, w0, r) && r.ps.s.k.cur == d.ps.s.k.cur && r.ps.s.k.ticks == d.ps.s.k.ticks
  {
    var r := Do(app, ports, d, Go, limit);
    DoKeeps(app, ports, w0, d, Go, limit);
    NotBothBlocked(app, ports, w0, r);
    GoKernel(app, ports, d, limit);
    assert Shape(ports, Turns.BUSY, r.ps.ops[Turns.BUSY], r.ps.s.calls[Turns.BUSY]);
    hide Do;
    hide Signals.Inv;
  }

  lemma GoKernel<W>(app: App<W>, ports: seq<Port>, d: Demo<W>, limit: nat)
    requires Can(ports, d, Go) && Sized(ports, d)
    ensures var k, r := d.ps.s.k, Do(app, ports, d, Go, limit).ps.s.k;
      && r.cur == k.cur && r.on == k.on && r.inited == k.inited && r.ticks == k.ticks && |r.tasks| == |k.tasks|
      && forall t | 0 <= t < |k.tasks| :: r.tasks[t].pri == k.tasks[t].pri
  {
    if !Now(d.ps).Idle? {
      if Signals.Mine(d.ps.s).User? || Signals.Mine(d.ps.s).Locked? {
        MovedKernel(ports, d.ps);
        hide Moved;
      } else {
        Signals.AdvanceEffect(d.ps.s, limit);
        hide Signals.Step;
      }
    }
  }

  lemma GoComesNearer<W>(app: App<W>, ports: seq<Port>, w0: W, d: Demo<W>, limit: nat)
    requires Live(app, ports, w0, d) && Can(ports, d, Go)
    ensures Nearer(app, ports, d, Do(app, ports, d, Go, limit), d.ps.s.k.cur != Turns.BUSY && !Turns.Spinning(d.ps.s))
  {
    if d.ps.s.k.cur == Turns.BUSY {
      assert Now(d.ps).Idle?;
    } else if Now(d.ps).Idle? {
      IdleIsUser(app, ports, w0, d);
      if d.ps.s.k.cur == CLIENT { ClientNearer(app, ports, w0, d); } else { ServerNearer(app, ports, w0, d); }
    } else if Signals.Mine(d.ps.s).User? || Signals.Mine(d.ps.s).Locked? {
      MovedNearer(app, ports, w0, d, limit);
      IdleIsUser(app, ports, w0, d);
    } else {
      AdvanceNearer(app, ports, w0, d, limit);
    }
    hide Nearer;
    hide Track;
    hide Ports.Inv;
  }

  /** Only a task inside `Wait` spins. */
  lemma IdleIsUser<W>(app: App<W>, ports: seq<Port>, w0: W, d: Demo<W>)
    requires Live(app, ports, w0, d)
    ensures Turns.Spinning(d.ps.s) ==> !Now(d.ps).Idle?
  {
    assert Shape(ports, d.ps.s.k.cur, d.ps.ops[d.ps.s.k.cur], d.ps.s.calls[d.ps.s.k.cur]);
  }

  // ----------------------------------------------------------- the measure as a number

  ghost function Left<W>(app: App<W>, ports: seq<Port>, d: Demo<W>): nat
    requires Sized(ports, d)
  {
    (Work(app, d) * 5 + AllWakeups(ports, d.ps)) * 64 + CallsLeft(d)
  }

  lemma PartsAreBounded<W>(app: App<W>, ports: seq<Port>, d: Demo<W>)
    requires Sized(ports, d)
    ensures Work(app, d) <= |app.All()| + 4 && AllWakeups(ports, d.ps) <= 4 && CallsLeft(d) < 64
  {
  }

  lemma NearerIsLess<W>(app: App<W>, ports: seq<Port>, d: Demo<W>, r: Demo<W>, strict: bool)
    requires Sized(ports, d) && Nearer(app, ports, d, r, strict) && r.round == d.round
    ensures Left(app, ports, r) <= Left(app, ports, d)
    ensures strict ==> Left(app, ports, r) < Left(app, ports, d)
  {
    PartsAreBounded(app, ports, d);
    PartsAreBounded(app, ports, r);
    hide Work;
    hide AllWakeups;
    hide CallsLeft;
  }

  /** Ticks with a step that may pass before the end of the round. */
  ghost function Slack<W>(app: App<W>, ports: seq<Port>, d: Demo<W>): nat
    requires Sized(ports, d)
  {
    2 * Left(app, ports, d) + One(d.ps.s.k.cur != Turns.BUSY)
  }

  function PerRound<W>(app: App<W>): nat { 640 * (|app.All()| + 5) }

  lemma SlackIsBounded<W>(app: App<W>, ports: seq<Port>, d: Demo<W>)
    requires Sized(ports, d)
    ensures Slack(app, ports, d) < PerRound(app)
  {
    PartsAreBounded(app, ports, d);
    hide Work;
    hide AllWakeups;
    hide CallsLeft;
  }

  /** A tick leaves the measure alone. */
  lemma AlarmLeaves<W>(app: App<W>, ports: seq<Port>, w0: W, d: Demo<W>, limit: nat)
    requires Live(app, ports, w0, d) && d.ps.s.k.ticks + 1 < limit
    ensures var a := Do(app, ports, d, Alarm, limit);
      && Live(app, ports, w0, a) && Can(ports, a, Go) && a.ps.s.k.ticks == d.ps.s.k.ticks + 1 && a.round == d.round
      && Left(app, ports, a) == Left(app, ports, d)
      && !Turns.Spinning(a.ps.s) && (d.ps.s.k.cur == Turns.BUSY ==> a.ps.s.k.cur != Turns.BUSY)
  {
    var a := Do(app, ports, d, Alarm, limit);
    AlarmGood(app, ports, w0, d, limit);
    Turns.TickTurns(d.ps.s, limit);
    NeverStuck(app, ports, w0, a);
    assert a.ps == d.ps.(s := Signals.Step(d.ps.s, Signals.Tick, limit));
    hide Signals.Step;
    hide Signals.Inv;
    hide Ports.Inv;
    hide Track;
  }

  /** A tick followed by a step: the end of a round, or less slack. */
  lemma PaceComesNearer<W>(app: App<W>, ports: seq<Port>, w0: W, d: Demo<W>, limit: nat)
    requires Live(app, ports, w0, d) && d.ps.s.k.ticks + 1 < limit
    ensures var a := Do(app, ports, d, Alarm, limit);
      && Can(ports, a, Go)
      && var r := Do(app, ports, a, Go, limit);
         && Live(app, ports, w0, r) && Sized(ports, r) && r.ps.s.k.ticks == d.ps.s.k.ticks + 1
         && (r.round == d.round + 1 || (r.round == d.round && Slack(app, ports, r) < Slack(app, ports, d)))
  {
    AlarmLeaves(app, ports, w0, d, limit);
    var a := Do(app, ports, d, Alarm, limit);
    GoKeepsRunning(app, ports, w0, a, limit);
    GoComesNearer(app, ports, w0, a, limit);
    var r := Do(app, ports, a, Go, limit);
    var strict := a.ps.s.k.cur != Turns.BUSY && !Turns.Spinning(a.ps.s);
    if r.round == a.round { NearerIsLess(app, ports, a, r, strict); }
    hide Do;
    hide Left;
    hide Track;
    hide Ports.Inv;
    hide Signals.Inv;
  }

  /** Every round costs at most PerRound ticks, under every paced schedule. */
  lemma {:induction false} RoundsGoOn<W>(app: App<W>, ports: seq<Port>, w0: W, d: Demo<W>, es: seq<Event>, limit: nat)
    requires Live(app, ports, w0, d) && ValidEvents(app, ports, d, es, limit)
    requires Turns.Paced(es, Alarm) && d.ps.s.k.ticks + Turns.Ticks(es, Alarm) < limit
    ensures Played(app, ports, d, es, limit).round >= d.round
    ensures Turns.Ticks(es, Alarm) <=
              Slack(app, ports, d) + PerRound(app) * (Played(app, ports, d, es, limit).round - d.round)
    decreases |es|
  {
    hide Do;
    hide Good;
    hide Slack;
    hide PerRound;
    if es != [] {
      var next := Do(app, ports, d, es[0], limit);
      if es[0].Go? {
        GoKeepsRunning(app, ports, w0, d, limit);
        GoComesNearer(app, ports, w0, d, limit);
        GoSlack(app, ports, d, next);
        SlackIsBounded(app, ports, next);
        RoundsGoOn(app, ports, w0, next, es[1..], limit);
        Paid(next.round - d.round, Played(app, ports, d, es, limit).round - next.round, PerRound(app));
      } else {
        PaceComesNearer(app, ports, w0, d, limit);
        assert es[1..][1..] == es[2..] && es[1..][0] == Go;
        var r := Do(app, ports, next, Go, limit);
        SlackIsBounded(app, ports, r);
        RoundsGoOn(app, ports, w0, r, es[2..], limit);
        Paid(r.round - d.round, Played(app, ports, d, es, limit).round - r.round, PerRound(app));
      }
    }
  }

  lemma GoSlack<W>(app: App<W>, ports: seq<Port>, d: Demo<W>, r: Demo<W>)
    requires Sized(ports, d) && d.ps.s.k.cur != BOOT && r.ps.s.k.cur == d.ps.s.k.cur
    requires Nearer(app, ports, d, r, d.ps.s.k.cur != Turns.BUSY && !Turns.Spinning(d.ps.s))
    ensures r.round == d.round ==> Slack(app, ports, r) <= Slack(app, ports, d)
    ensures r.round == d.round || r.round == d.round + 1
  {
    if r.round == d.round {
      NearerIsLess(app, ports, d, r, d.ps.s.k.cur != Turns.BUSY && !Turns.Spinning(d.ps.s));
    }
    hide Left;
  }

  lemma Paid(a: nat, b: nat, price: nat)
    ensures price * (a + b) == price * a + price * b
    ensures a == 1 ==> price * a == price
  {
  }

  // --------------------------------------------------------------- from the start

  /** The busy task is no more urgent than the server and the client. */
  predicate Fair(pris: seq<int>)
    requires |pris| == 3
  {
    pris[Turns.BUSY] <= pris[SERVER] && pris[Turns.BUSY] <= pris[CLIENT]
  }

  /** Two ticks after `main` has spawned the tasks. */
  ghost function Dispatched<W>(app: App<W>, ports: seq<Port>, pris: seq<int>, w0: W, limit: nat): Demo<W>
    requires |pris| == 3 && |ports| == 2 && ports[REQ].owner == SERVER && ports[REPLY].owner == CLIENT
  {
    Do(app, ports, Do(app, ports, Start(ports, pris, w0), Alarm, limit), Alarm, limit)
  }

  /** One of the tasks runs then. */
  lemma StartRuns<W>(app: App<W>, reqBit: nat, replyBit: nat, pris: seq<int>, w0: W, limit: nat)
    requires |pris| == 3 && Fair(pris) && 2 < limit
    ensures var d := Dispatched(app, PortsOf(reqBit, replyBit), pris, w0, limit);
      && Live(app, PortsOf(reqBit, replyBit), w0, d) && Sized(PortsOf(reqBit, replyBit), d)
      && d.ps.s.k.ticks == 2 && d.round == 0
  {
    var ports := PortsOf(reqBit, replyBit);
    StartGood(app, reqBit, replyBit, pris, w0);
    var a := Do(app, ports, Start(ports, pris, w0), Alarm, limit);
    AlarmGood(app, ports, w0, Start(ports, pris, w0), limit);
    AlarmGood(app, ports, w0, a, limit);
    var d := Do(app, ports, a, Alarm, limit);
    NotBothBlocked(app, ports, w0, d);
    KernelStarts(RoundRobin.Initial(pris), a.ps.s.k, limit);
    assert Shape(ports, Turns.BUSY, d.ps.ops[Turns.BUSY], d.ps.s.calls[Turns.BUSY]);
    hide Exec.Alarm;
    hide Exec.Sound;
    hide Track;
  }

  lemma KernelStarts(k: Kernel, a: Kernel, limit: nat)
    requires Sound(k) && k.on && !k.inited && k.cur == BOOT && k.forbid == 0 && k.ticks == 0
    requires k.ready != [] && 2 < limit
    requires a == Exec.Alarm(k, limit, true)
    ensures var r := Exec.Alarm(a, limit, true);
      && r.on && r.inited && r.cur != BOOT && r.ticks == 2 && |r.tasks| == |k.tasks|
      && forall t | 0 <= t < |k.tasks| :: r.tasks[t].pri == k.tasks[t].pri
  {
    SameLists(k, a.(ticks := 2));
    ExitInterruptKeeps(a.(ticks := 2));
    assert forall t | 0 <= t < |k.tasks| :: OnlyRuns(k.tasks[t], Exec.Alarm(a, limit, true).tasks[t]);
  }

  lemma FromStart<W>(app: App<W>, ports: seq<Port>, pris: seq<int>, w0: W, es: seq<Event>, limit: nat)
    requires |pris| == 3 && |ports| == 2 && ports[REQ].owner == SERVER && ports[REPLY].owner == CLIENT
    ensures var s, d := Start(ports, pris, w0), Dispatched(app, ports, pris, w0, limit);
      && (ValidEvents(app, ports, s, [Alarm, Alarm] + es, limit) <==> ValidEvents(app, ports, d, es, limit))
      && (ValidEvents(app, ports, d, es, limit) ==>
            Played(app, ports, s, [Alarm, Alarm] + es, limit) == Played(app, ports, d, es, limit))
  {
    var s := Start(ports, pris, w0);
    assert Can(ports, s, Alarm);
    var a := Do(app, ports, s, Alarm, limit);
    assert Can(ports, a, Alarm) && Dispatched(app, ports, pris, w0, limit) == Do(app, ports, a, Alarm, limit);
    hide Do;
    assert ([Alarm, Alarm] + es)[1..] == [Alarm] + es && ([Alarm] + es)[1..] == es;
  }

  lemma RoundsOnceRunning<W>(app: App<W>, ports: seq<Port>, w0: W, d: Demo<W>, es: seq<Event>, limit: nat)
    requires Live(app, ports, w0, d) && Sized(ports, d) && d.round == 0 && ValidEvents(app, ports, d, es, limit)
    requires Turns.Paced(es, Alarm) && d.ps.s.k.ticks + Turns.Ticks(es, Alarm) < limit
    ensures Turns.Ticks(es, Alarm) < PerRound(app) * (Played(app, ports, d, es, limit).round + 1)
  {
    hide Good;
    hide Slack;
    hide PerRound;
    RoundsGoOn(app, ports, w0, d, es, limit);
    SlackIsBounded(app, ports, d);
    Paid(1, Played(app, ports, d, es, limit).round, PerRound(app));
  }

  /** From the start, under every paced schedule: fewer ticks than PerRound for every round begun. */
  lemma RoundsFromStart<W>(app: App<W>, reqBit: nat, replyBit: nat, pris: seq<int>, w0: W, es: seq<Event>, limit: nat)
    requires |pris| == 3 && Fair(pris) && Turns.Paced(es, Alarm) && Turns.Ticks(es, Alarm) + 2 < limit
    requires var ports := PortsOf(reqBit, replyBit);
      ValidEvents(app, ports, Start(ports, pris, w0), [Alarm, Alarm] + es, limit)
    ensures var ports := PortsOf(reqBit, replyBit);
      Turns.Ticks(es, Alarm) <
        PerRound(app) * (Played(app, ports, Start(ports, pris, w0), [Alarm, Alarm] + es, limit).round + 1)
  {
    hide Dispatched;
    hide Live;
    hide Sized;
    hide ValidEvents;
    hide Played;
    hide Turns.Ticks;
    hide Turns.Paced;
    var ports := PortsOf(reqBit, replyBit);
    StartRuns(app, reqBit, replyBit, pris, w0, limit);
    FromStart(app, ports, pris, w0, es, limit);
    RoundsOnceRunning(app, ports, w0, Dispatched(app, ports, pris, w0, limit), es, limit);
  }

  lemma TwoEvents<W>(app: App<W>, ports: seq<Port>, d: Demo<W>, a: Event, b: Event, es: seq<Event>, limit: nat)
    requires Can(ports, d, a) && Can(ports, Do(app, ports, d, a, limit), b)
    requires ValidEvents(app, ports, Do(app, ports, Do(app, ports, d, a, limit), b, limit), es, limit)
    ensures ValidEvents(app, ports, d, [a, b] + es, limit)
  {
    hide Can;
    hide Do;
    assert ([a, b] + es)[1..] == [b] + es && ([b] + es)[1..] == es;
  }

  /** A tick and a step in turn is a schedule. */
  lemma {:induction false} PulseIsValid<W>(app: App<W>, ports: seq<Port>, w0: W, d: Demo<W>, n: nat, limit: nat)
    requires Live(app, ports, w0, d) && d.ps.s.k.ticks + n < limit
    ensures ValidEvents(app, ports, d, Turns.Pulse(Alarm, Go, n), limit)
    decreases n
  {
    hide Do;
    assert Can(ports, d, Alarm);
    hide Good;
    hide Slack;
    hide Turns.Running;
    if n > 0 {
      PaceComesNearer(app, ports, w0, d, limit);
      var a := Do(app, ports, d, Alarm, limit);
      PulseIsValid(app, ports, w0, Do(app, ports, a, Go, limit), n - 1, limit);
      TwoEvents(app, ports, d, Alarm, Go, Turns.Pulse(Alarm, Go, n - 1), limit);
    }
  }

  /** Rounds end one at a time: a run that passes round `n` has a prefix that has just reached it. */
  lemma {:induction false} FirstReach<W>(app: App<W>, ports: seq<Port>, d: Demo<W>, es: seq<Event>, n: nat, limit: nat)
    returns (k: nat)
    requires ValidEvents(app, ports, d, es, limit) && d.round < n <= Played(app, ports, d, es, limit).round
    ensures k <= |es| && ValidEvents(app, ports, d, es[..k], limit)
    ensures var r := Played(app, ports, d, es[..k], limit); r.round == n && r.done == 0
    decreases |es|
  {
    var next := Do(app, ports, d, es[0], limit);
    RoundStep(app, ports, d, es[0], limit);
    hide Do;
    if next.round == n {
      assert es[..1] == [es[0]] && [es[0]][1..] == [];
      k := 1;
    } else {
      var m := FirstReach(app, ports, next, es[1..], n, limit);
      k := m + 1;
      assert es[..k][1..] == es[1..][..m];
    }
  }

  lemma RoundStep<W>(app: App<W>, ports: seq<Port>, d: Demo<W>, e: Event, limit: nat)
    requires Can(ports, d, e)
    ensures var r := Do(app, ports, d, e, limit); r.round == d.round || (r.round == d.round + 1 && r.done == 0)
  {
  }

  /** Such schedules exist, so every number of rounds is reached. */
  lemma RoundsAreReached<W>(app: App<W>, reqBit: nat, replyBit: nat, pris: seq<int>, w0: W, n: nat)
    returns (es: seq<Event>, limit: nat)
    requires |pris| == 3 && Fair(pris) && n > 0
    ensures var ports := PortsOf(reqBit, replyBit);
      && ValidEvents(app, ports, Start(ports, pris, w0), es, limit)
      && var d := Played(app, ports, Start(ports, pris, w0), es, limit);
         d.round == n && d.done == 0
  {
    hide Dispatched;
    hide Good;
    hide PerRound;
    hide Turns.Running;
    var ports := PortsOf(reqBit, replyBit);
    var ticks := PerRound(app) * n;
    limit := ticks + 3;
    var pulse := Turns.Pulse(Alarm, Go, ticks);
    StartRuns(app, reqBit, replyBit, pris, w0, limit);
    PulseIsValid(app, ports, w0, Dispatched(app, ports, pris, w0, limit), ticks, limit);
    Turns.PulseIsPaced(Alarm, Go, ticks);
    FromStart(app, ports, pris, w0, pulse, limit);
    RoundsFromStart(app, reqBit, replyBit, pris, w0, pulse, limit);
    es := [Alarm, Alarm] + pulse;
    var r := Played(app, ports, Start(ports, pris, w0), es, limit).round;
    if r < n { Scaled(PerRound(app), r + 1, n); }
    var k := FirstReach(app, ports, Start(ports, pris, w0), es, n, limit);
    es := es[..k];
  }

  lemma Scaled(k: nat, a: nat, b: nat)
    requires a <= b
    ensures k * a <= k * b
  {
  }

  // ----------------------------------------------------------- and otherwise never

  /** The server has not run, or the client has not: the first reply is still to come. */
  ghost predicate Starved<W>(app: App<W>, ports: seq<Port>, w0: W, d: Demo<W>, t: nat)
    requires t < Turns.BUSY
  {
    && Good(app, ports, w0, d) && Turns.Starved(d.ps.s, t) && d.round == 0
    && (t == SERVER ==> d.server.Starting? && (d.client.Pre? || d.client.Sending? || d.client.Receiving?)
                        && d.ps.queues[REPLY] == [])
  }

  lemma StaysStarved<W>(app: App<W>, ports: seq<Port>, w0: W, d: Demo<W>, t: nat, e: Event, limit: nat)
    requires t < Turns.BUSY && Starved(app, ports, w0, d, t) && Can(ports, d, e)
    ensures Starved(app, ports, w0, Do(app, ports, d, e, limit), t)
  {
    DoKeeps(app, ports, w0, d, e, limit);
    if e.Alarm? {
      Turns.TickStarves(d.ps.s, limit, t);
      hide Signals.Step;
    } else {
      GoKernel(app, ports, d, limit);
      if !Now(d.ps).Idle? { ProceedEffect(ports, d.ps, limit); hide Ports.Step; }
    }
    hide Signals.Inv;
  }

  lemma {:induction false} NeverRounds<W>(app: App<W>, ports: seq<Port>, w0: W, d: Demo<W>, t: nat, es: seq<Event>,
                                          limit: nat)
    requires t < Turns.BUSY && Starved(app, ports, w0, d, t) && ValidEvents(app, ports, d, es, limit)
    ensures Played(app, ports, d, es, limit).round == 0
    decreases |es|
  {
    hide Do;
    hide Good;
    if es != [] {
      StaysStarved(app, ports, w0, d, t, es[0], limit);
      NeverRounds(app, ports, w0, Do(app, ports, d, es[0], limit), t, es[1..], limit);
    }
  }

  /** A busy task more urgent than the server or the client: no round ever ends. */
  lemma BusyStarves<W>(app: App<W>, reqBit: nat, replyBit: nat, pris: seq<int>, w0: W, es: seq<Event>, limit: nat)
    requires |pris| == 3 && !Fair(pris)
    requires ValidEvents(app, PortsOf(reqBit, replyBit), Start(PortsOf(reqBit, replyBit), pris, w0), es, limit)
    ensures Played(app, PortsOf(reqBit, replyBit), Start(PortsOf(reqBit, replyBit), pris, w0), es, limit).round == 0
  {
    var ports := PortsOf(reqBit, replyBit);
    StartGood(app, reqBit, replyBit, pris, w0);
    var t := if pris[Turns.BUSY] > pris[SERVER] then SERVER else CLIENT;
    NeverRounds(app, ports, w0, Start(ports, pris, w0), t, es, limit);
  }
}
