/**
 Message ports over Wait and Signal, for any number of tasks and ports.

 `PutMsg` is a Forbid section around the link into the queue and then a separate `Signal`;
 `WaitPort` looks at the queue with nothing held.  The invariant says why no wakeup is
 lost: a queue that is not empty while its owner sleeps on it has a sender that has linked
 its message and not yet posted the bit.
 */
module Ports {
  import opened Exec
  import opened Signals

  datatype Port = Port(owner: nat, bit: nat)

  datatype Reply = None | Some(msg: nat)

  /** The program counter of a task inside a port call; `Idle` holds what the last call returned. */
  datatype Op =
    | Idle(ret: Reply)
    | PutEnter(port: nat, msg: nat)
    | PutAdd(port: nat, msg: nat)
    | PutLeave(port: nat)
    | PutSignal(port: nat)
    | PutSignalling(port: nat)
    | AtPort(port: nat)
    | GetEnter(port: nat)
    | GetPop(port: nat)
    | GetLeave(ret: Reply)

  /** `sent` and `taken` record, per port, every message ever linked and unlinked. */
  datatype State =
    State(s: Signals.State, queues: seq<seq<nat>>, ops: seq<Op>, sent: seq<seq<nat>>, taken: seq<seq<nat>>)

  datatype Action = Preempt | Proceed | PutMsg(port: nat, msg: nat) | WaitPort(port: nat) | GetMsg(port: nat)

  /** Ports as `NewPort` makes them: an owner that exists and any bit, shared or not. */
  ghost predicate Config(ports: seq<Port>, n: nat) {
    forall p | 0 <= p < |ports| :: ports[p].owner < n
  }

  ghost predicate Wfp(ports: seq<Port>, st: State) {
    && Signals.Wfs(st.s) && |st.ops| == |st.s.calls|
    && |st.queues| == |st.sent| == |st.taken| == |ports|
    && Config(ports, |st.ops|)
  }

  ghost function Now(st: State): Op
    requires st.s.k.cur != BOOT && Signals.Wfs(st.s) && |st.ops| == |st.s.calls|
  {
    st.ops[st.s.k.cur]
  }

  /** Which kernel call goes with which program counter; only its owner waits at a port. */
  predicate Shape(ports: seq<Port>, t: nat, op: Op, c: Call) {
    match op
    case Idle(_) => c.User?
    case PutEnter(p, _) => c.User? && p < |ports|
    case PutAdd(p, _) => c == Locked(0) && p < |ports|
    case PutLeave(p) => c == Locked(0) && p < |ports|
    case PutSignal(p) => c.User? && p < |ports|
    case PutSignalling(p) =>
      p < |ports| && (c.User? || c == SignalDone(0) || Posting(c, ports[p].owner, {ports[p].bit}))
    case AtPort(p) => p < |ports| && ports[p].owner == t && (c.User? || InWait(c, {ports[p].bit}))
    case GetEnter(p) => c.User? && p < |ports|
    case GetPop(p) => c == Locked(0) && p < |ports|
    case GetLeave(_) => c == Locked(0)
  }

  ghost predicate Enabled(ports: seq<Port>, st: State, a: Action) {
    && Wfp(ports, st)
    && (!a.Preempt? ==> st.s.k.cur != BOOT && Shape(ports, st.s.k.cur, Now(st), Mine(st.s)))
    && match a
       case Preempt => true
       case Proceed => !Now(st).Idle? && (Mine(st.s).User? || Mine(st.s).Locked? || Signals.Enabled(st.s, Advance))
       case PutMsg(p, _) => Now(st).Idle? && p < |ports|
       case WaitPort(p) => Now(st).Idle? && p < |ports| && ports[p].owner == st.s.k.cur
       case GetMsg(p) => Now(st).Idle? && p < |ports|
  }

  ghost function At(st: State, s: Signals.State, op: Op): State
    requires 0 <= st.s.k.cur < |st.ops|
  {
    st.(s := s, ops := st.ops[st.s.k.cur := op])
  }

  ghost function Step(ports: seq<Port>, st: State, a: Action, limit: nat): (r: State)
    requires Enabled(ports, st, a)
    ensures Wfp(ports, r) && |r.ops| == |st.ops|
  {
    match a
    case Preempt => st.(s := Signals.Step(st.s, Signals.Tick, limit))
    case PutMsg(p, m) => At(st, st.s, PutEnter(p, m))
    case WaitPort(p) => At(st, st.s, AtPort(p))
    case GetMsg(p) => At(st, st.s, GetEnter(p))
    case Proceed =>
      if !Mine(st.s).User? && !Mine(st.s).Locked? then st.(s := Signals.Step(st.s, Advance, limit))
      else Moved(ports, st)
  }

  /** The running task's own step, outside `Wait` and `Signal`. */
  ghost function Moved(ports: seq<Port>, st: State): (r: State)
    requires Wfp(ports, st) && st.s.k.cur != BOOT && Shape(ports, st.s.k.cur, Now(st), Mine(st.s))
    requires Mine(st.s).User? || Mine(st.s).Locked?
    ensures Wfp(ports, r) && |r.ops| == |st.ops|
  {
    var s := st.s;
    match Now(st)
    case Idle(_) => st
    case PutEnter(p, m) => At(st, Signals.Step(s, Enter, 0), PutAdd(p, m))
    case PutAdd(p, m) =>
      At(st, s, PutLeave(p)).(queues := st.queues[p := st.queues[p] + [m]], sent := st.sent[p := st.sent[p] + [m]])
    case PutLeave(p) => At(st, Signals.Step(s, Leave, 0), PutSignal(p))
    case PutSignal(p) => At(st, Signals.Step(s, CallSignal(ports[p].owner, {ports[p].bit}), 0), PutSignalling(p))
    case PutSignalling(_) => At(st, s, Idle(None))
    case AtPort(p) =>
      if st.queues[p] == [] then At(st, Signals.Step(s, CallWait({ports[p].bit}), 0), AtPort(p))
      else At(st, s, Idle(Some(st.queues[p][0])))
    case GetEnter(p) => At(st, Signals.Step(s, Enter, 0), GetPop(p))
    case GetPop(p) =>
      if st.queues[p] == [] then At(st, s, GetLeave(None))
      else At(st, s, GetLeave(Some(st.queues[p][0]))).(queues := st.queues[p := st.queues[p][1..]],
                                                       taken := st.taken[p := st.taken[p] + [st.queues[p][0]]])
    case GetLeave(m) => At(st, Signals.Step(s, Leave, 0), Idle(m))
  }

  // --------------------------------------------------------------- the invariant

  /** Task `t` has linked a message into `p` and not yet posted the port's bit. */
  predicate Between(ports: seq<Port>, p: nat, op: Op, c: Call)
    requires p < |ports|
  {
    op == PutLeave(p) || op == PutSignal(p) || (op == PutSignalling(p) && Posting(c, ports[p].owner, {ports[p].bit}))
  }

  predicate Sender(ports: seq<Port>, st: State, p: nat, t: nat)
    requires p < |ports| && |st.ops| == |st.s.calls|
  {
    t < |st.ops| && Between(ports, p, st.ops[t], st.s.calls[t])
  }

  /** The owner has seen the queue empty and has not yet taken its bit. */
  predicate Asleep(op: Op, c: Call, p: nat) {
    op == AtPort(p) && (c.WaitEnter? || c.WaitTest? || c.WaitPermit? || c.WaitSpin?)
  }

  ghost predicate Announced(ports: seq<Port>, st: State, p: nat)
    requires Wfp(ports, st) && p < |ports|
  {
    ports[p].bit in st.s.k.tasks[ports[p].owner].recvd || exists t :: Sender(ports, st, p, t)
  }

  ghost predicate PortOk(ports: seq<Port>, st: State, p: nat)
    requires Wfp(ports, st) && p < |ports|
  {
    && st.sent[p] == st.taken[p] + st.queues[p]
    && (Asleep(st.ops[ports[p].owner], st.s.calls[ports[p].owner], p) && st.queues[p] != [] ==> Announced(ports, st, p))
  }

  ghost predicate Inv(ports: seq<Port>, st: State) {
    && Wfp(ports, st) && Signals.Inv(st.s)
    && (forall t | 0 <= t < |st.ops| :: Shape(ports, t, st.ops[t], st.s.calls[t]))
    && (forall p | 0 <= p < |ports| :: PortOk(ports, st, p))
  }

  lemma TickPorts(ports: seq<Port>, st: State, limit: nat)
    requires Inv(ports, st)
    ensures Inv(ports, Step(ports, st, Preempt, limit))
  {
    hide Signals.Step;
    hide Exec.Alarm;
    TickIsTick(st.s, limit);
    var r := Step(ports, st, Preempt, limit);
    forall p | 0 <= p < |ports| ensures PortOk(ports, r, p) {
      var o, b := ports[p].owner, ports[p].bit;
      assert PortOk(ports, st, p);
      BitsConserved(st.s, Signals.Tick, limit, o, b);
      forall t | Sender(ports, st, p, t) ensures Sender(ports, r, p, t) {}
    }
  }

  lemma TickIsTick(s: Signals.State, limit: nat)
    requires Signals.Inv(s)
    ensures Signals.Inv(Signals.Step(s, Signals.Tick, limit)) && Signals.Step(s, Signals.Tick, limit).calls == s.calls
  {
    TickKeeps(s, limit);
  }

  /** A kernel step of the running task inside `Wait` or `Signal`. */
  lemma AdvancePorts(ports: seq<Port>, st: State, limit: nat)
    requires Inv(ports, st) && Enabled(ports, st, Proceed) && !Mine(st.s).User? && !Mine(st.s).Locked?
    ensures Inv(ports, Step(ports, st, Proceed, limit))
  {
    var c := st.s.k.cur;
    var r := Step(ports, st, Proceed, limit);
    StepKeeps(st.s, Advance, limit);
    AdvanceShape(ports, st.s, Now(st));
    forall p | 0 <= p < |ports| ensures PortOk(ports, r, p) {
      assert PortOk(ports, st, p);
      AdvancePort(ports, st, p, limit);
    }
    forall t | 0 <= t < |r.ops| ensures Shape(ports, t, r.ops[t], r.s.calls[t]) {
      assert Shape(ports, t, st.ops[t], st.s.calls[t]);
    }
  }

  /** The new program counter of an `Advance`, without the kernel behind it. */
  lemma AdvanceShape(ports: seq<Port>, s: Signals.State, op: Op)
    requires Signals.Inv(s) && Signals.Enabled(s, Advance) && Shape(ports, s.k.cur, op, Mine(s))
    ensures var r := Signals.Step(s, Advance, 0);
      && r.k.cur == s.k.cur && |r.calls| == |s.calls|
      && (forall t | 0 <= t < |s.calls| && t != s.k.cur :: r.calls[t] == s.calls[t])
      && Shape(ports, s.k.cur, op, r.calls[s.k.cur])
  {
  }

  lemma AdvancePort(ports: seq<Port>, st: State, p: nat, limit: nat)
    requires Inv(ports, st) && Enabled(ports, st, Proceed) && !Mine(st.s).User? && !Mine(st.s).Locked?
    requires p < |ports| && PortOk(ports, st, p)
    ensures PortOk(ports, Step(ports, st, Proceed, limit), p)
  {
    var c, o, b := st.s.k.cur, ports[p].owner, ports[p].bit;
    var r := Step(ports, st, Proceed, limit);
    AdvanceShape(ports, st.s, Now(st));
    BitsConserved(st.s, Advance, limit, o, b);
    if Asleep(r.ops[o], r.s.calls[o], p) && r.queues[p] != [] {
      assert Asleep(st.ops[o], st.s.calls[o], p);
      if b !in st.s.k.tasks[o].recvd {
        var t :| Sender(ports, st, p, t);
        assert Sender(ports, r, p, t) || Posts(st.s, Advance, o, b);
      }
    }
  }

  /** The running task's own step leaves every port's books in order. */
  lemma MovedPort(ports: seq<Port>, st: State, p: nat)
    requires Inv(ports, st) && Enabled(ports, st, Proceed) && (Mine(st.s).User? || Mine(st.s).Locked?)
    requires p < |ports| && PortOk(ports, st, p)
    ensures PortOk(ports, Moved(ports, st), p)
  {
    hide Exec.Sound;
    hide Signals.Inv;
    var o, b := ports[p].owner, ports[p].bit;
    var r := Moved(ports, st);
    if Asleep(r.ops[o], r.s.calls[o], p) && r.queues[p] != [] {
      if Now(st).PutAdd? && Now(st).port == p {
        assert Sender(ports, r, p, st.s.k.cur);
      } else {
        assert Asleep(st.ops[o], st.s.calls[o], p);
        if b !in st.s.k.tasks[o].recvd {
          var t :| Sender(ports, st, p, t);
          assert Sender(ports, r, p, t);
        }
      }
    }
  }

  lemma MovedSignals(ports: seq<Port>, st: State)
    requires Inv(ports, st) && Enabled(ports, st, Proceed) && (Mine(st.s).User? || Mine(st.s).Locked?)
    ensures Signals.Inv(Moved(ports, st).s)
  {
    hide PortOk;
    var s := st.s;
    match Now(st) {
      case PutEnter(_, _) => StepKeeps(s, Enter, 0);
      case PutLeave(_) => StepKeeps(s, Leave, 0);
      case PutSignal(p) => StepKeeps(s, CallSignal(ports[p].owner, {ports[p].bit}), 0);
      case AtPort(p) => if st.queues[p] == [] { StepKeeps(s, CallWait({ports[p].bit}), 0); }
      case GetEnter(_) => StepKeeps(s, Enter, 0);
      case GetLeave(_) => StepKeeps(s, Leave, 0);
      case _ =>
    }
  }

  lemma MovedPorts(ports: seq<Port>, st: State)
    requires Inv(ports, st) && Enabled(ports, st, Proceed) && (Mine(st.s).User? || Mine(st.s).Locked?)
    ensures Inv(ports, Moved(ports, st))
  {
    var r := Moved(ports, st);
    MovedSignals(ports, st);
    forall p | 0 <= p < |ports| ensures PortOk(ports, r, p) {
      assert PortOk(ports, st, p);
      MovedPort(ports, st, p);
    }
    forall t | 0 <= t < |r.ops| ensures Shape(ports, t, r.ops[t], r.s.calls[t]) {
      assert Shape(ports, t, st.ops[t], st.s.calls[t]);
    }
  }

  lemma CallPorts(ports: seq<Port>, st: State, a: Action, limit: nat)
    requires Inv(ports, st) && Enabled(ports, st, a) && (a.PutMsg? || a.WaitPort? || a.GetMsg?)
    ensures Inv(ports, Step(ports, st, a, limit))
  {
    var r := Step(ports, st, a, limit);
    forall p | 0 <= p < |ports| ensures PortOk(ports, r, p) {
      assert PortOk(ports, st, p);
      forall t | Sender(ports, st, p, t) ensures Sender(ports, r, p, t) {}
    }
    forall t | 0 <= t < |r.ops| ensures Shape(ports, t, r.ops[t], r.s.calls[t]) {
      assert Shape(ports, t, st.ops[t], st.s.calls[t]);
    }
  }

  lemma StepKeepsPorts(ports: seq<Port>, st: State, a: Action, limit: nat)
    requires Inv(ports, st) && Enabled(ports, st, a)
    ensures Inv(ports, Step(ports, st, a, limit))
  {
    if a.Preempt? { TickPorts(ports, st, limit); }
    else if !a.Proceed? { CallPorts(ports, st, a, limit); }
    else if !Mine(st.s).User? && !Mine(st.s).Locked? { AdvancePorts(ports, st, limit); }
    else { MovedPorts(ports, st); }
  }

  ghost predicate ValidRun(ports: seq<Port>, st: State, run: seq<Action>, limit: nat)
    decreases |run|
  {
    run == [] || (Enabled(ports, st, run[0]) && ValidRun(ports, Step(ports, st, run[0], limit), run[1..], limit))
  }

  ghost function After(ports: seq<Port>, st: State, run: seq<Action>, limit: nat): State
    requires ValidRun(ports, st, run, limit)
    decreases |run|
  {
    if run == [] then st else After(ports, Step(ports, st, run[0], limit), run[1..], limit)
  }

  /** Any tasks, any ports, any traffic, any preemption: the port invariant holds throughout. */
  lemma {:induction false} RunKeepsPorts(ports: seq<Port>, st: State, run: seq<Action>, limit: nat)
    requires Inv(ports, st) && ValidRun(ports, st, run, limit)
    ensures Inv(ports, After(ports, st, run, limit))
    decreases |run|
  {
    if run != [] {
      StepKeepsPorts(ports, st, run[0], limit);
      RunKeepsPorts(ports, Step(ports, st, run[0], limit), run[1..], limit);
    }
  }

  ghost function Opened(ports: seq<Port>, k: Kernel): State {
    var none := seq(|ports|, i => []);
    State.State(Fresh(k), none, seq(|k.tasks|, i => Idle(None)), none, none)
  }

  lemma OpenedOk(ports: seq<Port>, k: Kernel)
    requires Config(ports, |k.tasks|) && Signals.Inv(Fresh(k))
    ensures Inv(ports, Opened(ports, k))
  {
  }

  // ---------------------------------------------------------------- consequences

  /** A task inside a port call can always take its next step. */
  lemma ProceedsWhenBusy(ports: seq<Port>, st: State)
    requires Inv(ports, st) && st.s.k.cur != BOOT
    ensures Shape(ports, st.s.k.cur, Now(st), Mine(st.s))
    ensures !Now(st).Idle? ==> Enabled(ports, st, Proceed)
  {
    assert Shape(ports, st.s.k.cur, st.ops[st.s.k.cur], st.s.calls[st.s.k.cur]);
    assert SignalsInside(st.s.calls[st.s.k.cur], |st.s.calls|);
  }

  /** The owner of `p` is blocked in `WaitPort(p)`. */
  ghost predicate BlockedAt(ports: seq<Port>, st: State, p: nat)
    requires Wfp(ports, st) && p < |ports|
  {
    st.s.k.tasks[ports[p].owner].state == Wait && st.ops[ports[p].owner] == AtPort(p)
  }

  /** A message waiting for a blocked owner always has its wakeup still to come. */
  lemma NoLostWakeup(ports: seq<Port>, st: State, p: nat)
    requires Inv(ports, st) && p < |ports| && st.queues[p] != [] && BlockedAt(ports, st, p)
    ensures exists t :: Sender(ports, st, p, t)
  {
    var o := ports[p].owner;
    assert TaskOk(st.s.k.tasks[o], st.s.calls[o]) && Shape(ports, o, st.ops[o], st.s.calls[o]);
    assert PortOk(ports, st, p);
    var b, task := ports[p].bit, st.s.k.tasks[o];
    assert b in task.sigWait && b !in task.recvd * task.sigWait;
  }

  /** No other port of the same owner has this port's bit. */
  ghost predicate OwnBit(ports: seq<Port>, p: nat)
    requires p < |ports|
  {
    forall q | 0 <= q < |ports| && q != p :: ports[q] != ports[p]
  }

  /** The kernel alone tells where a task sleeps: on the bit of a port that shares it with no other. */
  lemma BitTellsPort(ports: seq<Port>, st: State, p: nat)
    requires Inv(ports, st) && p < |ports| && OwnBit(ports, p)
    ensures var o := st.s.k.tasks[ports[p].owner];
      BlockedAt(ports, st, p) <==> o.state == Wait && ports[p].bit in o.sigWait
  {
    var o := ports[p].owner;
    assert TaskOk(st.s.k.tasks[o], st.s.calls[o]) && Shape(ports, o, st.ops[o], st.s.calls[o]);
    if st.s.k.tasks[o].state == Wait && ports[p].bit in st.s.k.tasks[o].sigWait {
      assert ports[st.ops[o].port] == ports[p];
    }
  }

  // ------------------------------------------------------- what WaitPort promises

  /** A run cut at `i`. */
  lemma {:induction false} RunCut(ports: seq<Port>, st: State, run: seq<Action>, limit: nat, i: nat)
    requires ValidRun(ports, st, run, limit) && i <= |run|
    ensures ValidRun(ports, st, run[..i], limit) && ValidRun(ports, After(ports, st, run[..i], limit), run[i..], limit)
    ensures After(ports, After(ports, st, run[..i], limit), run[i..], limit) == After(ports, st, run, limit)
    decreases i
  {
    hide Step;
    if i > 0 {
      RunCut(ports, Step(ports, st, run[0], limit), run[1..], limit, i - 1);
      assert run[..i][1..] == run[1..][..i - 1] && run[1..][i - 1..] == run[i..];
    } else {
      assert run[..0] == [] && run[0..] == run;
    }
  }

  /** Books only grow: nothing is unsent or untaken, and only a `GetMsg` past its Forbid takes. */
  lemma StepBooks(ports: seq<Port>, st: State, a: Action, limit: nat, p: nat)
    requires Enabled(ports, st, a) && p < |ports|
    ensures var r := Step(ports, st, a, limit);
      && st.sent[p] <= r.sent[p] && st.taken[p] <= r.taken[p]
      && (r.taken[p] != st.taken[p] ==> a.Proceed? && Now(st) == GetPop(p))
  {
    hide Signals.Step;
  }

  lemma {:induction false} RunBooks(ports: seq<Port>, st: State, run: seq<Action>, limit: nat, p: nat)
    requires ValidRun(ports, st, run, limit) && p < |ports|
    requires Wfp(ports, st)
    ensures var r := After(ports, st, run, limit); Wfp(ports, r) && st.sent[p] <= r.sent[p] && st.taken[p] <= r.taken[p]
    decreases |run|
  {
    hide Step;
    if run != [] {
      StepBooks(ports, st, run[0], limit, p);
      RunBooks(ports, Step(ports, st, run[0], limit), run[1..], limit, p);
    }
  }

  /** While nobody takes from the port, its head stays its head. */
  lemma HeadStays(ports: seq<Port>, st: State, run: seq<Action>, limit: nat, p: nat)
    requires Inv(ports, st) && ValidRun(ports, st, run, limit) && p < |ports| && st.queues[p] != []
    requires var r := After(ports, st, run, limit); Wfp(ports, r) && r.taken[p] == st.taken[p]
    ensures var r := After(ports, st, run, limit); r.queues[p] != [] && r.queues[p][0] == st.queues[p][0]
  {
    var r := After(ports, st, run, limit);
    RunBooks(ports, st, run, limit, p);
    RunKeepsPorts(ports, st, run, limit);
    assert PortOk(ports, st, p) && PortOk(ports, r, p);
    var n := |st.taken[p]|;
    assert st.sent[p][n] == st.queues[p][0] && r.sent[p][n] == st.sent[p][n];
  }

  /** One step of a task in `WaitPort`: it stays, or its queue has a message and it returns the first. */
  lemma LeavesWithHead(ports: seq<Port>, st: State, a: Action, limit: nat, p: nat)
    requires Inv(ports, st) && Enabled(ports, st, a) && p < |ports| && st.ops[ports[p].owner] == AtPort(p)
    ensures var o, r := ports[p].owner, Step(ports, st, a, limit);
      r.ops[o] == AtPort(p) ||
      (st.queues[p] != [] && r.queues == st.queues && r.taken == st.taken && r.ops[o] == Idle(Some(st.queues[p][0])))
  {
    hide Signals.Step;
    hide Signals.Inv;
  }

  /**
   Over every run, whatever bits are pending: `WaitPort` returns at a step whose queue is not
   empty, with the head of the queue, and that message stays the head until someone takes it.
   */
  lemma {:induction false} WaitPortReturns(ports: seq<Port>, st: State, run: seq<Action>, limit: nat, p: nat)
    returns (i: nat)
    requires Inv(ports, st) && ValidRun(ports, st, run, limit) && p < |ports| && st.ops[ports[p].owner] == AtPort(p)
    requires var r := After(ports, st, run, limit); Wfp(ports, r) && r.ops[ports[p].owner] != AtPort(p)
    ensures i < |run| && ReturnsAt(ports, st, run, limit, p, i)
    decreases |run|
  {
    hide Step;
    var o := ports[p].owner;
    if run != [] {
      var next := Step(ports, st, run[0], limit);
      LeavesWithHead(ports, st, run[0], limit, p);
      StepKeepsPorts(ports, st, run[0], limit);
      if next.ops[o] == AtPort(p) {
        var k := WaitPortReturns(ports, next, run[1..], limit, p);
        i := k + 1;
        assert run[..i][1..] == run[1..][..k] && run[1..][k] == run[i];
        LaterReturn(ports, st, run, limit, p, k);
      } else {
        i := 0;
        if After(ports, st, run, limit).taken[p] == next.taken[p] { HeadStays(ports, next, run[1..], limit, p); }
        assert run[..0] == [];
      }
    }
  }

  /** At step `i` of the run the owner leaves `WaitPort` with the head, which then stays while `taken` does. */
  ghost predicate ReturnsAt(ports: seq<Port>, st: State, run: seq<Action>, limit: nat, p: nat, i: nat)
    requires Inv(ports, st) && ValidRun(ports, st, run, limit) && p < |ports| && i < |run|
  {
    && ValidRun(ports, st, run[..i], limit)
    && (var a, z := After(ports, st, run[..i], limit), After(ports, st, run, limit);
        && Inv(ports, a) && Wfp(ports, z) && Enabled(ports, a, run[i])
        && (var b := Step(ports, a, run[i], limit);
            && a.ops[ports[p].owner] == AtPort(p) && a.queues[p] != []
            && b.ops[ports[p].owner] == Idle(Some(a.queues[p][0])) && b.queues[p] == a.queues[p]
            && (z.taken[p] == b.taken[p] ==> z.queues[p] != [] && z.queues[p][0] == a.queues[p][0])))
  }

  lemma LaterReturn(ports: seq<Port>, st: State, run: seq<Action>, limit: nat, p: nat, k: nat)
    requires Inv(ports, st) && ValidRun(ports, st, run, limit) && p < |ports| && run != [] && k < |run| - 1
    requires Inv(ports, Step(ports, st, run[0], limit))
    requires ReturnsAt(ports, Step(ports, st, run[0], limit), run[1..], limit, p, k)
    ensures ReturnsAt(ports, st, run, limit, p, k + 1)
  {
    hide Step;
    hide Inv;
    var head := run[..k + 1];
    assert head[1..] == run[1..][..k] && run[1..][k] == run[k + 1] && head[0] == run[0];
    assert After(ports, st, head, limit) == After(ports, Step(ports, st, run[0], limit), run[1..][..k], limit);
  }

  /** Leaving `WaitPort` on a queue that was empty takes a message linked meanwhile. */
  lemma ReturnNeedsMessage(ports: seq<Port>, st: State, run: seq<Action>, limit: nat, p: nat)
    requires Inv(ports, st) && ValidRun(ports, st, run, limit) && p < |ports|
    requires st.ops[ports[p].owner] == AtPort(p) && st.queues[p] == []
    requires var r := After(ports, st, run, limit); Wfp(ports, r) && r.ops[ports[p].owner] != AtPort(p)
    ensures |After(ports, st, run, limit).sent[p]| > |st.sent[p]|
  {
    var i := WaitPortReturns(ports, st, run, limit, p);
    var a := After(ports, st, run[..i], limit);
    RunCut(ports, st, run, limit, i);
    RunBooks(ports, st, run[..i], limit, p);
    RunBooks(ports, a, run[i..], limit, p);
    assert PortOk(ports, st, p) && PortOk(ports, a, p);
  }

  /** A stale bit gets nobody out: as long as nothing is linked into the empty queue, the owner stays in `WaitPort`. */
  lemma StaleBitRechecks(ports: seq<Port>, st: State, run: seq<Action>, limit: nat, p: nat)
    requires Inv(ports, st) && ValidRun(ports, st, run, limit) && p < |ports|
    requires st.ops[ports[p].owner] == AtPort(p) && st.queues[p] == []
    requires var r := After(ports, st, run, limit); Wfp(ports, r) && r.sent[p] == st.sent[p]
    ensures After(ports, st, run, limit).ops[ports[p].owner] == AtPort(p)
  {
    if After(ports, st, run, limit).ops[ports[p].owner] != AtPort(p) {
      ReturnNeedsMessage(ports, st, run, limit, p);
    }
  }

  // ------------------------------------------------- what PutMsg and GetMsg promise

  /** One step of a task in `PutMsg(p, m)`, not yet past the link: it stays, moves on, or links exactly `m`. */
  lemma PutStep(ports: seq<Port>, st: State, a: Action, limit: nat, t: nat, p: nat, m: nat)
    requires Enabled(ports, st, a) && t < |st.ops| && p < |ports|
    requires st.ops[t] == PutEnter(p, m) || st.ops[t] == PutAdd(p, m)
    ensures var r := Step(ports, st, a, limit);
      || r.ops[t] == PutEnter(p, m) || r.ops[t] == PutAdd(p, m)
      || (r.ops[t] == PutLeave(p) && r.queues == st.queues[p := st.queues[p] + [m]]
          && r.sent == st.sent[p := st.sent[p] + [m]] && r.taken == st.taken)
  {
    hide Signals.Step;
  }

  /**
   One step of a task in `GetMsg(p)`, not yet past the look: it stays, moves on, or takes the
   head, if there is one.
   */
  lemma GetStep(ports: seq<Port>, st: State, a: Action, limit: nat, t: nat, p: nat)
    requires Enabled(ports, st, a) && t < |st.ops| && p < |ports|
    requires st.ops[t] == GetEnter(p) || st.ops[t] == GetPop(p)
    ensures var r := Step(ports, st, a, limit);
      || r.ops[t] == GetEnter(p) || r.ops[t] == GetPop(p)
      || (st.queues[p] == [] && r.ops[t] == GetLeave(None)
          && r.queues == st.queues && r.sent == st.sent && r.taken == st.taken)
      || (st.queues[p] != [] && r.ops[t] == GetLeave(Some(st.queues[p][0]))
          && r.queues == st.queues[p := st.queues[p][1..]] && r.sent == st.sent
          && r.taken == st.taken[p := st.taken[p] + [st.queues[p][0]]])
  {
    hide Signals.Step;
  }

  /** What `GetMsg` has found is what it returns. */
  lemma ReturnStep(ports: seq<Port>, st: State, a: Action, limit: nat, t: nat, found: Reply)
    requires Enabled(ports, st, a) && t < |st.ops| && st.ops[t] == GetLeave(found)
    ensures Step(ports, st, a, limit).ops[t] == GetLeave(found) || Step(ports, st, a, limit).ops[t] == Idle(found)
  {
    hide Signals.Step;
  }

  /** The state before step `i` of a run. */
  ghost predicate Before(ports: seq<Port>, st: State, run: seq<Action>, limit: nat, i: nat, a: State) {
    && i < |run| && ValidRun(ports, st, run[..i], limit) && After(ports, st, run[..i], limit) == a
    && Enabled(ports, a, run[i])
  }

  lemma BeforeFirst(ports: seq<Port>, st: State, run: seq<Action>, limit: nat)
    requires run != [] && Enabled(ports, st, run[0])
    ensures Before(ports, st, run, limit, 0, st)
  {
    assert run[..0] == [];
  }

  lemma BeforeLater(ports: seq<Port>, st: State, run: seq<Action>, limit: nat, i: nat, a: State)
    requires run != [] && Enabled(ports, st, run[0])
    requires Before(ports, Step(ports, st, run[0], limit), run[1..], limit, i, a)
    ensures Before(ports, st, run, limit, i + 1, a)
  {
    hide Step;
    hide Enabled;
    assert run[..i + 1][1..] == run[1..][..i] && run[..i + 1][0] == run[0] && run[1..][i] == run[i + 1];
  }

  /** Over every run: a `PutMsg(p, m)` that gets past its link has appended exactly `m` to the queue of `p`, once. */
  lemma {:induction false} PutMsgLinks(ports: seq<Port>, st: State, run: seq<Action>, limit: nat, t: nat, p: nat,
                                       m: nat)
    returns (i: nat, a: State)
    requires ValidRun(ports, st, run, limit) && t < |st.ops| && p < |ports| && Wfp(ports, st)
    requires st.ops[t] == PutEnter(p, m) || st.ops[t] == PutAdd(p, m)
    requires var z := After(ports, st, run, limit);
      |z.ops| == |st.ops| && z.ops[t] != PutEnter(p, m) && z.ops[t] != PutAdd(p, m)
    ensures Before(ports, st, run, limit, i, a)
    ensures var b := Step(ports, a, run[i], limit);
      && t < |a.ops| && a.ops[t] == PutAdd(p, m) && t < |b.ops| && b.ops[t] == PutLeave(p)
      && b.queues == a.queues[p := a.queues[p] + [m]] && b.sent == a.sent[p := a.sent[p] + [m]]
    decreases |run|
  {
    var next := Step(ports, st, run[0], limit);
    PutStep(ports, st, run[0], limit, t, p, m);
    if next.ops[t] == PutLeave(p) {
      BeforeFirst(ports, st, run, limit);
      i, a := 0, st;
      EnterFirst(ports, st, run[0], limit, t, p, m);
    } else {
      var j;
      j, a := PutMsgLinks(ports, next, run[1..], limit, t, p, m);
      BeforeLater(ports, st, run, limit, j, a);
      i := j + 1;
    }
  }

  lemma EnterFirst(ports: seq<Port>, st: State, a: Action, limit: nat, t: nat, p: nat, m: nat)
    requires Enabled(ports, st, a) && t < |st.ops| && p < |ports|
    ensures st.ops[t] == PutEnter(p, m) ==> Step(ports, st, a, limit).ops[t] != PutLeave(p)
  {
    hide Signals.Step;
  }

  /** Over every run: a `GetMsg(p)` that gets past its look has taken the head of the queue, or found it empty. */
  lemma {:induction false} GetMsgTakes(ports: seq<Port>, st: State, run: seq<Action>, limit: nat, t: nat, p: nat)
    returns (i: nat, a: State)
    requires ValidRun(ports, st, run, limit) && t < |st.ops| && p < |ports| && Wfp(ports, st)
    requires st.ops[t] == GetEnter(p) || st.ops[t] == GetPop(p)
    requires var z := After(ports, st, run, limit);
      |z.ops| == |st.ops| && z.ops[t] != GetEnter(p) && z.ops[t] != GetPop(p)
    ensures Before(ports, st, run, limit, i, a)
    ensures var b := Step(ports, a, run[i], limit);
      && t < |b.ops| && p < |a.queues|
      && (if a.queues[p] == [] then b.ops[t] == GetLeave(None) && b.queues == a.queues && b.taken == a.taken
          else b.ops[t] == GetLeave(Some(a.queues[p][0])) && b.queues == a.queues[p := a.queues[p][1..]]
               && b.taken == a.taken[p := a.taken[p] + [a.queues[p][0]]])
    decreases |run|
  {
    var next := Step(ports, st, run[0], limit);
    GetStep(ports, st, run[0], limit, t, p);
    if next.ops[t].GetLeave? {
      BeforeFirst(ports, st, run, limit);
      i, a := 0, st;
    } else {
      var j;
      j, a := GetMsgTakes(ports, next, run[1..], limit, t, p);
      BeforeLater(ports, st, run, limit, j, a);
      i := j + 1;
    }
  }

  /** First in, first out, nothing lost and nothing invented, at every port. */
  lemma Fifo(ports: seq<Port>, k: Kernel, run: seq<Action>, limit: nat, p: nat)
    requires Config(ports, |k.tasks|) && Signals.Inv(Fresh(k))
    requires ValidRun(ports, Opened(ports, k), run, limit) && p < |ports|
    ensures var st := After(ports, Opened(ports, k), run, limit);
      |st.sent| == |st.taken| == |st.queues| == |ports| && st.sent[p] == st.taken[p] + st.queues[p]
  {
    OpenedOk(ports, k);
    RunKeepsPorts(ports, Opened(ports, k), run, limit);
    assert PortOk(ports, After(ports, Opened(ports, k), run, limit), p);
  }
}
