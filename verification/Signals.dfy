/**
 Wait and Signal as a state machine over preemptible steps.

 Each task carries a program counter inside `Wait`, `Signal` or a Forbid section; a step
 is a timer tick or one step of the running task.  Any program may run on top: `CallWait`,
 `CallSignal`, `Enter` and `Leave` are the calls it may make, and it may nest `Enter` and
 signal inside it.  `RunKeeps` is the invariant over every schedule, and the lemmas after it
 are what the callers rely on.
 */
module Signals {
  import opened Exec

  /** `more` counts the Forbids around the innermost one, `outer` those around a `Signal`. */
  datatype Call =
    | User(got: set<nat>)
    | Locked(more: nat)
    | WaitEnter(mask: set<nat>)
    | WaitTest(mask: set<nat>)
    | WaitPermit(mask: set<nat>)
    | WaitSpin(mask: set<nat>)
    | WaitAgain(mask: set<nat>)
    | WaitTake(mask: set<nat>)
    | WaitDone(mask: set<nat>, got: set<nat>)
    | SignalEnter(target: nat, bits: set<nat>, outer: nat)
    | SignalPost(target: nat, bits: set<nat>, outer: nat)
    | SignalDone(outer: nat)

  /** How many Forbids a task at this program counter has not yet permitted. */
  function Depth(c: Call): nat {
    match c
    case User(_) => 0
    case Locked(more) => more + 1
    case WaitEnter(_) => 0
    case WaitSpin(_) => 0
    case WaitAgain(_) => 0
    case SignalEnter(_, _, outer) => outer
    case SignalPost(_, _, outer) => outer + 1
    case SignalDone(outer) => outer + 1
    case _ => 1
  }

  /** Back in the program, inside `n` Forbids. */
  function Within(n: nat): (c: Call)
    ensures Depth(c) == n
  {
    if n == 0 then User({}) else Locked(n - 1)
  }

  /** Inside `Wait(mask)`. */
  predicate InWait(c: Call, mask: set<nat>) {
    && (c.WaitEnter? || c.WaitTest? || c.WaitPermit? || c.WaitSpin? || c.WaitAgain? || c.WaitTake? || c.WaitDone?)
    && c.mask == mask
  }

  /** Inside `Signal(target, bits)` called outside any Forbid, the bits not yet posted. */
  predicate Posting(c: Call, target: nat, bits: set<nat>) {
    (c.SignalEnter? || c.SignalPost?) && c.target == target && c.bits == bits && c.outer == 0
  }

  datatype State = State(k: Kernel, calls: seq<Call>)

  datatype Action =
    | Tick
    | Advance
    | CallWait(mask: set<nat>)
    | CallSignal(target: nat, bits: set<nat>)
    | Enter
    | Leave

  ghost predicate Wfs(s: State) {
    Wf(s.k) && |s.calls| == |s.k.tasks|
  }

  ghost function Mine(s: State): Call
    requires Wfs(s) && s.k.cur != BOOT
  {
    s.calls[s.k.cur]
  }

  ghost predicate Enabled(s: State, a: Action) {
    Wfs(s) &&
    match a
    case Tick => true
    case Advance => s.k.cur != BOOT && !Mine(s).User? && !Mine(s).Locked?
        && (Mine(s).SignalPost? ==> Mine(s).target < |s.k.tasks|)
    case CallWait(_) => s.k.cur != BOOT && Mine(s).User?
    case CallSignal(t, _) => s.k.cur != BOOT && (Mine(s).User? || Mine(s).Locked?) && t < |s.k.tasks|
    case Enter => s.k.cur != BOOT && (Mine(s).User? || Mine(s).Locked?)
    case Leave => s.k.cur != BOOT && Mine(s).Locked?
  }

  ghost function To(s: State, k: Kernel, c: Call): State
    requires Wfs(s) && s.k.cur != BOOT
  {
    State(k, s.calls[s.k.cur := c])
  }

  function Forbidden(k: Kernel): Kernel { k.(forbid := k.forbid + 1) }

  function Permitted(k: Kernel): Kernel { if k.forbid > 0 then k.(forbid := k.forbid - 1) else k }

  /** `rcvd = tc_SigRecvd & sigset; tc_SigRecvd &= ~sigset`. */
  function Take(k: Kernel, mask: set<nat>): Kernel
    requires 0 <= k.cur < |k.tasks|
  {
    k.(tasks := k.tasks[k.cur := k.tasks[k.cur].(recvd := k.tasks[k.cur].recvd - mask)])
  }

  ghost function Step(s: State, a: Action, limit: nat): (r: State)
    requires Enabled(s, a)
    ensures Wfs(r) && |r.calls| == |s.calls|
  {
    match a
    case Tick => AlarmSize(s.k, limit); State(Alarm(s.k, limit, true), s.calls)
    case Advance => Advanced(s)
    case CallWait(m) => To(s, s.k, WaitEnter(m))
    case CallSignal(t, b) => To(s, s.k, SignalEnter(t, b, Depth(Mine(s))))
    case Enter => To(s, Forbidden(s.k), Locked(Depth(Mine(s))))
    case Leave => To(s, Permitted(s.k), Within(Mine(s).more))
  }

  lemma AlarmSize(k: Kernel, limit: nat)
    requires Wf(k)
    ensures |Alarm(k, limit, true).tasks| == |k.tasks|
  {
  }

  /** One step of the running task inside `Wait` or `Signal`. */
  ghost function Advanced(s: State): (r: State)
    requires Enabled(s, Advance)
    ensures Wfs(r) && |r.calls| == |s.calls|
  {
    var me := s.k.tasks[s.k.cur];
    match Mine(s)
    case WaitEnter(m) => To(s, Forbidden(s.k), WaitTest(m))
    case WaitTest(m) => if me.recvd * m == {} then To(s, Block(s.k, m), WaitPermit(m)) else To(s, s.k, WaitTake(m))
    case WaitPermit(m) => To(s, Permitted(s.k), WaitSpin(m))
    case WaitSpin(m) => if me.state == Wait then s else To(s, s.k, WaitAgain(m))
    case WaitAgain(m) => To(s, Forbidden(s.k), WaitTake(m))
    case WaitTake(m) => To(s, Take(s.k, m), WaitDone(m, me.recvd * m))
    case WaitDone(_, got) => To(s, Permitted(s.k), User(got))
    case SignalEnter(t, b, n) => To(s, Forbidden(s.k), SignalPost(t, b, n))
    case SignalPost(t, b, n) => To(s, Post(s.k, t, b), SignalDone(n))
    case SignalDone(n) => To(s, Permitted(s.k), Within(n))
    case _ => s
  }

  // --------------------------------------------------------------- the invariant

  ghost predicate TaskOk(t: Task, c: Call) {
    && (t.state == Wait ==> (c.WaitPermit? || c.WaitSpin?) && c.mask == t.sigWait && t.recvd * t.sigWait == {})
    && (c.WaitPermit? ==> t.state == Wait)
    && (c.WaitAgain? || c.WaitTake? || (c.WaitSpin? && t.state != Wait) ==> t.recvd * c.mask != {})
    && (c.WaitDone? ==> c.got != {} && c.got <= c.mask && t.recvd * c.mask == {})
  }

  ghost predicate SignalsInside(c: Call, n: nat) {
    c.SignalEnter? || c.SignalPost? ==> c.target < n
  }

  ghost predicate Inv(s: State) {
    && Wfs(s) && Sound(s.k)
    && (s.k.on || s.k.cur == BOOT)
    && (forall t | 0 <= t < |s.calls| :: TaskOk(s.k.tasks[t], s.calls[t]) && SignalsInside(s.calls[t], |s.calls|))
    && (forall t | 0 <= t < |s.calls| :: Depth(s.calls[t]) > 0 ==> t == s.k.cur)
    && s.k.forbid == if s.k.cur != BOOT then Depth(Mine(s)) else 0
  }

  lemma CurRuns(s: State)
    requires Inv(s) && s.k.cur != BOOT && !Mine(s).WaitPermit? && !Mine(s).WaitSpin?
    ensures s.k.tasks[s.k.cur].state == Run
  {
    assert TaskOk(s.k.tasks[s.k.cur], s.calls[s.k.cur]);
  }

  /** `Sound` does not look at `forbid`. */
  lemma SoundForbid(k: Kernel, n: nat)
    requires Sound(k)
    ensures Sound(k.(forbid := n))
  {
    SameLists(k, k.(forbid := n));
  }

  lemma TickKeeps(s: State, limit: nat)
    requires Inv(s)
    ensures Inv(Step(s, Tick, limit))
  {
    AlarmKeeps(s.k, limit);
    var r := Alarm(s.k, limit, true);
    forall t | 0 <= t < |s.calls| ensures TaskOk(r.tasks[t], s.calls[t]) {
      assert TaskOk(s.k.tasks[t], s.calls[t]) && OnlyRuns(s.k.tasks[t], r.tasks[t]);
    }
  }

  /** A step that moves only the caller's program counter and the forbid count. */
  lemma OnlyCallKeeps(s: State, c: Call)
    requires Inv(s) && s.k.cur != BOOT
    requires TaskOk(s.k.tasks[s.k.cur], c) && SignalsInside(c, |s.calls|)
    ensures Inv(To(s, s.k.(forbid := Depth(c)), c))
  {
    var k := s.k.(forbid := Depth(c));
    SoundForbid(s.k, Depth(c));
    assert forall t | 0 <= t < |s.calls| && t != s.k.cur :: To(s, k, c).calls[t] == s.calls[t];
  }

  lemma BlockStep(s: State)
    requires Inv(s) && s.k.cur != BOOT && Mine(s).WaitTest? && s.k.tasks[s.k.cur].recvd * Mine(s).mask == {}
    ensures Inv(Step(s, Advance, 0))
  {
    CurRuns(s);
    BlockKeeps(s.k, Mine(s).mask);
    var r := Advanced(s);
    forall t | 0 <= t < |s.calls| ensures TaskOk(r.k.tasks[t], r.calls[t]) {
      assert TaskOk(s.k.tasks[t], s.calls[t]);
    }
  }

  lemma TakeStep(s: State)
    requires Inv(s) && s.k.cur != BOOT && Mine(s).WaitTake?
    ensures Inv(Step(s, Advance, 0))
  {
    var r := Advanced(s);
    assert TaskOk(s.k.tasks[s.k.cur], s.calls[s.k.cur]);
    SameOrder(s.k.tasks, r.k.tasks, s.k.ready);
    forall t | 0 <= t < |s.calls| ensures Listed(r.k, t) { assert Listed(s.k, t); }
  }

  function Posted(t: Task, bits: set<nat>): Task {
    t.(recvd := t.recvd + bits, state := if Wakes(t, bits) then Ready else t.state)
  }

  lemma PostedOk(t: Task, c: Call, bits: set<nat>)
    requires TaskOk(t, c) && !c.WaitPermit? && !c.WaitDone?
    ensures TaskOk(Posted(t, bits), c)
  {
    assert c.WaitAgain? || c.WaitTake? || c.WaitSpin? ==> t.recvd * c.mask <= (t.recvd + bits) * c.mask;
  }

  lemma PostStep(s: State)
    requires Inv(s) && s.k.cur != BOOT && Mine(s).SignalPost?
    ensures Inv(Step(s, Advance, 0))
  {
    CurRuns(s);
    var target, bits := Mine(s).target, Mine(s).bits;
    assert SignalsInside(s.calls[s.k.cur], |s.calls|);
    var r := Advanced(s);
    PostKeeps(s.k, target, bits);
    assert r.k.tasks == s.k.tasks[target := Posted(s.k.tasks[target], bits)];
    forall t | 0 <= t < |s.calls| ensures TaskOk(r.k.tasks[t], r.calls[t]) {
      assert TaskOk(s.k.tasks[t], s.calls[t]);
      if t == target && t != s.k.cur { PostedOk(s.k.tasks[t], s.calls[t], bits); }
    }
  }

  lemma AdvanceKeeps(s: State)
    requires Inv(s) && Enabled(s, Advance)
    ensures Inv(Step(s, Advance, 0))
  {
    hide Exec.Sound;
    hide Exec.Block;
    hide Exec.Post;
    var c, me := Mine(s), s.k.tasks[s.k.cur];
    assert TaskOk(me, s.calls[s.k.cur]) && SignalsInside(s.calls[s.k.cur], |s.calls|);
    match c {
      case WaitEnter(m) => OnlyCallKeeps(s, WaitTest(m));
      case WaitTest(m) => if me.recvd * m == {} { BlockStep(s); } else { OnlyCallKeeps(s, WaitTake(m)); }
      case WaitPermit(m) => OnlyCallKeeps(s, WaitSpin(m));
      case WaitSpin(m) => if me.state != Wait { OnlyCallKeeps(s, WaitAgain(m)); }
      case WaitAgain(m) => OnlyCallKeeps(s, WaitTake(m));
      case WaitTake(_) => TakeStep(s);
      case WaitDone(_, got) => OnlyCallKeeps(s, User(got));
      case SignalEnter(t, b, n) => OnlyCallKeeps(s, SignalPost(t, b, n));
      case SignalPost(_, _, _) => PostStep(s);
      case SignalDone(n) => OnlyCallKeeps(s, Within(n));
    }
  }

  lemma StepKeeps(s: State, a: Action, limit: nat)
    requires Inv(s) && Enabled(s, a)
    ensures Inv(Step(s, a, limit))
  {
    match a {
      case Tick => TickKeeps(s, limit);
      case Advance => AdvanceKeeps(s);
      case CallWait(m) => CurRuns(s); OnlyCallKeeps(s, WaitEnter(m));
      case CallSignal(t, b) => CurRuns(s); OnlyCallKeeps(s, SignalEnter(t, b, Depth(Mine(s))));
      case Enter => CurRuns(s); OnlyCallKeeps(s, Locked(Depth(Mine(s))));
      case Leave => CurRuns(s); OnlyCallKeeps(s, Within(Mine(s).more));
    }
  }

  ghost predicate ValidRun(s: State, run: seq<Action>, limit: nat)
    decreases |run|
  {
    run == [] || (Enabled(s, run[0]) && ValidRun(Step(s, run[0], limit), run[1..], limit))
  }

  ghost function After(s: State, run: seq<Action>, limit: nat): State
    requires ValidRun(s, run, limit)
    decreases |run|
  {
    if run == [] then s else After(Step(s, run[0], limit), run[1..], limit)
  }

  /** Under every schedule and whatever programs call, the invariant holds. */
  lemma {:induction false} RunKeeps(s: State, run: seq<Action>, limit: nat)
    requires Inv(s) && ValidRun(s, run, limit)
    ensures Inv(After(s, run, limit)) && |After(s, run, limit).calls| == |s.calls|
    decreases |run|
  {
    if run != [] {
      StepKeeps(s, run[0], limit);
      RunKeeps(Step(s, run[0], limit), run[1..], limit);
    }
  }

  ghost function Fresh(k: Kernel): State {
    State(k, seq(|k.tasks|, i => User({})))
  }

  lemma FreshOk(k: Kernel)
    requires Sound(k) && k.on && k.cur == BOOT && k.forbid == 0
    requires forall t | 0 <= t < |k.tasks| :: k.tasks[t].state == Ready
    ensures Inv(Fresh(k))
  {
  }

  /** Where an `Advance` takes the program counters, without the kernel behind it. */
  lemma AdvanceEffect(s: State, limit: nat)
    requires Enabled(s, Advance)
    ensures var r, me := Step(s, Advance, limit), s.k.tasks[s.k.cur];
      && r.k.cur == s.k.cur && |r.calls| == |s.calls|
      && r.k.on == s.k.on && r.k.inited == s.k.inited && r.k.ticks == s.k.ticks
      && (forall t | 0 <= t < |s.calls| && t != s.k.cur :: r.calls[t] == s.calls[t])
      && (forall t | 0 <= t < |s.calls| :: r.k.tasks[t].pri == s.k.tasks[t].pri)
      && match Mine(s)
         case WaitEnter(m) => Mine(r) == WaitTest(m)
         case WaitTest(m) => Mine(r) == if me.recvd * m == {} then WaitPermit(m) else WaitTake(m)
         case WaitPermit(m) => Mine(r) == WaitSpin(m)
         case WaitSpin(m) => Mine(r) == if me.state == Wait then WaitSpin(m) else WaitAgain(m)
         case WaitAgain(m) => Mine(r) == WaitTake(m)
         case WaitTake(m) => Mine(r) == WaitDone(m, me.recvd * m)
         case WaitDone(_, got) => Mine(r) == User(got)
         case SignalEnter(t, b, n) => Mine(r) == SignalPost(t, b, n)
         case SignalPost(_, _, n) => Mine(r) == SignalDone(n)
         case SignalDone(n) => Mine(r) == Within(n)
         case _ => true
  {
  }

  // ------------------------------------------------------------ what callers see

  /** At count 0 each worker is current, on TaskReady or on TaskWait, exactly as its state says. */
  lemma EachWhereItsStateSays(s: State, t: nat)
    requires Inv(s) && s.k.on && t < |s.calls|
    ensures match s.k.tasks[t].state
      case Run => t == s.k.cur && t !in s.k.ready && t !in s.k.waiting
      case Ready => t != s.k.cur && t in s.k.ready && t !in s.k.waiting
      case Wait => t !in s.k.ready && t in s.k.waiting
    ensures s.k.tasks[t].state == Wait ==> s.k.tasks[t].recvd * s.k.tasks[t].sigWait == {}
    ensures t == s.k.cur ==> s.k.tasks[t].state != Ready
  {
    assert Listed(s.k, t) && TaskOk(s.k.tasks[t], s.calls[t]);
  }

  /** `Wait` returns the pending bits of its mask, at least one, and clears those and no others. */
  lemma WaitReturns(s: State)
    requires Inv(s) && s.k.cur != BOOT && Mine(s).WaitTake?
    ensures var c, r := s.k.cur, Step(s, Advance, 0);
      var got := s.k.tasks[c].recvd * Mine(s).mask;
      && got != {} && r.calls[c] == WaitDone(Mine(s).mask, got)
      && r.k.tasks[c].recvd == s.k.tasks[c].recvd - got
      && Step(r, Advance, 0).calls[c] == User(got)
      && forall t | 0 <= t < |s.calls| && t != c :: r.k.tasks[t] == s.k.tasks[t]
  {
    assert TaskOk(s.k.tasks[s.k.cur], s.calls[s.k.cur]);
  }

  /** The one step that consumes bit `b` of task `t`: its own `Wait` for a mask holding `b`. */
  ghost predicate Consumes(s: State, a: Action, t: nat, b: nat) {
    Enabled(s, a) && a.Advance? && s.k.cur == t && Mine(s).WaitTake? && b in Mine(s).mask
  }

  /** The step that posts bit `b` to task `t`. */
  ghost predicate Posts(s: State, a: Action, t: nat, b: nat) {
    Enabled(s, a) && a.Advance? && s.k.cur != BOOT && Mine(s).SignalPost? && Mine(s).target == t && b in Mine(s).bits
  }

  /** No bit is lost or invented: it is pending after a step iff just posted, or pending and not consumed. */
  lemma BitsConserved(s: State, a: Action, limit: nat, t: nat, b: nat)
    requires Inv(s) && Enabled(s, a) && t < |s.calls|
    ensures b in Step(s, a, limit).k.tasks[t].recvd <==>
      Posts(s, a, t, b) || (b in s.k.tasks[t].recvd && !Consumes(s, a, t, b))
  {
    if a.Tick? {
      AlarmKeeps(s.k, limit);
      assert OnlyRuns(s.k.tasks[t], Alarm(s.k, limit, true).tasks[t]);
    }
  }
}
