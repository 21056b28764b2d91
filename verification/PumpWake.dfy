/**
 The wake from the pump thread to a waiting task: a latch, a one-byte pipe, and a mutex.

 The two threads interleave at every step; only the mutex keeps them apart.  A worker loops
 `ps_wait` and drain calls.  One that goes back to wait only after a drain came back short
 never sleeps on a readiness already stashed, unless the pump is still on its way from the
 stash to the byte it will write; `SleepsIff` says when a worker that does not insist on the
 short drain does.  `OnTable` ties the steps on `ready` to the registration table.
 */
module PumpWake {
  import opened Numbers
  import Pump

  /** The pump, from the stash it made under the table's lock to the end of `ps_wake`. */
  datatype PumpPc = Polling | ToWake | Locked | Latched | Written

  /** The waiter inside `ps_wait`, or with its result in hand, draining; `short` after a short drain. */
  datatype Waiter =
    | Checking
    | Testing
    | Consuming
    | Emptied
    | Unlatched
    | Parking
    | Draining(short: bool)

  /** `ready` holds the table slots of this target that have something stashed. */
  datatype State = State(ready: set<nat>, latched: bool, pipe: nat, pump: PumpPc, waiter: Waiter)

  datatype Action =
    | PumpStash(slot: nat)
    | PumpStep
    | WaiterStep
    | Timeout
    | Interrupted
    | DrainCall(taken: set<nat>, max: nat)
    | Forget(slot: nat)
    | WaitAgain

  predicate PumpHolds(p: PumpPc) { p.Locked? || p.Latched? || p.Written? }

  predicate WaiterHolds(w: Waiter) { w.Testing? || w.Consuming? || w.Emptied? || w.Unlatched? }

  predicate Enabled(s: State, a: Action) {
    match a
    case PumpStash(_) => s.pump.Polling?
    case PumpStep => !s.pump.Polling? && (s.pump.ToWake? ==> !WaiterHolds(s.waiter))
    case WaiterStep =>
      !s.waiter.Draining? && (s.waiter.Checking? ==> !PumpHolds(s.pump)) && (s.waiter.Parking? ==> s.pipe > 0)
    case Timeout => s.waiter.Parking?
    case Interrupted => s.waiter.Parking?
    case DrainCall(taken, max) => s.waiter.Draining? && taken <= s.ready && |taken| == Min(|s.ready|, max)
    case Forget(_) => s.waiter.Draining?
    case WaitAgain => s.waiter.Draining?
  }

  function Step(s: State, a: Action): State
    requires Enabled(s, a)
  {
    match a
    case PumpStash(slot) => s.(ready := s.ready + {slot}, pump := ToWake)
    case PumpStep => PumpNext(s)
    case WaiterStep => WaiterNext(s)
    case Timeout => s.(waiter := Draining(false))
    case Interrupted => s.(waiter := Checking)
    case DrainCall(taken, max) => s.(ready := s.ready - taken, waiter := Draining(|taken| < max))
    case Forget(slot) => s.(ready := s.ready - {slot})
    case WaitAgain => s.(waiter := Checking)
  }

  /** `ps_wake`: lock; latch and write one byte unless already latched; unlock. */
  function PumpNext(s: State): State {
    match s.pump
    case Polling => s
    case ToWake => s.(pump := Locked)
    case Locked => if s.latched then s.(pump := Written) else s.(latched := true, pump := Latched)
    case Latched => s.(pipe := s.pipe + 1, pump := Written)
    case Written => s.(pump := Polling)
  }

  /** `ps_wait`: lock and test the latch; consume it and empty the pipe, or unlock and park. */
  function WaiterNext(s: State): State {
    match s.waiter
    case Checking => s.(waiter := Testing)
    case Testing => if s.latched then s.(latched := false, waiter := Consuming) else s.(waiter := Unlatched)
    case Consuming => if s.pipe > 0 then s.(pipe := s.pipe - Min(s.pipe, 64)) else s.(waiter := Emptied)
    case Emptied => s.(waiter := Draining(false))
    case Unlatched => s.(waiter := Parking)
    case Parking => s.(waiter := Checking)
    case Draining(_) => s
  }

  // --------------------------------------------------------------- the invariants

  /** Latch, pipe and mutex, whatever the worker does. */
  predicate LatchOk(s: State) {
    && s.pipe <= 1
    && !(PumpHolds(s.pump) && WaiterHolds(s.waiter))
    && (s.latched ==> s.pipe == if s.pump.Latched? then 0 else 1)
    && (!s.latched ==> s.waiter.Consuming? || s.pipe == 0)
    && (s.waiter.Emptied? ==> s.pipe == 0)
    && (s.waiter.Consuming? || s.waiter.Emptied? || s.waiter.Unlatched? ==> !s.latched)
    && (s.pump.Latched? || s.pump.Written? ==> s.latched)
  }

  /** The waiter has drained short and has not consumed a latch since. */
  predicate Drained(w: Waiter) {
    w.Checking? || w.Testing? || w.Unlatched? || w.Parking? || (w.Draining? && w.short)
  }

  /** The pump has stashed and not yet set the latch. */
  predicate Owing(p: PumpPc) { p.ToWake? || p.Locked? }

  predicate Promised(s: State) {
    Drained(s.waiter) && s.ready != {} ==> s.latched || Owing(s.pump)
  }

  /** A worker's step: `careful` ones wait again only after a short drain. */
  predicate Allowed(s: State, a: Action, careful: bool) {
    Enabled(s, a) && (careful && a.WaitAgain? ==> s.waiter == Draining(true))
  }

  /** A drain call that came back short took everything. */
  lemma ShortTakesAll(ready: set<nat>, taken: set<nat>, max: nat)
    requires taken <= ready && |taken| == Min(|ready|, max)
    ensures |taken| < max ==> ready - taken == {}
    ensures ready - taken == {} <==> |ready| <= max
  {
    assert |ready| == |taken| + |ready - taken| by { assert ready == taken + (ready - taken); }
  }

  lemma StepKeeps(s: State, a: Action, careful: bool)
    requires LatchOk(s) && (careful ==> Promised(s)) && Allowed(s, a, careful)
    ensures LatchOk(Step(s, a)) && (careful ==> Promised(Step(s, a)))
  {
    if a.DrainCall? { ShortTakesAll(s.ready, a.taken, a.max); }
  }

  predicate ValidRun(s: State, run: seq<Action>, careful: bool)
    decreases |run|
  {
    run == [] || (Allowed(s, run[0], careful) && ValidRun(Step(s, run[0]), run[1..], careful))
  }

  function After(s: State, run: seq<Action>, careful: bool): State
    requires ValidRun(s, run, careful)
    decreases |run|
  {
    if run == [] then s else After(Step(s, run[0]), run[1..], careful)
  }

  lemma {:induction false} RunKeeps(s: State, run: seq<Action>, careful: bool)
    requires LatchOk(s) && (careful ==> Promised(s)) && ValidRun(s, run, careful)
    ensures LatchOk(After(s, run, careful)) && (careful ==> Promised(After(s, run, careful)))
    decreases |run|
  {
    if run != [] {
      StepKeeps(s, run[0], careful);
      RunKeeps(Step(s, run[0]), run[1..], careful);
    }
  }

  /** `ps_create`, with a waiter about to wait. */
  const CREATED: State := State({}, false, 0, Polling, Checking)

  /** Asleep: in `select` with nothing to read. */
  predicate Asleep(s: State) { s.waiter.Parking? && s.pipe == 0 }

  /** With the mutex free the latch is set exactly when the pipe holds its one byte, for any worker. */
  lemma LatchIsByte(run: seq<Action>)
    requires ValidRun(CREATED, run, false)
    ensures var s := After(CREATED, run, false);
      s.pipe <= 1 && (!PumpHolds(s.pump) && !WaiterHolds(s.waiter) ==> (s.latched <==> s.pipe == 1))
  {
    RunKeeps(CREATED, run, false);
  }

  /** No lost wakeup: a careful worker asleep with something stashed has the pump on its way. */
  lemma NoLostWakeup(run: seq<Action>)
    requires ValidRun(CREATED, run, true)
    ensures var s := After(CREATED, run, true);
      Asleep(s) && s.ready != {} ==> s.pump.ToWake? || s.pump.Locked? || s.pump.Latched?
  {
    RunKeeps(CREATED, run, true);
  }

  /** Once the pump's wake is over, a careful worker parked with something stashed can step. */
  lemma WakesUp(run: seq<Action>)
    requires ValidRun(CREATED, run, true)
    requires var s := After(CREATED, run, true);
      s.waiter.Parking? && s.ready != {} && (s.pump.Polling? || s.pump.Written?)
    ensures Enabled(After(CREATED, run, true), WaiterStep)
  {
    RunKeeps(CREATED, run, true);
  }

  // ------------------------------------------------------ a worker that does not insist

  /** One drain call and back to wait: the worker parks again. */
  function DrainOnceAndWait(taken: set<nat>, max: nat): seq<Action> {
    [DrainCall(taken, max), WaitAgain, WaiterStep, WaiterStep, WaiterStep]
  }

  /**
   After any run of any worker, with the latch clear and the pump polling: one drain call and
   a return to `ps_wait` end asleep on a stashed slot exactly when more slots were ready than
   the call had room for.
   */
  lemma SleepsIff(run: seq<Action>, taken: set<nat>, max: nat)
    requires ValidRun(CREATED, run, false)
    requires var s := After(CREATED, run, false);
      s.waiter.Draining? && !s.latched && s.pump.Polling? && Enabled(s, DrainCall(taken, max))
    ensures var s := After(CREATED, run, false);
      && ValidRun(s, DrainOnceAndWait(taken, max), false)
      && (var t := After(s, DrainOnceAndWait(taken, max), false);
          && (Asleep(t) && t.ready != {} <==> |s.ready| > max)
          && t.ready == s.ready - taken)
  {
    RunKeeps(CREATED, run, false);
    var s := After(CREATED, run, false);
    ShortTakesAll(s.ready, taken, max);
    Sleeping(s, taken, max);
  }

  /** The five steps one by one. */
  lemma Sleeping(s: State, taken: set<nat>, max: nat)
    requires LatchOk(s) && s.waiter.Draining? && !s.latched && s.pump.Polling? && Enabled(s, DrainCall(taken, max))
    ensures ValidRun(s, DrainOnceAndWait(taken, max), false)
    ensures After(s, DrainOnceAndWait(taken, max), false) == s.(ready := s.ready - taken, waiter := Parking)
    ensures s.pipe == 0
  {
    var r := DrainOnceAndWait(taken, max);
    var s1 := Step(s, r[0]);
    var s2 := Step(s1, WaitAgain);
    var s3 := Step(s2, WaiterStep);
    var s4 := Step(s3, WaiterStep);
    var s5 := Step(s4, WaiterStep);
    RunEnds(s4, WaiterStep, []);
    RunEnds(s3, WaiterStep, [WaiterStep]);
    RunEnds(s2, WaiterStep, [WaiterStep, WaiterStep]);
    RunEnds(s1, WaitAgain, [WaiterStep, WaiterStep, WaiterStep]);
    RunEnds(s, r[0], [WaitAgain, WaiterStep, WaiterStep, WaiterStep]);
  }

  /** A run is its first step and the rest. */
  lemma RunEnds(s: State, a: Action, rest: seq<Action>)
    requires Allowed(s, a, false) && ValidRun(Step(s, a), rest, false)
    ensures ValidRun(s, [a] + rest, false) && After(s, [a] + rest, false) == After(Step(s, a), rest, false)
  {
    assert ([a] + rest)[1..] == rest;
  }

  lemma {:induction false} RunJoins(s: State, a: seq<Action>, b: seq<Action>)
    requires ValidRun(s, a, false) && ValidRun(After(s, a, false), b, false)
    ensures ValidRun(s, a + b, false) && After(s, a + b, false) == After(After(s, a, false), b, false)
    decreases |a|
  {
    if a == [] {
      assert a + b == b;
    } else {
      assert (a + b)[1..] == a[1..] + b;
      RunJoins(Step(s, a[0]), a[1..], b);
    }
  }

  /** A stash and the whole wake after it; a byte is written if the latch was clear. */
  function Wake(slot: nat, clear: bool): seq<Action> {
    [PumpStash(slot), PumpStep, PumpStep] + if clear then [PumpStep, PumpStep] else [PumpStep]
  }

  lemma FirstWake()
    ensures ValidRun(CREATED, Wake(1, true), false)
    ensures After(CREATED, Wake(1, true), false) == State({1}, true, 1, Polling, Checking)
  {
    var s1 := State({1}, false, 0, ToWake, Checking);
    var s2 := s1.(pump := Locked);
    var s3 := s1.(latched := true, pump := Latched);
    var s4 := State({1}, true, 1, Written, Checking);
    RunEnds(s4, PumpStep, []);
    RunEnds(s3, PumpStep, [PumpStep]);
    RunEnds(s2, PumpStep, [PumpStep, PumpStep]);
    RunEnds(s1, PumpStep, [PumpStep, PumpStep, PumpStep]);
    RunEnds(CREATED, PumpStash(1), [PumpStep, PumpStep, PumpStep, PumpStep]);
    assert Wake(1, true) == [PumpStash(1)] + [PumpStep, PumpStep, PumpStep, PumpStep];
  }

  lemma SecondWake()
    ensures var s := State({1}, true, 1, Polling, Checking);
      ValidRun(s, Wake(2, false), false) && After(s, Wake(2, false), false) == s.(ready := {1, 2})
  {
    var s := State({1}, true, 1, Polling, Checking);
    var s1 := s.(ready := {1, 2}, pump := ToWake);
    var s2 := s1.(pump := Locked);
    var s3 := s1.(pump := Written);
    RunEnds(s3, PumpStep, []);
    RunEnds(s2, PumpStep, [PumpStep]);
    RunEnds(s1, PumpStep, [PumpStep, PumpStep]);
    RunEnds(s, PumpStash(2), [PumpStep, PumpStep, PumpStep]);
    assert Wake(2, false) == [PumpStash(2)] + [PumpStep, PumpStep, PumpStep];
  }

  const WOKEN: seq<Action> := [WaiterStep, WaiterStep, WaiterStep, WaiterStep, WaiterStep]

  lemma WaiterWoken()
    ensures var s := State({1, 2}, true, 1, Polling, Checking);
      ValidRun(s, WOKEN, false) && After(s, WOKEN, false) == State({1, 2}, false, 0, Polling, Draining(false))
  {
    var s := State({1, 2}, true, 1, Polling, Checking);
    var s1 := s.(waiter := Testing);
    var s2 := s.(latched := false, waiter := Consuming);
    var s3 := s2.(pipe := 0);
    var s4 := s3.(waiter := Emptied);
    RunEnds(s4, WaiterStep, []);
    RunEnds(s3, WaiterStep, [WaiterStep]);
    RunEnds(s2, WaiterStep, [WaiterStep, WaiterStep]);
    RunEnds(s1, WaiterStep, [WaiterStep, WaiterStep, WaiterStep]);
    RunEnds(s, WaiterStep, [WaiterStep, WaiterStep, WaiterStep, WaiterStep]);
  }

  /** Two stashes, one wake, a drain with room for one slot: a run from creation that ends asleep on the other. */
  lemma ShortWorkerSleeps() returns (run: seq<Action>)
    ensures ValidRun(CREATED, run, false)
    ensures After(CREATED, run, false) == State({2}, false, 0, Polling, Parking) && Asleep(After(CREATED, run, false))
  {
    FirstWake();
    SecondWake();
    WaiterWoken();
    RunJoins(CREATED, Wake(1, true), Wake(2, false));
    RunJoins(CREATED, Wake(1, true) + Wake(2, false), WOKEN);
    var woken := Wake(1, true) + Wake(2, false) + WOKEN;
    var s := State({1, 2}, false, 0, Polling, Draining(false));
    assert |{1}| == 1 && |s.ready| == 2;
    Sleeping(s, {1}, 1);
    RunJoins(CREATED, woken, DrainOnceAndWait({1}, 1));
    run := woken + DrainOnceAndWait({1}, 1);
    assert s.ready - {1} == {2};
  }

  // ----------------------------------------------------------------- on the table

  /** The slots of `sig` with something stashed. */
  function ReadySlots(regs: seq<Pump.Reg>, sig: nat): set<nat> {
    set i: nat | i < |regs| && Pump.Ready(regs[i], sig)
  }

  function Slots(q: seq<nat>): set<nat> { set i | i in q }

  lemma ReadyGrows(regs: seq<Pump.Reg>, sig: nat, n: nat)
    requires n < |regs|
    ensures var r := ReadySlots(regs[..n], sig);
      && n !in r
      && ReadySlots(regs[..n + 1], sig) == if Pump.Ready(regs[n], sig) then r + {n} else r
  {
  }

  lemma SlotsGrow(q: seq<nat>, i: nat)
    ensures Slots(q + [i]) == Slots(q) + {i}
  {
  }

  lemma NoneYet(regs: seq<Pump.Reg>, sig: nat)
    ensures Slots([]) == {} == ReadySlots(regs[..0], sig)
  {
  }

  /** One more ready slot is taken while there is room, and the counts stay in step. */
  lemma CountsGrow(taken: set<nat>, ready: set<nat>, i: nat, max: nat)
    requires taken <= ready && i !in ready && |taken| == Min(|ready|, max)
    ensures |ready + {i}| == |ready| + 1 && |taken + {i}| == |taken| + 1
    ensures |if |taken| < max then taken + {i} else taken| == Min(|ready + {i}|, max)
  {
  }

  lemma {:induction false} ReportedCount(regs: seq<Pump.Reg>, sig: nat, max: nat, n: nat)
    requires n <= |regs|
    ensures var q := Pump.Reported(regs, sig, max, n);
      && Slots(q) <= ReadySlots(regs[..n], sig)
      && |Slots(q)| == |q| == Min(|ReadySlots(regs[..n], sig)|, max)
  {
    hide ReadySlots, Slots;
    if n == 0 {
      NoneYet(regs, sig);
    } else {
      ReportedCount(regs, sig, max, n - 1);
      var q, r := Pump.Reported(regs, sig, max, n - 1), ReadySlots(regs[..n - 1], sig);
      ReadyGrows(regs, sig, n - 1);
      SlotsGrow(q, n - 1);
      CountsGrow(Slots(q), r, n - 1, max);
    }
  }

  /**
   `pump_drain` is a drain step: it takes ready slots of its target, as many as fit, and leaves
   other targets alone.
   */
  lemma TableDrain(regs: seq<Pump.Reg>, sig: nat, max: nat, other: nat)
    ensures var q := Pump.Reported(regs, sig, max, |regs|); var r := Pump.Emptied(regs, q);
      && Slots(q) <= ReadySlots(regs, sig) && |Slots(q)| == |q| == Min(|ReadySlots(regs, sig)|, max)
      && ReadySlots(r, sig) == ReadySlots(regs, sig) - Slots(q)
      && (other != sig ==> ReadySlots(r, other) == ReadySlots(regs, other))
  {
    assert regs[..|regs|] == regs;
    ReportedCount(regs, sig, max, |regs|);
  }

  /** The pump's check under the lock: the slot is still that fd's and still wants the direction. */
  predicate Accepted(regs: seq<Pump.Reg>, fd: int, dir: Pump.Dir, slot: int) {
    0 <= slot < |regs| && Pump.Owned(regs[slot], fd) && dir in regs[slot].want
  }

  /**
   Every call on the table is, for the ready slots of `sig`, a step of the protocol or no step:
   an accepted event is its stash, the target's own drain and unregister are its drain and
   forget, and registering or the calls of other targets change nothing.
   */
  lemma OnTable(t: Pump.Tables, c: Pump.Call, sig: nat)
    ensures var before, after := ReadySlots(t.regs, sig), ReadySlots(Pump.Do(t, c).regs, sig);
      match c
      case DoRegister(_, _, _) => after == before
      case DoUnregister(fd, s) =>
        after == if s == sig && Pump.FindReg(t.regs, fd, s) >= 0 then before - {Pump.FindReg(t.regs, fd, s)} else before
      case DoDrain(s, max) =>
        after == if s == sig then before - Slots(Pump.Reported(t.regs, s, max, |t.regs|)) else before
      case DoStash(fd, dir, slot) =>
        after == if Accepted(t.regs, fd, dir, slot) && t.regs[slot].sig == sig then before + {slot} else before
  {
    match c {
      case DoDrain(s, max) => TableDrain(t.regs, s, max, sig);
      case DoUnregister(fd, s) =>
        var i := Pump.FindReg(t.regs, fd, s);
        assert i >= 0 ==> Pump.Mine(t.regs[i], fd, s);
      case DoRegister(fd, want, s) =>
        var own := Pump.FindReg(t.regs, fd, s);
        assert own >= 0 ==> Pump.Mine(t.regs[own], fd, s);
      case DoStash(_, _, _) =>
    }
  }

  // ----------------------------------------------------------- the target in place

  /** The critical sections of `ps_wake` and `ps_wait` as methods on the shared fields. */
  class PumpSig {
    var latched: bool
    var pipe: nat

    ghost predicate Valid()
      reads this
    {
      latched <==> pipe == 1
    }

    constructor ()
      ensures Valid() && !latched && pipe == 0
    {
      latched, pipe := false, 0;
    }

    /** Any number of wakes before a wait leave one byte. */
    method Wake()
      requires Valid() && pipe <= 1
      modifies this
      ensures Valid() && latched && pipe == 1
    {
      if !latched {
        latched := true;
        pipe := pipe + 1;
      }
    }

    /** Test and consume the latch. */
    method Consume() returns (woken: bool)
      requires Valid() && pipe <= 1
      modifies this
      ensures Valid() && woken == old(latched) && !latched && pipe == 0
    {
      woken := latched;
      if latched {
        latched := false;
        while pipe > 0
          invariant !latched
        {
          pipe := pipe - Min(pipe, 64);
        }
      }
    }
  }
}
