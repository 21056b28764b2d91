/**
 The hosted scheduler: TaskReady in priority order, the switch and dispatch done by a
 timer tick, and the tick's three guards (armed, forbidden, out of ticks).

 Tasks are numbered; BOOT is the host's main thread, which is never on a list.  The
 class `ExecBase` updates its fields as the source does and every method is tied to a
 function on the value `Kernel`; the lemmas about whole runs are about those functions.
 */
module Exec {
  const BOOT: int := -1

  datatype TaskState = Run | Ready | Wait

  datatype Task = Task(pri: int, state: TaskState, recvd: set<nat>, sigWait: set<nat>)

  datatype Kernel = Kernel(tasks: seq<Task>, cur: int, boot: TaskState, ready: seq<int>, waiting: seq<int>,
                           forbid: nat, on: bool, inited: bool, ticks: nat)

  // ------------------------------------------------------------------- the lists

  ghost predicate InRange(q: seq<int>, n: nat) {
    forall i | 0 <= i < |q| :: 0 <= q[i] < n
  }

  ghost predicate Distinct(q: seq<int>) {
    forall i, j | 0 <= i < j < |q| :: q[i] != q[j]
  }

  ghost predicate ByPriority(tasks: seq<Task>, q: seq<int>)
    requires InRange(q, |tasks|)
  {
    forall i, j | 0 <= i < j < |q| :: tasks[q[i]].pri >= tasks[q[j]].pri
  }

  /** Where `Enqueue` stops: the first node of strictly lower priority, or the tail. */
  ghost predicate IsSlot(tasks: seq<Task>, q: seq<int>, pri: int, k: nat)
    requires InRange(q, |tasks|)
  {
    && k <= |q|
    && (forall i | 0 <= i < k :: tasks[q[i]].pri >= pri)
    && (k < |q| ==> tasks[q[k]].pri < pri)
  }

  ghost function Slot(tasks: seq<Task>, q: seq<int>, pri: int): (k: nat)
    requires InRange(q, |tasks|)
    ensures IsSlot(tasks, q, pri, k)
  {
    if q == [] || tasks[q[0]].pri < pri then 0 else 1 + Slot(tasks, q[1..], pri)
  }

  ghost function Enqueued(tasks: seq<Task>, q: seq<int>, t: int): seq<int>
    requires InRange(q, |tasks|) && 0 <= t < |tasks|
  {
    var k := Slot(tasks, q, tasks[t].pri);
    q[..k] + [t] + q[k..]
  }

  lemma EnqueuedMembers(tasks: seq<Task>, q: seq<int>, t: int)
    requires InRange(q, |tasks|) && 0 <= t < |tasks|
    ensures var r := Enqueued(tasks, q, t);
      && |r| == |q| + 1 && InRange(r, |tasks|)
      && (forall x :: x in r <==> x in q || x == t)
      && (Distinct(q) && t !in q ==> Distinct(r))
  {
    var k := Slot(tasks, q, tasks[t].pri);
    var r := Enqueued(tasks, q, t);
    forall i | 0 <= i < |r| ensures r[i] == if i < k then q[i] else if i == k then t else q[i - 1] {}
    forall x | x in q ensures x in r {
      var i :| 0 <= i < |q| && q[i] == x;
      assert r[if i < k then i else i + 1] == x;
    }
    assert r[k] == t;
  }

  /** A list in priority order stays in order, and the newcomer goes behind its equals. */
  lemma EnqueuedIsStable(tasks: seq<Task>, q: seq<int>, t: int)
    requires InRange(q, |tasks|) && 0 <= t < |tasks| && ByPriority(tasks, q)
    ensures InRange(Enqueued(tasks, q, t), |tasks|) && ByPriority(tasks, Enqueued(tasks, q, t))
    ensures var k := Slot(tasks, q, tasks[t].pri);
      Enqueued(tasks, q, t) == q[..k] + [t] + q[k..]
      && forall i | 0 <= i < |q| :: i < k <==> tasks[q[i]].pri >= tasks[t].pri
  {
    EnqueuedMembers(tasks, q, t);
    var k := Slot(tasks, q, tasks[t].pri);
    var r := Enqueued(tasks, q, t);
    forall i, j | 0 <= i < j < |r| ensures tasks[r[i]].pri >= tasks[r[j]].pri {
      assert k < |q| ==> forall m | k < m < |q| :: tasks[q[k]].pri >= tasks[q[m]].pri;
    }
  }

  // -------------------------------------------------------- switch and dispatch

  ghost predicate Wf(k: Kernel) {
    && -1 <= k.cur < |k.tasks|
    && InRange(k.ready, |k.tasks|) && InRange(k.waiting, |k.tasks|)
  }

  function SetState(tasks: seq<Task>, t: int, s: TaskState): seq<Task>
    requires 0 <= t < |tasks|
  {
    tasks[t := tasks[t].(state := s)]
  }

  /** `core_Switch`; a task off its stack is parked, a blocked one is left alone. */
  ghost function Switch(k: Kernel, onStack: bool): (r: Kernel)
    requires Wf(k)
    ensures Wf(r)
  {
    if k.cur == BOOT then
      if k.boot != Run then k else k.(boot := Ready)
    else if k.tasks[k.cur].state != Run then k
    else if !onStack then k.(tasks := SetState(k.tasks, k.cur, Wait))
    else
      EnqueuedMembers(SetState(k.tasks, k.cur, Ready), k.ready, k.cur);
      k.(tasks := SetState(k.tasks, k.cur, Ready),
         ready := Enqueued(SetState(k.tasks, k.cur, Ready), k.ready, k.cur))
  }

  ghost function Dispatch(k: Kernel): (r: Kernel)
    requires Wf(k)
    ensures Wf(r)
  {
    if k.ready == [] then k
    else k.(cur := k.ready[0], ready := k.ready[1..], tasks := SetState(k.tasks, k.ready[0], Run))
  }

  ghost function ExitInterrupt(k: Kernel, onStack: bool): (r: Kernel)
    requires Wf(k)
    ensures Wf(r)
  {
    if k.ready == [] then k else Dispatch(Switch(k, onStack))
  }

  /** One SIGALRM. */
  ghost function Alarm(k: Kernel, limit: nat, onStack: bool): (r: Kernel)
    requires Wf(k)
    ensures Wf(r)
  {
    var k := k.(ticks := k.ticks + 1);
    if !k.on then k
    else if !k.inited then k.(inited := true)
    else if k.forbid > 0 then k
    else if k.ticks >= limit then k.(on := false, cur := BOOT, boot := Run)
    else ExitInterrupt(k, onStack)
  }

  // ------------------------------------------------------------- block and wake

  ghost function Place(q: seq<int>, t: int): (i: nat)
    ensures i <= |q| && (forall j | 0 <= j < i :: q[j] != t) && (i < |q| ==> q[i] == t)
  {
    if q == [] || q[0] == t then 0 else 1 + Place(q[1..], t)
  }

  ghost function Removed(q: seq<int>, t: int): seq<int> {
    var i := Place(q, t);
    if i < |q| then q[..i] + q[i + 1..] else q
  }

  lemma RemovedInRange(q: seq<int>, t: int, n: nat)
    requires InRange(q, n)
    ensures InRange(Removed(q, t), n)
  {
    var i, r := Place(q, t), Removed(q, t);
    forall j | 0 <= j < |r| ensures 0 <= r[j] < n { assert r[j] == if j < i then q[j] else q[j + 1]; }
  }

  lemma RemovedMembers(q: seq<int>, t: int, n: nat)
    requires Distinct(q) && InRange(q, n)
    ensures Distinct(Removed(q, t)) && InRange(Removed(q, t), n)
    ensures forall x :: x in Removed(q, t) <==> x in q && x != t
  {
    RemovedInRange(q, t, n);
    var i, r := Place(q, t), Removed(q, t);
    forall j | 0 <= j < |r| ensures r[j] == if j < i then q[j] else q[j + 1] {}
    forall x | x in q && x != t ensures x in r {
      var j :| 0 <= j < |q| && q[j] == x;
      assert r[if j < i then j else j - 1] == x;
    }
  }

  /** The running task gives up the CPU until one of `mask` is signalled (`Wait`, under Forbid). */
  ghost function Block(k: Kernel, mask: set<nat>): (r: Kernel)
    requires Wf(k) && k.cur != BOOT
    ensures Wf(r)
  {
    var tasks := k.tasks[k.cur := k.tasks[k.cur].(sigWait := mask, state := Wait)];
    EnqueuedMembers(tasks, k.waiting, k.cur);
    k.(tasks := tasks, waiting := Enqueued(tasks, k.waiting, k.cur))
  }

  predicate Wakes(t: Task, bits: set<nat>) {
    (t.recvd + bits) * t.sigWait != {} && t.state == Wait
  }

  /** Bits are posted to task `t`, which is made ready if it was waiting for one of them (`Signal`). */
  ghost function Post(k: Kernel, t: nat, bits: set<nat>): (r: Kernel)
    requires Wf(k) && t < |k.tasks|
    ensures Wf(r)
  {
    var posted := k.tasks[t].(recvd := k.tasks[t].recvd + bits);
    if Wakes(k.tasks[t], bits) then
      var tasks := k.tasks[t := posted.(state := Ready)];
      EnqueuedMembers(tasks, k.ready, t);
      RemovedInRange(k.waiting, t, |tasks|);
      k.(tasks := tasks, waiting := Removed(k.waiting, t), ready := Enqueued(tasks, k.ready, t))
    else k.(tasks := k.tasks[t := posted])
  }

  // ----------------------------------------------------------- in-place versions

  class ExecBase {
    var tasks: seq<Task>
    var thisTask: int
    var boot: TaskState
    var ready: seq<int>
    var waiting: seq<int>
    var forbid: nat
    var on: bool
    var inited: bool
    var ticks: nat

    ghost function K(): Kernel
      reads this
    {
      Kernel(tasks, thisTask, boot, ready, waiting, forbid, on, inited, ticks)
    }

    /** The walk of `Enqueue`: the node the new one is linked in front of. */
    method FindSlot(q: seq<int>, pri: int) returns (k: nat)
      requires InRange(q, |tasks|)
      ensures k == Slot(tasks, q, pri)
    {
      k := 0;
      while k < |q| && tasks[q[k]].pri >= pri
        invariant 0 <= k <= |q| && forall i | 0 <= i < k :: tasks[q[i]].pri >= pri
      {
        k := k + 1;
      }
      SlotUnique(tasks, q, pri, k, Slot(tasks, q, pri));
    }

    method EnqueueReady(t: int)
      requires Wf(K()) && 0 <= t < |tasks|
      modifies this`ready
      ensures K() == old(K()).(ready := Enqueued(tasks, old(ready), t))
    {
      var k := FindSlot(ready, tasks[t].pri);
      ready := ready[..k] + [t] + ready[k..];
    }

    method EnqueueWaiting(t: int)
      requires Wf(K()) && 0 <= t < |tasks|
      modifies this`waiting
      ensures K() == old(K()).(waiting := Enqueued(tasks, old(waiting), t))
    {
      var k := FindSlot(waiting, tasks[t].pri);
      waiting := waiting[..k] + [t] + waiting[k..];
    }

    method CoreSwitch(onStack: bool)
      requires Wf(K())
      modifies this
      ensures K() == Switch(old(K()), onStack)
    {
      if thisTask == BOOT {
        if boot == Run { boot := Ready; }
      } else if tasks[thisTask].state == Run {
        if !onStack {
          tasks := SetState(tasks, thisTask, Wait);
        } else {
          tasks := SetState(tasks, thisTask, Ready);
          EnqueueReady(thisTask);
        }
      }
    }

    method CoreDispatch()
      requires Wf(K())
      modifies this
      ensures K() == Dispatch(old(K()))
    {
      if ready != [] {
        var next := ready[0];
        ready := ready[1..];
        thisTask := next;
        tasks := SetState(tasks, next, Run);
      }
    }

    /** The critical section of `Wait` on its blocking path. */
    method BlockThis(mask: set<nat>)
      requires Wf(K()) && thisTask != BOOT
      modifies this
      ensures K() == Block(old(K()), mask)
    {
      tasks := tasks[thisTask := tasks[thisTask].(sigWait := mask, state := Wait)];
      EnqueueWaiting(thisTask);
    }

    method Unlink(q: seq<int>, t: int) returns (r: seq<int>)
      ensures r == Removed(q, t)
    {
      var i := 0;
      while i < |q| && q[i] != t
        invariant 0 <= i <= |q| && forall j | 0 <= j < i :: q[j] != t
      {
        i := i + 1;
      }
      assert i == Place(q, t) by { assert Place(q, t) < |q| ==> q[Place(q, t)] == t; }
      r := if i < |q| then q[..i] + q[i + 1..] else q;
    }

    /** The critical section of `Signal`. */
    method PostTo(t: nat, bits: set<nat>)
      requires Wf(K()) && t < |tasks|
      modifies this
      ensures K() == Post(old(K()), t, bits)
    {
      var wakes := Wakes(tasks[t], bits);
      tasks := tasks[t := tasks[t].(recvd := tasks[t].recvd + bits)];
      if wakes {
        RemovedInRange(waiting, t, |tasks|);
        waiting := Unlink(waiting, t);
        tasks := SetState(tasks, t, Ready);
        EnqueueReady(t);
        assert tasks == old(tasks)[t := old(tasks[t]).(recvd := old(tasks[t].recvd) + bits, state := Ready)];
      }
    }

    method OnAlarm(limit: nat, onStack: bool)
      requires Wf(K())
      modifies this
      ensures K() == Alarm(old(K()), limit, onStack)
    {
      ticks := ticks + 1;
      if !on { return; }
      if !inited { inited := true; return; }
      if forbid > 0 { return; }
      if ticks >= limit {
        on, thisTask, boot := false, BOOT, Run;
        return;
      }
      if ready != [] {
        CoreSwitch(onStack);
        CoreDispatch();
      }
    }
  }

  lemma SlotUnique(tasks: seq<Task>, q: seq<int>, pri: int, a: nat, b: nat)
    requires InRange(q, |tasks|) && IsSlot(tasks, q, pri, a) && IsSlot(tasks, q, pri, b)
    ensures a == b
  {
    assert a < |q| ==> tasks[q[a]].pri < pri;
    assert b < |q| ==> tasks[q[b]].pri < pri;
  }

  // ---------------------------------------------------------- what a tick keeps

  ghost predicate Listed(k: Kernel, t: int)
    requires 0 <= t < |k.tasks|
  {
    && (t in k.ready <==> k.tasks[t].state == Ready)
    && (t in k.waiting <==> k.tasks[t].state == Wait)
    && (k.on && k.tasks[t].state == Run ==> t == k.cur)
  }

  /** Every worker is current, on TaskReady or on TaskWait, as its state says. */
  ghost predicate Sound(k: Kernel) {
    && Wf(k)
    && Distinct(k.ready) && Distinct(k.waiting)
    && ByPriority(k.tasks, k.ready)
    && (forall t | 0 <= t < |k.tasks| :: Listed(k, t))
    && (if k.cur == BOOT then k.boot == Run else k.tasks[k.cur].state != Ready)
  }

  /** What a tick may do to a task: exchange Run and Ready, and nothing else. */
  ghost predicate OnlyRuns(a: Task, b: Task) {
    && b == a.(state := b.state)
    && (a.state == Wait <==> b.state == Wait)
  }

  /** Putting the running task back: only its state and the ready list change. */
  lemma RequeueKeeps(k: Kernel)
    requires Sound(k) && k.on && k.cur != BOOT && k.tasks[k.cur].state == Run
    ensures var r := Switch(k, true);
      && Distinct(r.ready) && ByPriority(r.tasks, r.ready)
      && (forall t | 0 <= t < |k.tasks| :: Listed(r, t))
  {
    var tasks := SetState(k.tasks, k.cur, Ready);
    assert Listed(k, k.cur);
    EnqueuedMembers(tasks, k.ready, k.cur);
    EnqueuedIsStable(tasks, k.ready, k.cur);
    var r := Switch(k, true);
    forall t | 0 <= t < |k.tasks| ensures Listed(r, t) { assert Listed(k, t); }
  }

  lemma SwitchKeeps(k: Kernel)
    requires Sound(k) && k.on
    ensures var r := Switch(k, true);
      && Distinct(r.ready) && ByPriority(r.tasks, r.ready)
      && r.cur == k.cur && r.waiting == k.waiting && r.on && r.forbid == k.forbid && |r.tasks| == |k.tasks|
      && (forall t | 0 <= t < |k.tasks| :: Listed(r, t))
      && (forall t | 0 <= t < |k.tasks| :: OnlyRuns(k.tasks[t], r.tasks[t]) && r.tasks[t].state != Run)
  {
    var r := Switch(k, true);
    if k.cur != BOOT && k.tasks[k.cur].state == Run { RequeueKeeps(k); }
    forall t | 0 <= t < |k.tasks| ensures OnlyRuns(k.tasks[t], r.tasks[t]) && r.tasks[t].state != Run {
      assert Listed(k, t);
    }
    if k.cur == BOOT || k.tasks[k.cur].state != Run {
      forall t | 0 <= t < |k.tasks| ensures Listed(r, t) { assert Listed(k, t); }
    }
  }

  lemma DispatchKeeps(k: Kernel)
    requires Wf(k) && Distinct(k.ready) && Distinct(k.waiting) && ByPriority(k.tasks, k.ready) && k.on && k.ready != []
    requires forall t | 0 <= t < |k.tasks| :: Listed(k, t) && k.tasks[t].state != Run
    ensures var r := Dispatch(k);
      && Sound(r) && r.cur == k.ready[0] && r.tasks[r.cur].state == Run
      && (forall t | 0 <= t < |k.tasks| :: OnlyRuns(k.tasks[t], r.tasks[t]))
      && (forall t | 0 <= t < |k.tasks| && k.tasks[t].state == Ready :: k.tasks[t].pri <= k.tasks[r.cur].pri)
  {
    var r := Dispatch(k);
    assert Listed(k, k.ready[0]);
    forall t | 0 <= t < |k.tasks|
      ensures Listed(r, t)
      ensures k.tasks[t].state == Ready ==> k.tasks[r.cur].pri >= k.tasks[t].pri
    {
      assert Listed(k, t);
    }
  }

  ghost predicate Maximal(k: Kernel, c: int)
    requires 0 <= c < |k.tasks|
  {
    forall t | 0 <= t < |k.tasks| && k.tasks[t].state != Wait :: k.tasks[t].pri <= k.tasks[c].pri
  }

  /** A switching tick keeps the lists sound and dispatches a task of maximal priority. */
  lemma ExitInterruptKeeps(k: Kernel)
    requires Sound(k) && k.on
    ensures var r := ExitInterrupt(k, true);
      && Sound(r) && r.waiting == k.waiting && r.on && r.forbid == k.forbid && |r.tasks| == |k.tasks|
      && (forall t | 0 <= t < |k.tasks| :: OnlyRuns(k.tasks[t], r.tasks[t]))
      && (k.ready != [] ==> 0 <= r.cur < |k.tasks| && r.tasks[r.cur].state == Run && Maximal(k, r.cur))
  {
    if k.ready != [] {
      SwitchKeeps(k);
      var s := Switch(k, true);
      assert s.ready != [];
      DispatchKeeps(s);
    }
  }

  /** The branches that touch no task leave the lists sound. */
  lemma SameLists(k: Kernel, r: Kernel)
    requires Sound(k) && r.tasks == k.tasks && r.ready == k.ready && r.waiting == k.waiting
    requires r.on ==> k.on && r.cur == k.cur && r.boot == k.boot
    requires !r.on && k.on ==> r.cur == BOOT && r.boot == Run
    requires !r.on && !k.on ==> r.cur == k.cur && r.boot == k.boot
    ensures Sound(r)
  {
    forall t | 0 <= t < |k.tasks| ensures Listed(r, t) { assert Listed(k, t); }
  }

  /** The same for any tick, in any of its branches; nobody is displaced while forbidden. */
  lemma AlarmKeeps(k: Kernel, limit: nat)
    requires Sound(k)
    ensures var r := Alarm(k, limit, true);
      && Sound(r) && r.waiting == k.waiting && r.forbid == k.forbid && |r.tasks| == |k.tasks|
      && (forall t | 0 <= t < |k.tasks| :: OnlyRuns(k.tasks[t], r.tasks[t]))
      && (r.cur != k.cur || r.on != k.on ==> k.forbid == 0)
  {
    var k1 := k.(ticks := k.ticks + 1);
    SameLists(k, k1);
    if k.on && k.inited && k.forbid == 0 && k1.ticks < limit {
      ExitInterruptKeeps(k1);
    } else {
      SameLists(k, Alarm(k, limit, true));
    }
  }

  // ------------------------------------------------ what blocking and waking keep

  /** Another task's fields moved; priorities, and so the order of a list, did not. */
  lemma SameOrder(a: seq<Task>, b: seq<Task>, q: seq<int>)
    requires |a| == |b| && InRange(q, |a|) && ByPriority(a, q)
    requires forall t | 0 <= t < |a| :: a[t].pri == b[t].pri
    ensures ByPriority(b, q)
  {
  }

  lemma BlockKeeps(k: Kernel, mask: set<nat>)
    requires Sound(k) && k.on && k.cur != BOOT && k.tasks[k.cur].state == Run
    ensures Sound(Block(k, mask))
    ensures ByPriority(k.tasks, k.waiting) ==> ByPriority(Block(k, mask).tasks, Block(k, mask).waiting)
  {
    var r := Block(k, mask);
    assert Listed(k, k.cur);
    EnqueuedMembers(r.tasks, k.waiting, k.cur);
    SameOrder(k.tasks, r.tasks, k.ready);
    if ByPriority(k.tasks, k.waiting) {
      SameOrder(k.tasks, r.tasks, k.waiting);
      EnqueuedIsStable(r.tasks, k.waiting, k.cur);
    }
    forall t | 0 <= t < |k.tasks| ensures Listed(r, t) { assert Listed(k, t); }
  }

  lemma WakeKeeps(k: Kernel, t: nat, bits: set<nat>)
    requires Sound(k) && k.on && k.cur != BOOT && k.cur != t < |k.tasks| && Wakes(k.tasks[t], bits)
    ensures Sound(Post(k, t, bits))
  {
    var r := Post(k, t, bits);
    assert Listed(k, t);
    SameOrder(k.tasks, r.tasks, k.ready);
    EnqueuedMembers(r.tasks, k.ready, t);
    EnqueuedIsStable(r.tasks, k.ready, t);
    RemovedMembers(k.waiting, t, |k.tasks|);
    forall u | 0 <= u < |k.tasks| ensures Listed(r, u) { assert Listed(k, u); }
  }

  lemma PostKeeps(k: Kernel, t: nat, bits: set<nat>)
    requires Sound(k) && k.on && k.cur != BOOT && t < |k.tasks| && k.tasks[k.cur].state == Run
    ensures Sound(Post(k, t, bits))
  {
    if Wakes(k.tasks[t], bits) {
      WakeKeeps(k, t, bits);
    } else {
      var r := Post(k, t, bits);
      SameOrder(k.tasks, r.tasks, k.ready);
      forall u | 0 <= u < |k.tasks| ensures Listed(r, u) { assert Listed(k, u); }
    }
  }

  // ---------------------------------------------------------------- the tick limit

  /** The tick that ends a demo: past the guards, at or after the limit. */
  predicate Stops(k: Kernel, limit: nat) {
    k.on && k.inited && k.forbid == 0 && k.ticks + 1 >= limit
  }

  /** Such a tick, and no other, takes the machine back to the boot task; no task and no list moves. */
  lemma AlarmStops(k: Kernel, limit: nat, onStack: bool)
    requires Wf(k)
    ensures var r := Alarm(k, limit, onStack);
      && r.ticks == k.ticks + 1
      && (r.on <==> k.on && !Stops(k, limit))
      && (Stops(k, limit) ==> r == k.(ticks := k.ticks + 1, on := false, cur := BOOT, boot := Run))
      && (!k.on ==> r == k.(ticks := k.ticks + 1))
      && (r.inited <==> k.inited || k.on)
  {
  }

  // -------------------------------------------------------------- off its stack

  /** Task `t` is out of the schedule: not running, not ready. */
  ghost predicate Parked(k: Kernel, t: nat) {
    Wf(k) && t < |k.tasks| && k.cur != t && t !in k.ready
  }

  /** A switch away from a task found off its stack parks it. */
  lemma OffStackParks(k: Kernel, limit: nat)
    requires Sound(k) && k.on && k.inited && k.forbid == 0 && k.ticks + 1 < limit
    requires k.cur != BOOT && k.tasks[k.cur].state == Run && k.ready != []
    ensures Parked(Alarm(k, limit, false), k.cur)
    ensures Alarm(k, limit, false).tasks[k.cur].state == Wait
  {
    assert Listed(k, k.cur);
    assert k.ready[0] in k.ready;
  }

  /** Kernels along ticks that find the running task on its stack or not, as `onStack` says. */
  ghost function AfterTicks(k: Kernel, limit: nat, onStack: seq<bool>): (r: Kernel)
    requires Wf(k)
    ensures Wf(r)
    decreases |onStack|
  {
    if onStack == [] then k else AfterTicks(Alarm(k, limit, onStack[0]), limit, onStack[1..])
  }

  /** A parked task is never dispatched again, whatever the ticks find. */
  lemma {:induction false} ParkedForEver(k: Kernel, limit: nat, t: nat, onStack: seq<bool>)
    requires Parked(k, t)
    ensures Parked(AfterTicks(k, limit, onStack), t)
    decreases |onStack|
  {
    if onStack != [] {
      StaysParked(k, limit, t, onStack[0]);
      ParkedForEver(Alarm(k, limit, onStack[0]), limit, t, onStack[1..]);
    }
  }

  lemma StaysParked(k: Kernel, limit: nat, t: nat, onStack: bool)
    requires Parked(k, t)
    ensures Parked(Alarm(k, limit, onStack), t)
  {
    var j := k.(ticks := k.ticks + 1);
    SwitchLeavesParked(j, t, onStack);
    hide Switch;
    if j.ready != [] { DispatchLeavesParked(Switch(j, onStack), t); }
  }

  lemma SwitchLeavesParked(k: Kernel, t: nat, onStack: bool)
    requires Parked(k, t)
    ensures Parked(Switch(k, onStack), t)
  {
    if k.cur != BOOT {
      EnqueuedMembers(SetState(k.tasks, k.cur, Ready), k.ready, k.cur);
      hide Enqueued;
    }
  }

  lemma DispatchLeavesParked(k: Kernel, t: nat)
    requires Parked(k, t)
    ensures Parked(Dispatch(k), t)
  {
    assert k.ready != [] ==> k.ready[0] in k.ready;
  }
}
