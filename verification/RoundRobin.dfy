/**
 Strict priority and round robin for tasks that never block: the whole schedule of the
 scheduler demo in closed form.  `ScheduleIs` names the task running after every tick,
 `EachOncePerRound` and `LowerStarves` are what the demo samples with its counters.
 */
module RoundRobin {
  import opened Exec

  function Spawned(pris: seq<int>): (tasks: seq<Task>)
    ensures |tasks| == |pris|
  {
    seq(|pris|, i requires 0 <= i < |pris| => Task(pris[i], Ready, {}, {}))
  }

  /** The ready list after the first `n` tasks were added, one `Enqueue` each. */
  ghost function Filled(tasks: seq<Task>, n: nat): (q: seq<int>)
    requires n <= |tasks|
    ensures |q| == n && InRange(q, |tasks|)
  {
    if n == 0 then []
    else
      EnqueuedMembers(tasks, Filled(tasks, n - 1), n - 1);
      Enqueued(tasks, Filled(tasks, n - 1), n - 1)
  }

  ghost function Initial(pris: seq<int>): (k: Kernel)
    ensures Wf(k)
  {
    Kernel(Spawned(pris), BOOT, Run, Filled(Spawned(pris), |pris|), [], 0, true, false, 0)
  }

  lemma {:induction false} FilledInOrder(tasks: seq<Task>, n: nat)
    requires n <= |tasks|
    ensures var q := Filled(tasks, n); Distinct(q) && ByPriority(tasks, q) && forall t :: t in q <==> 0 <= t < n
  {
    if n > 0 {
      var q := Filled(tasks, n - 1);
      FilledInOrder(tasks, n - 1);
      assert n - 1 !in q;
      EnqueuedMembers(tasks, q, n - 1);
      EnqueuedIsStable(tasks, q, n - 1);
      assert Filled(tasks, n) == Enqueued(tasks, q, n - 1);
    }
  }

  lemma InitialSound(pris: seq<int>)
    ensures Sound(Initial(pris))
  {
    FilledInOrder(Spawned(pris), |pris|);
  }

  ghost function Ticks(k: Kernel, limit: nat, n: nat): (r: Kernel)
    requires Wf(k)
    ensures Wf(r)
  {
    if n == 0 then k else Alarm(Ticks(k, limit, n - 1), limit, true)
  }

  // ---------------------------------------------------------------- the top ring

  /** The tasks of priority `top` among the first `n`, in the order they were added. */
  function Tops(tasks: seq<Task>, top: int, n: nat): (q: seq<int>)
    requires n <= |tasks|
    ensures |q| <= n && InRange(q, |tasks|)
  {
    if n == 0 then []
    else if tasks[n - 1].pri == top then Tops(tasks, top, n - 1) + [n - 1]
    else Tops(tasks, top, n - 1)
  }

  lemma {:induction false} TopsAre(tasks: seq<Task>, top: int, n: nat)
    requires n <= |tasks|
    ensures forall t :: t in Tops(tasks, top, n) <==> 0 <= t < n && tasks[t].pri == top
    ensures Distinct(Tops(tasks, top, n))
  {
    if n > 0 {
      TopsAre(tasks, top, n - 1);
      var q := Tops(tasks, top, n - 1);
      if tasks[n - 1].pri == top { assert forall t :: t in q + [n - 1] <==> t in q || t == n - 1; }
    }
  }

  /** A queue that starts with `a`, all of priority `top`, and goes on below `top`. */
  ghost predicate Leads(tasks: seq<Task>, top: int, a: seq<int>, q: seq<int>)
    requires InRange(q, |tasks|)
  {
    && a <= q
    && (forall i | 0 <= i < |a| :: tasks[q[i]].pri == top)
    && (forall i | |a| <= i < |q| :: tasks[q[i]].pri < top)
  }

  lemma EnqueuedLeads(tasks: seq<Task>, top: int, a: seq<int>, q: seq<int>, t: int)
    requires InRange(q, |tasks|) && 0 <= t < |tasks| && Leads(tasks, top, a, q) && tasks[t].pri <= top
    ensures InRange(Enqueued(tasks, q, t), |tasks|)
    ensures Leads(tasks, top, if tasks[t].pri == top then a + [t] else a, Enqueued(tasks, q, t))
  {
    EnqueuedMembers(tasks, q, t);
    var k := Slot(tasks, q, tasks[t].pri);
    var r := Enqueued(tasks, q, t);
    assert k < |q| ==> tasks[q[k]].pri < tasks[t].pri;
    assert |a| < |q| ==> tasks[q[|a|]].pri < top;
    forall i | 0 <= i < |r| ensures r[i] == if i < k then q[i] else if i == k then t else q[i - 1] {}
  }

  lemma FilledNext(tasks: seq<Task>, top: int, n: nat)
    requires 0 < n <= |tasks|
    ensures Filled(tasks, n) == Enqueued(tasks, Filled(tasks, n - 1), n - 1)
    ensures Tops(tasks, top, n) ==
              if tasks[n - 1].pri == top then Tops(tasks, top, n - 1) + [n - 1] else Tops(tasks, top, n - 1)
  {
    hide Enqueued;
  }

  lemma {:induction false} FilledLeads(tasks: seq<Task>, top: int, n: nat)
    requires n <= |tasks| && forall t | 0 <= t < |tasks| :: tasks[t].pri <= top
    ensures Leads(tasks, top, Tops(tasks, top, n), Filled(tasks, n))
  {
    if n > 0 {
      FilledLeads(tasks, top, n - 1);
      LeadsNext(tasks, top, n, Tops(tasks, top, n - 1), Filled(tasks, n - 1));
    }
  }

  lemma LeadsNext(tasks: seq<Task>, top: int, n: nat, a: seq<int>, q: seq<int>)
    requires 0 < n <= |tasks| && tasks[n - 1].pri <= top && InRange(q, |tasks|) && Leads(tasks, top, a, q)
    requires a == Tops(tasks, top, n - 1) && q == Filled(tasks, n - 1)
    ensures Leads(tasks, top, Tops(tasks, top, n), Filled(tasks, n))
  {
    hide Enqueued;
    hide Leads;
    FilledNext(tasks, top, n);
    EnqueuedLeads(tasks, top, a, q, n - 1);
  }

  /** The running task followed by its equals on the ready list is `ring`; all else is lower. */
  ghost predicate Ringed(k: Kernel, top: int, ring: seq<int>) {
    && Wf(k) && k.on && k.inited && k.forbid == 0
    && ring != [] && k.cur == ring[0] && k.cur != BOOT
    && k.tasks[k.cur].state == Run && k.tasks[k.cur].pri == top
    && Leads(k.tasks, top, ring[1..], k.ready)
  }

  function Turn(ring: seq<int>): seq<int>
    requires ring != []
  {
    ring[1..] + [ring[0]]
  }

  lemma SameLeads(a: seq<Task>, b: seq<Task>, top: int, ring: seq<int>, q: seq<int>)
    requires InRange(q, |a|) && Leads(a, top, ring, q) && |a| == |b|
    requires forall t | 0 <= t < |a| :: a[t].pri == b[t].pri
    ensures Leads(b, top, ring, q)
  {
  }

  /** One tick turns the ring by one. */
  lemma TickTurns(k: Kernel, limit: nat, top: int, ring: seq<int>)
    requires Ringed(k, top, ring) && k.ticks + 1 < limit
    ensures Ringed(Alarm(k, limit, true), top, Turn(ring))
    ensures Pris(Alarm(k, limit, true).tasks) == Pris(k.tasks)
    ensures Alarm(k, limit, true).ticks == k.ticks + 1
  {
    var k1 := k.(ticks := k.ticks + 1);
    if k.ready == [] {
      assert ring == [ring[0]] && Turn(ring) == ring;
    } else {
      var tasks := SetState(k.tasks, k.cur, Ready);
      SameLeads(k.tasks, tasks, top, ring[1..], k.ready);
      EnqueuedLeads(tasks, top, ring[1..], k.ready, k.cur);
      var q := Enqueued(tasks, k.ready, k.cur);
      assert ring[1..] + [k.cur] == Turn(ring);
      assert Switch(k1, true) == k1.(tasks := tasks, ready := q);
      DispatchTurns(k1.(tasks := tasks, ready := q), top, Turn(ring));
    }
  }

  lemma DispatchTurns(s: Kernel, top: int, ring: seq<int>)
    requires Wf(s) && s.on && s.inited && s.forbid == 0 && ring != [] && Leads(s.tasks, top, ring, s.ready)
    ensures Ringed(Dispatch(s), top, ring) && Pris(Dispatch(s).tasks) == Pris(s.tasks)
  {
    var r := Dispatch(s);
    assert s.ready[0] == ring[0];
    SameLeads(s.tasks, r.tasks, top, ring, s.ready);
    assert ring[1..] <= s.ready[1..];
  }

  ghost function Pris(tasks: seq<Task>): seq<int> {
    seq(|tasks|, i requires 0 <= i < |tasks| => tasks[i].pri)
  }

  ghost function Turns(ring: seq<int>, n: nat): (r: seq<int>)
    requires ring != []
    ensures |r| == |ring|
  {
    if n == 0 then ring else Turn(Turns(ring, n - 1))
  }

  lemma ModIs(x: nat, q: nat, r: nat, n: nat)
    requires 0 < n && r < n && x == q * n + r
    ensures x % n == r
  {
    var d := x / n - q;
    assert x == (x / n) * n + x % n;
    assert d * n == r - x % n;
    assert d >= 1 ==> d * n >= n;
    assert d <= -1 ==> d * n <= 0 - n;
  }

  lemma WrapOnce(x: nat, n: nat)
    requires 0 < n
    ensures (x + n) % n == x % n
  {
    ModIs(x + n, x / n + 1, x % n, n);
  }

  lemma {:induction false} TurnsAt(ring: seq<int>, n: nat, j: nat)
    requires j < |ring|
    ensures Turns(ring, n)[j] == ring[(n + j) % |ring|]
  {
    if n == 0 {
      ModIs(j, 0, j, |ring|);
    } else if j + 1 < |ring| {
      TurnsAt(ring, n - 1, j + 1);
    } else {
      TurnsAt(ring, n - 1, 0);
      WrapOnce(n - 1, |ring|);
    }
  }

  lemma HeadOf(k: Kernel, top: int, ring: seq<int>, n: nat)
    requires ring != [] && Ringed(k, top, Turns(ring, n))
    ensures k.cur == ring[n % |ring|]
  {
    TurnsAt(ring, n, 0);
  }

  // ---------------------------------------------------------------- the schedule

  ghost predicate IsTop(pris: seq<int>, top: int) {
    top in pris && forall i | 0 <= i < |pris| :: pris[i] <= top
  }

  lemma {:induction false} RingAfter(pris: seq<int>, top: int, limit: nat, n: nat)
    requires IsTop(pris, top) && 2 <= n < limit
    ensures Tops(Spawned(pris), top, |pris|) != []
    ensures var k := Ticks(Initial(pris), limit, n);
      Ringed(k, top, Turns(Tops(Spawned(pris), top, |pris|), n - 2)) && Pris(k.tasks) == pris && k.ticks == n
    decreases n
  {
    var tasks := Spawned(pris);
    var ring := Tops(tasks, top, |pris|);
    TopsAre(tasks, top, |pris|);
    var t :| 0 <= t < |pris| && pris[t] == top;
    assert t in ring;
    if n == 2 {
      FirstTicks(pris, top, limit, ring);
    } else {
      RingAfter(pris, top, limit, n - 1);
      TickTurns(Ticks(Initial(pris), limit, n - 1), limit, top, Turns(ring, n - 3));
    }
  }

  /** The first tick only arms the scheduler; the second leaves the boot task for the head. */
  lemma FirstTicks(pris: seq<int>, top: int, limit: nat, ring: seq<int>)
    requires IsTop(pris, top) && 2 < limit && ring == Tops(Spawned(pris), top, |pris|) != []
    ensures var k := Ticks(Initial(pris), limit, 2); Ringed(k, top, ring) && Pris(k.tasks) == pris && k.ticks == 2
  {
    var k0 := Initial(pris);
    FilledLeads(k0.tasks, top, |pris|);
    var k1 := k0.(ticks := 1, inited := true);
    assert Ticks(k0, limit, 1) == k1 by { assert Ticks(k0, limit, 0) == k0; }
    assert Ticks(k0, limit, 2) == Alarm(k1, limit, true);
    DispatchTurns(k1.(ticks := 2, boot := Ready), top, ring);
    assert Pris(k0.tasks) == pris;
  }

  /** The task running after tick `n`, for every tick before the limit. */
  lemma ScheduleIs(pris: seq<int>, top: int, limit: nat, n: nat)
    requires IsTop(pris, top) && 2 <= n < limit
    ensures var ring := Tops(Spawned(pris), top, |pris|);
      ring != [] && Ticks(Initial(pris), limit, n).cur == ring[(n - 2) % |ring|]
  {
    hide Alarm;
    RingAfter(pris, top, limit, n);
    HeadOf(Ticks(Initial(pris), limit, n), top, Tops(Spawned(pris), top, |pris|), n - 2);
  }

  /** Any |ring| consecutive ticks run each top task exactly once. */
  lemma EachOncePerRound(pris: seq<int>, top: int, limit: nat, n: nat, t: int) returns (i: nat)
    requires IsTop(pris, top) && 0 <= t < |pris| && pris[t] == top
    requires 2 <= n && n + |Tops(Spawned(pris), top, |pris|)| <= limit
    ensures n <= i < n + |Tops(Spawned(pris), top, |pris|)|
    ensures forall m | n <= m < n + |Tops(Spawned(pris), top, |pris|)| ::
      Ticks(Initial(pris), limit, m).cur == t <==> m == i
  {
    hide Alarm;
    var ring := Tops(Spawned(pris), top, |pris|);
    TopsAre(Spawned(pris), top, |pris|);
    assert Spawned(pris)[t].pri == top;
    var a :| 0 <= a < |ring| && ring[a] == t;
    var s := (n - 2) % |ring|;
    i := n + if a >= s then a - s else a - s + |ring|;
    forall m | n <= m < n + |ring| ensures Ticks(Initial(pris), limit, m).cur == t <==> m == i {
      ScheduleIs(pris, top, limit, m);
      var b := (m - 2) % |ring|;
      assert b == if s + (m - n) < |ring| then s + (m - n) else s + (m - n) - |ring| by {
        Offset(n - 2, m - n, |ring|);
      }
      assert ring[b] == ring[a] <==> a == b;
    }
  }

  lemma Offset(x: nat, j: nat, n: nat)
    requires j < n
    ensures (x + j) % n == if x % n + j < n then x % n + j else x % n + j - n
  {
    var q, r := x / n, x % n;
    if r + j < n { ModIs(x + j, q, r + j, n); } else { ModIs(x + j, q + 1, r + j - n, n); }
  }

  /** Below the top priority nothing is ever dispatched. */
  lemma LowerStarves(pris: seq<int>, top: int, limit: nat, n: nat, t: int)
    requires IsTop(pris, top) && n < limit && 0 <= t < |pris| && pris[t] < top
    ensures Ticks(Initial(pris), limit, n).cur != t
  {
    if n >= 2 {
      RingAfter(pris, top, limit, n);
      var k := Ticks(Initial(pris), limit, n);
      assert Pris(k.tasks)[k.cur] == top;
    } else {
      assert Ticks(Initial(pris), limit, 0).cur == BOOT;
    }
  }

  // ---------------------------------------------------------------- the tick limit

  /** The scheduler is on up to the limit and off from it on, with the boot task back for good. */
  lemma {:induction false} OnUpToLimit(pris: seq<int>, limit: nat, n: nat)
    requires 2 <= n
    ensures var k := Ticks(Initial(pris), limit, n);
      && k.ticks == n && k.inited && k.forbid == 0
      && (k.on <==> n < limit)
      && (n >= limit ==> k.cur == BOOT && k.boot == Run)
  {
    var k := Ticks(Initial(pris), limit, n - 1);
    if n == 2 {
      assert k == Alarm(Ticks(Initial(pris), limit, 0), limit, true);
      AlarmStops(Initial(pris), limit, true);
    } else {
      OnUpToLimit(pris, limit, n - 1);
    }
    AlarmStops(k, limit, true);
  }

  /** From the limit on nothing moves but the tick count. */
  lemma {:induction false} FrozenAtLimit(pris: seq<int>, limit: nat, n: nat)
    requires 2 <= limit <= n
    ensures Ticks(Initial(pris), limit, n) == Ticks(Initial(pris), limit, limit).(ticks := n)
    decreases n
  {
    OnUpToLimit(pris, limit, n);
    if n > limit {
      FrozenAtLimit(pris, limit, n - 1);
      OnUpToLimit(pris, limit, n - 1);
      AlarmStops(Ticks(Initial(pris), limit, n - 1), limit, true);
    }
  }
}
