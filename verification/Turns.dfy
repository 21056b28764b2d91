/**
 What one timer tick does when two tasks wait for each other and a third never blocks.

 The third task is put back behind its equals, so a tick that takes the processor from it
 gives it to one of the two; and no tick ever dispatches a task that is blocked.  This is
 what the progress of the demos rests on.
 */
module Turns {
  import opened Exec
  import opened Numbers
  import opened Signals

  // -------------------------------------------------------------- paced schedules

  /** Every tick is followed by a step of whoever runs then. */
  ghost predicate Paced<E>(es: seq<E>, tick: E) {
    forall i | 0 <= i < |es| && es[i] == tick :: i + 1 < |es| && es[i + 1] != tick
  }

  ghost function Ticks<E>(es: seq<E>, tick: E): nat {
    if es == [] then 0 else Ticks(es[1..], tick) + One(es[0] == tick)
  }

  /** One tick and one step, `n` times. */
  function Pulse<E>(tick: E, step: E, n: nat): seq<E> {
    if n == 0 then [] else [tick, step] + Pulse(tick, step, n - 1)
  }

  lemma {:induction false} PulseIsPaced<E>(tick: E, step: E, n: nat)
    requires tick != step
    ensures Paced(Pulse(tick, step, n), tick) && Ticks(Pulse(tick, step, n), tick) == n
  {
    if n > 0 {
      var rest := Pulse(tick, step, n - 1);
      PulseIsPaced(tick, step, n - 1);
      var es := Pulse(tick, step, n);
      assert es[1..] == [step] + rest && ([step] + rest)[1..] == rest;
      forall i | 0 <= i < |es| && es[i] == tick ensures i + 1 < |es| && es[i + 1] != tick {
        if i >= 2 { assert rest[i - 2] == tick && es[i + 1] == rest[i - 1]; }
      }
    }
  }

  // --------------------------------------------------------------------- one tick

  /** The task that never blocks. */
  const BUSY: nat := 2

  /** Tasks are running, the busy one is no more urgent than the two, and one of these is not blocked. */
  ghost predicate Running(s: State) {
    && Inv(s) && |s.calls| == 3 && s.k.on && s.k.inited && s.k.cur != BOOT
    && s.calls[BUSY].User?
    && s.k.tasks[BUSY].pri <= s.k.tasks[0].pri && s.k.tasks[BUSY].pri <= s.k.tasks[1].pri
    && !(s.k.tasks[0].state == Wait && s.k.tasks[1].state == Wait)
  }

  /** The running task has blocked and spins until it is switched away. */
  ghost predicate Spinning(s: State)
    requires Wfs(s) && s.k.cur != BOOT
  {
    Mine(s).WaitSpin? && s.k.tasks[s.k.cur].state == Wait
  }

  /** The head of the ready list stays in front of a task that goes behind its equals. */
  lemma HeadStaysFirst(tasks: seq<Task>, q: seq<int>, t: int)
    requires InRange(q, |tasks|) && 0 <= t < |tasks| && ByPriority(tasks, q)
    requires q != [] && tasks[t].pri <= tasks[q[0]].pri
    ensures Enqueued(tasks, q, t) != [] && Enqueued(tasks, q, t)[0] == q[0]
  {
  }

  /** A switch away from the busy task: the other task at the head of the ready list runs. */
  lemma BusyYields(k: Kernel)
    requires Sound(k) && k.on && |k.tasks| == 3 && k.cur == BUSY && k.tasks[BUSY].state == Run
    requires k.tasks[BUSY].pri <= k.tasks[0].pri && k.tasks[BUSY].pri <= k.tasks[1].pri
    requires k.tasks[0].state == Ready || k.tasks[1].state == Ready
    ensures ExitInterrupt(k, true).cur == 0 || ExitInterrupt(k, true).cur == 1
  {
    assert Listed(k, 0) && Listed(k, 1) && Listed(k, BUSY);
    assert k.ready != [] && k.ready[0] in k.ready && k.ready[0] != BUSY;
    var tasks := SetState(k.tasks, BUSY, Ready);
    assert forall t | 0 <= t < 3 :: tasks[t].pri == k.tasks[t].pri;
    HeadStaysFirst(tasks, k.ready, BUSY);
    assert Switch(k, true).ready == Enqueued(tasks, k.ready, BUSY);
  }

  lemma TickSwitches(k: Kernel, limit: nat)
    requires Sound(k) && k.on && k.inited && k.cur != BOOT && k.ticks + 1 < limit && |k.tasks| == 3
    requires k.tasks[BUSY].state != Wait && !(k.tasks[0].state == Wait && k.tasks[1].state == Wait)
    requires k.tasks[BUSY].pri <= k.tasks[0].pri && k.tasks[BUSY].pri <= k.tasks[1].pri
    ensures var r := Alarm(k, limit, true);
      && r.on && r.inited && r.ticks == k.ticks + 1 && r.cur != BOOT && |r.tasks| == 3
      && (if k.forbid > 0 then r.cur == k.cur && r.tasks == k.tasks else r.tasks[r.cur].state == Run)
      && (k.cur == BUSY && k.forbid == 0 ==> r.cur != BUSY)
  {
    assert Listed(k, 0) && Listed(k, 1) && Listed(k, BUSY);
    var j := k.(ticks := k.ticks + 1);
    SameLists(k, j);
    if k.forbid == 0 {
      assert k.ready != [];
      ExitInterruptKeeps(j);
      if k.cur == BUSY { BusyYields(j); }
    }
  }

  /** One tick: the demo stays running, nobody blocked is dispatched, and the busy task yields. */
  lemma TickTurns(s: State, limit: nat)
    requires Running(s) && s.k.ticks + 1 < limit
    ensures var r := Step(s, Tick, limit);
      && Running(r) && r.calls == s.calls && r.k.ticks == s.k.ticks + 1
      && (forall t | 0 <= t < 3 :: OnlyRuns(s.k.tasks[t], r.k.tasks[t]))
      && !Spinning(r)
      && (s.k.cur == BUSY ==> r.k.cur != BUSY)
  {
    TickKeeps(s, limit);
    AlarmKeeps(s.k, limit);
    assert TaskOk(s.k.tasks[BUSY], s.calls[BUSY]);
    TickSwitches(s.k, limit);
    hide Exec.Alarm;
    hide Exec.Sound;
  }

  /** The busy task is strictly more urgent than task `t`, which is not running. */
  ghost predicate Starved(s: State, t: nat)
    requires t < BUSY
  {
    && Inv(s) && |s.calls| == 3 && s.calls[BUSY].User?
    && s.k.cur != t && s.k.tasks[t].pri < s.k.tasks[BUSY].pri
  }

  /** No tick dispatches such a task. */
  lemma TickStarves(s: State, limit: nat, t: nat)
    requires t < BUSY && Starved(s, t)
    ensures Starved(Step(s, Tick, limit), t)
  {
    TickKeeps(s, limit);
    AlarmKeeps(s.k, limit);
    assert TaskOk(s.k.tasks[BUSY], s.calls[BUSY]);
    var k := s.k.(ticks := s.k.ticks + 1);
    SameLists(s.k, k);
    if k.on { ExitInterruptKeeps(k); }
    assert OnlyRuns(s.k.tasks[t], Alarm(s.k, limit, true).tasks[t]);
    assert OnlyRuns(s.k.tasks[BUSY], Alarm(s.k, limit, true).tasks[BUSY]);
  }
}
