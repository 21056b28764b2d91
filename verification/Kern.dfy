/**
 Workers that allocate, stamp, verify and free blocks under preemption.

 `forbid_cnt++` and `forbid_cnt--` are a load and a store with ticks allowed between, and
 the allocator's free list is torn from the start of a call to its end.  Still the switch
 and the shutdown find the list whole, one task at most is inside the allocator, and no
 worker ever sees another's bytes in its block.
 */
module Kern {
  import opened Exec
  import Allocator
  import Heap
  import FreeList
  import RoundRobin

  const BLOCK: nat := 256

  datatype Call = AllocCall | FreeCall

  /** `AllocMem` and `FreeMem` share their frame: Forbid, the allocator, Permit. */
  datatype Pc =
    | Top
    | ForbidLoad(c: Call)
    | ForbidStore(c: Call, loaded: nat)
    | Begin(c: Call)
    | End(c: Call)
    | PermitTest(c: Call)
    | PermitLoad(c: Call)
    | PermitStore(c: Call, loaded: nat)
    | Stamp(i: nat)
    | Work
    | Verify(i: nat, ok: bool)

  datatype Worker = Worker(pc: Pc, block: nat, ran: nat, good: nat, nulls: nat)

  /** `Torn` is the heap inside a call: the state it will have been called on, its list half rewritten. */
  datatype HeapView = Whole(s: Heap.State) | Torn(s: Heap.State)

  datatype System = System(k: Kernel, ws: seq<Worker>, heap: HeapView, mem: int -> nat, mark: seq<nat>)

  datatype Event = Alarm | Go(scribble: int -> nat)

  predicate Holding(pc: Pc) {
    pc.Begin? || pc.End? || pc.PermitTest? || pc.PermitLoad? || pc.PermitStore?
  }

  ghost predicate Wfk(y: System) {
    Wf(y.k) && |y.ws| == |y.k.tasks| == |y.mark|
  }

  ghost function Me(y: System): Worker
    requires Wfk(y) && y.k.cur != BOOT
  {
    y.ws[y.k.cur]
  }

  /** Bytes of a live block other than the caller's keep their value: the allocator writes free bytes only. */
  ghost predicate Spares(y: System, own: nat, scribble: int -> nat) {
    forall a, x: int :: Heap.IsLive(y.heap.s, a, x) && a != own ==> scribble(x) == y.mem(x)
  }

  ghost predicate Can(y: System, e: Event) {
    && Wfk(y)
    && (e.Go? ==> y.k.cur != BOOT && CanStep(y, Me(y), e.scribble))
  }

  ghost predicate CanStep(y: System, w: Worker, scribble: int -> nat) {
    match w.pc
    case Begin(_) => Spares(y, w.block, scribble)
    case End(c) => Spares(y, w.block, scribble) && (c.FreeCall? ==> w.block in y.heap.s.live)
    case _ => true
  }

  ghost function With(y: System, w: Worker): System
    requires Wfk(y) && y.k.cur != BOOT
  {
    y.(ws := y.ws[y.k.cur := w])
  }

  function Count(y: System, n: nat): System { y.(k := y.k.(forbid := n)) }

  /** Where `AllocMem` or `FreeMem` returns to. */
  function Return(w: Worker, c: Call): Worker {
    if c.FreeCall? then w.(pc := Top)
    else if w.block != 0 then w.(pc := Stamp(0))
    else w.(pc := Work, nulls := w.nulls + 1)
  }

  function Poke(mem: int -> nat, a: int, v: nat): int -> nat { x => if x == a then v else mem(x) }

  ghost function Do(y: System, e: Event, limit: nat): System
    requires Can(y, e)
  {
    if e.Alarm? then y.(k := Exec.Alarm(y.k, limit, true)) else Moved(y, e.scribble)
  }

  ghost function Moved(y: System, scribble: int -> nat): System
    requires Can(y, Go(scribble))
  {
    var w := Me(y);
    match w.pc
    case Top => With(y, w.(pc := ForbidLoad(AllocCall), ran := w.ran + 1))
    case ForbidLoad(c) => With(y, w.(pc := ForbidStore(c, y.k.forbid)))
    case ForbidStore(c, n) => Count(With(y, w.(pc := Begin(c))), n + 1)
    case Begin(c) => With(y, w.(pc := End(c))).(heap := Torn(y.heap.s), mem := scribble)
    case End(c) => Called(y, w, c).(mem := scribble)
    case PermitTest(c) => With(y, if y.k.forbid > 0 then w.(pc := PermitLoad(c)) else Return(w, c))
    case PermitLoad(c) => With(y, w.(pc := PermitStore(c, y.k.forbid)))
    case PermitStore(c, n) => Count(With(y, Return(w, c)), if n > 0 then n - 1 else 0)
    case Stamp(i) =>
      if i < BLOCK then With(y, w.(pc := Stamp(i + 1))).(mem := Poke(y.mem, w.block + i, y.mark[y.k.cur]))
      else With(y, w.(pc := Work))
    case Work => With(y, w.(pc := if w.block != 0 then Verify(0, true) else Top))
    case Verify(i, ok) =>
      if i < BLOCK then With(y, w.(pc := Verify(i + 1, ok && y.mem(w.block + i) == y.mark[y.k.cur])))
      else With(y, w.(pc := ForbidLoad(FreeCall), good := if ok then w.good + 1 else w.good))
  }

  /** The allocator call completed. */
  ghost function Called(y: System, w: Worker, c: Call): System
    requires Wfk(y) && y.k.cur != BOOT && (c.FreeCall? ==> w.block in y.heap.s.live)
  {
    if c.AllocCall? then
      With(y, w.(pc := PermitTest(c), block := Heap.Alloc(y.heap.s.free, BLOCK, false).0))
      .(heap := Whole(Heap.Step(y.heap.s, Heap.DoAlloc(BLOCK, false))))
    else
      With(y, w.(pc := PermitTest(c), block := 0)).(heap := Whole(Heap.Step(y.heap.s, Heap.DoFree(w.block))))
  }

  // --------------------------------------------------------------- the invariant

  /** A worker's program point agrees with its block and its counters; nothing loaded is stale. */
  predicate WorkerOk(w: Worker) {
    && (match w.pc
        case Top => w.block == 0
        case ForbidLoad(c) => c.AllocCall? <==> w.block == 0
        case ForbidStore(c, n) => n == 0 && (c.AllocCall? <==> w.block == 0)
        case Begin(c) => c.AllocCall? <==> w.block == 0
        case End(c) => c.AllocCall? <==> w.block == 0
        case PermitTest(c) => c.FreeCall? ==> w.block == 0
        case PermitLoad(c) => c.FreeCall? ==> w.block == 0
        case PermitStore(c, n) => n == 1 && (c.FreeCall? ==> w.block == 0)
        case Stamp(i) => w.block != 0 && i <= BLOCK
        case Work => true
        case Verify(i, ok) => w.block != 0 && i <= BLOCK && ok)
    && w.ran == w.good + w.nulls + (if InFlight(w) then 1 else 0)
  }

  /** A round has begun and its verdict is still to come. */
  predicate InFlight(w: Worker) {
    match w.pc
    case Top => false
    case ForbidLoad(c) => c.AllocCall?
    case ForbidStore(c, _) => c.AllocCall?
    case Begin(c) => c.AllocCall?
    case End(c) => c.AllocCall?
    case PermitTest(c) => c.AllocCall?
    case PermitLoad(c) => c.AllocCall?
    case PermitStore(c, _) => c.AllocCall?
    case Stamp(_) => true
    case Work => w.block != 0
    case Verify(_, _) => true
  }

  /** How many bytes of its block already carry the worker's mark. */
  function Stamped(w: Worker): nat {
    match w.pc
    case Stamp(i) => i
    case Work => if w.block != 0 then BLOCK else 0
    case Verify(_, _) => BLOCK
    case _ => 0
  }

  ghost predicate Owns(y: System, t: nat)
    requires t < |y.ws|
  {
    y.ws[t].block != 0 ==> y.ws[t].block in y.heap.s.live && y.heap.s.live[y.ws[t].block] == BLOCK
  }

  ghost predicate Intact(y: System, t: nat)
    requires t < |y.ws| == |y.mark|
  {
    forall x: int | y.ws[t].block <= x < y.ws[t].block + Stamped(y.ws[t]) :: y.mem(x) == y.mark[t]
  }

  ghost predicate Apart(y: System) {
    forall t, u | 0 <= t < |y.ws| && 0 <= u < |y.ws| && t != u :: y.ws[t].block == y.ws[u].block ==> y.ws[t].block == 0
  }

  ghost predicate SchedOk(y: System) {
    && Wfk(y) && Sound(y.k)
    && (forall t | 0 <= t < |y.ws| :: WorkerOk(y.ws[t]))
    && (forall t | 0 <= t < |y.ws| :: Holding(y.ws[t].pc) ==> t == y.k.cur)
    && (y.k.forbid == if y.k.cur != BOOT && Holding(Me(y).pc) then 1 else 0)
    && (y.heap.Torn? <==> y.k.cur != BOOT && Me(y).pc.End?)
  }

  ghost predicate HeapOk(y: System, lo: nat, hi: nat)
    requires Wfk(y)
  {
    && Heap.Tiles(y.heap.s, lo, hi)
    && (forall t | 0 <= t < |y.ws| :: Owns(y, t))
    && Apart(y)
    && (forall t | 0 <= t < |y.ws| :: Intact(y, t))
  }

  ghost predicate Inv(y: System, lo: nat, hi: nat) {
    SchedOk(y) && HeapOk(y, lo, hi)
  }

  lemma AlarmOk(y: System, limit: nat, lo: nat, hi: nat)
    requires Inv(y, lo, hi)
    ensures Inv(Do(y, Alarm, limit), lo, hi)
  {
    AlarmKeeps(y.k, limit);
    hide Exec.Alarm;
    hide Heap.Tiles;
    var r := Do(y, Alarm, limit);
    forall t | 0 <= t < |y.ws| ensures Owns(r, t) && Intact(r, t) { assert Owns(y, t) && Intact(y, t); }
  }

  /** The running worker's record after its step. */
  lemma MovedMe(y: System, scribble: int -> nat)
    requires SchedOk(y) && Can(y, Go(scribble)) && Intact(y, y.k.cur)
    ensures var r := Moved(y, scribble); Wfk(r) && r.k.cur == y.k.cur && WorkerOk(r.ws[y.k.cur])
  {
    hide Exec.Sound;
    assert WorkerOk(y.ws[y.k.cur]);
  }

  lemma MovedSched(y: System, scribble: int -> nat)
    requires SchedOk(y) && Can(y, Go(scribble)) && Intact(y, y.k.cur)
    ensures SchedOk(Moved(y, scribble))
  {
    MovedMe(y, scribble);
    var r := Moved(y, scribble);
    assert Me(y).pc.PermitStore? ==> Me(y).pc.loaded == 1 by { assert WorkerOk(y.ws[y.k.cur]); }
    assert Me(y).pc.ForbidStore? ==> Me(y).pc.loaded == 0 by { assert WorkerOk(y.ws[y.k.cur]); }
    assert Sound(r.k) by { SameLists(y.k, r.k); }
    hide Exec.Sound;
    hide WorkerOk;
    hide Heap.Step;
    hide Heap.Alloc;
    hide Spares;
  }

  /** A byte of one worker's block is in no other live block. */
  lemma OwnByte(y: System, t: nat, x: int, lo: nat, hi: nat)
    requires Wfk(y) && HeapOk(y, lo, hi) && t < |y.ws| && y.ws[t].block != 0
    requires y.ws[t].block <= x < y.ws[t].block + BLOCK
    ensures Heap.IsLive(y.heap.s, y.ws[t].block, x)
    ensures forall u | 0 <= u < |y.ws| && u != t && y.ws[u].block != 0 :: !(y.ws[u].block <= x < y.ws[u].block + BLOCK)
  {
    assert Owns(y, t);
    BlockHolds(y.heap.s, lo, hi, y.ws[t].block, x);
    forall u | 0 <= u < |y.ws| && u != t && y.ws[u].block != 0
      ensures !(y.ws[u].block <= x < y.ws[u].block + BLOCK)
    {
      assert Owns(y, u) && Apart(y);
      BlockHolds(y.heap.s, lo, hi, y.ws[u].block, x);
    }
  }

  lemma BlockHolds(s: Heap.State, lo: nat, hi: nat, a: nat, x: int)
    requires Heap.Tiles(s, lo, hi) && a in s.live && s.live[a] == BLOCK
    ensures Heap.IsLive(s, a, x) <==> a <= x < a + BLOCK
  {
  }

  /** A program step outside the allocator. */
  lemma OutsideHeap(y: System, scribble: int -> nat, lo: nat, hi: nat)
    requires Inv(y, lo, hi) && Can(y, Go(scribble)) && !Me(y).pc.Begin? && !Me(y).pc.End? && !Me(y).pc.Stamp?
    ensures HeapOk(Moved(y, scribble), lo, hi)
  {
    hide Heap.Tiles;
    hide Exec.Sound;
    var r := Moved(y, scribble);
    assert WorkerOk(y.ws[y.k.cur]);
    forall t | 0 <= t < |y.ws| ensures Owns(r, t) && Intact(r, t) { assert Owns(y, t) && Intact(y, t); }
  }

  lemma StampHeap(y: System, scribble: int -> nat, lo: nat, hi: nat)
    requires Inv(y, lo, hi) && Can(y, Go(scribble)) && Me(y).pc.Stamp?
    ensures HeapOk(Moved(y, scribble), lo, hi)
  {
    hide Exec.Sound;
    var r, w := Moved(y, scribble), Me(y);
    assert WorkerOk(y.ws[y.k.cur]);
    if w.pc.i < BLOCK { OwnByte(y, y.k.cur, w.block + w.pc.i, lo, hi); }
    hide Heap.Tiles;
    forall t | 0 <= t < |y.ws| ensures Owns(r, t) && Intact(r, t) {
      assert Owns(y, t) && Intact(y, t) && WorkerOk(y.ws[t]);
    }
  }

  /** What the others hold survives the allocator's writes. */
  lemma OthersSpared(y: System, scribble: int -> nat, lo: nat, hi: nat, t: nat)
    requires Inv(y, lo, hi) && y.k.cur != BOOT && Spares(y, Me(y).block, scribble) && t < |y.ws| && t != y.k.cur
    ensures forall x: int | y.ws[t].block <= x < y.ws[t].block + Stamped(y.ws[t]) :: scribble(x) == y.mark[t]
  {
    assert Owns(y, t) && Intact(y, t) && WorkerOk(y.ws[t]);
    if y.ws[t].block != 0 {
      forall x: int | y.ws[t].block <= x < y.ws[t].block + Stamped(y.ws[t]) ensures scribble(x) == y.mark[t] {
        BlockHolds(y.heap.s, lo, hi, y.ws[t].block, x);
        assert Apart(y);
      }
    }
  }

  lemma BeginHeap(y: System, scribble: int -> nat, lo: nat, hi: nat)
    requires Inv(y, lo, hi) && Can(y, Go(scribble)) && Me(y).pc.Begin?
    ensures HeapOk(Moved(y, scribble), lo, hi)
  {
    hide Heap.Tiles;
    hide Exec.Sound;
    var r := Moved(y, scribble);
    forall t | 0 <= t < |y.ws| ensures Owns(r, t) && Intact(r, t) {
      assert Owns(y, t);
      if t != y.k.cur { OthersSpared(y, scribble, lo, hi, t); }
    }
  }

  /** The block handed out was live nowhere before. */
  lemma AllocFresh(s: Heap.State, lo: nat, hi: nat)
    requires FreeList.ADDRESS_SPACE > hi && Heap.RegionOk(lo, hi) && Heap.Tiles(s, lo, hi)
    ensures var p := Heap.Alloc(s.free, BLOCK, false).0; p !in s.live
  {
    var p := Heap.Alloc(s.free, BLOCK, false).0;
    if p != 0 {
      FreeList.RoundUpExact(BLOCK);
      var k := Heap.AllocTakes(s.free, lo, hi, BLOCK, false);
      assert FreeList.OnUnits(s.free[k], lo, hi);
      assert FreeList.InChunk(s.free[k], p) && FreeList.Covers(s.free, p);
      assert p in s.live ==> Heap.IsLive(s, p, p);
    }
  }

  lemma EndAllocHeap(y: System, scribble: int -> nat, lo: nat, hi: nat)
    requires Heap.RegionOk(lo, hi) && Inv(y, lo, hi) && Can(y, Go(scribble)) && Me(y).pc == End(AllocCall)
    ensures HeapOk(Moved(y, scribble), lo, hi)
  {
    AllocFresh(y.heap.s, lo, hi);
    Heap.AllocKeeps(y.heap.s, lo, hi, BLOCK, false);
    hide Heap.Tiles;
    hide Heap.Alloc;
    hide Exec.Sound;
    var r := Moved(y, scribble);
    forall t | 0 <= t < |y.ws| ensures Owns(r, t) && Intact(r, t) {
      assert Owns(y, t);
      if t != y.k.cur { OthersSpared(y, scribble, lo, hi, t); }
    }
    forall t | 0 <= t < |y.ws| ensures y.ws[t].block != 0 ==> y.ws[t].block in y.heap.s.live { assert Owns(y, t); }
  }

  lemma EndFreeHeap(y: System, scribble: int -> nat, lo: nat, hi: nat)
    requires Heap.RegionOk(lo, hi) && Inv(y, lo, hi) && Can(y, Go(scribble)) && Me(y).pc == End(FreeCall)
    ensures HeapOk(Moved(y, scribble), lo, hi)
  {
    Heap.FreeKeeps(y.heap.s, lo, hi, Me(y).block);
    hide Heap.Tiles;
    hide Heap.Free;
    hide Exec.Sound;
    var r := Moved(y, scribble);
    assert WorkerOk(y.ws[y.k.cur]);
    forall t | 0 <= t < |y.ws| ensures Owns(r, t) && Intact(r, t) {
      assert Owns(y, t);
      if t != y.k.cur { OthersSpared(y, scribble, lo, hi, t); }
    }
  }

  lemma DoKeeps(y: System, e: Event, limit: nat, lo: nat, hi: nat)
    requires Heap.RegionOk(lo, hi) && Inv(y, lo, hi) && Can(y, e)
    ensures Inv(Do(y, e, limit), lo, hi)
  {
    if e.Alarm? {
      AlarmOk(y, limit, lo, hi);
    } else {
      assert Intact(y, y.k.cur);
      MovedSched(y, e.scribble);
      match Me(y).pc {
        case Begin(_) => BeginHeap(y, e.scribble, lo, hi);
        case End(c) =>
          if c.AllocCall? { EndAllocHeap(y, e.scribble, lo, hi); } else { EndFreeHeap(y, e.scribble, lo, hi); }
        case Stamp(_) => StampHeap(y, e.scribble, lo, hi);
        case _ => OutsideHeap(y, e.scribble, lo, hi);
      }
    }
  }

  // --------------------------------------------------------------------- all runs

  ghost predicate ValidEvents(y: System, es: seq<Event>, limit: nat)
    decreases |es|
  {
    es == [] || (Can(y, es[0]) && ValidEvents(Do(y, es[0], limit), es[1..], limit))
  }

  ghost function Played(y: System, es: seq<Event>, limit: nat): System
    requires ValidEvents(y, es, limit)
    decreases |es|
  {
    if es == [] then y else Played(Do(y, es[0], limit), es[1..], limit)
  }

  lemma {:induction false} PlayedOk(y: System, es: seq<Event>, limit: nat, lo: nat, hi: nat)
    requires Heap.RegionOk(lo, hi) && Inv(y, lo, hi) && ValidEvents(y, es, limit)
    ensures Inv(Played(y, es, limit), lo, hi)
    decreases |es|
  {
    if es != [] {
      DoKeeps(y, es[0], limit, lo, hi);
      PlayedOk(Do(y, es[0], limit), es[1..], limit, lo, hi);
    }
  }

  /** The machine armed: workers spawned, the heap as `main` left it. */
  ghost function Armed(pris: seq<int>, heap: Heap.State, mem: int -> nat, mark: seq<nat>): System {
    System(RoundRobin.Initial(pris), seq(|pris|, i => Worker(Top, 0, 0, 0, 0)), Whole(heap), mem, mark)
  }

  lemma ArmedOk(pris: seq<int>, heap: Heap.State, mem: int -> nat, mark: seq<nat>, lo: nat, hi: nat)
    requires |mark| == |pris| && Heap.Tiles(heap, lo, hi)
    ensures Inv(Armed(pris, heap, mem, mark), lo, hi)
  {
    RoundRobin.InitialSound(pris);
  }

  /** The handler gets past its guards: it will shut down or switch, even if back to the same task. */
  predicate MaySwitch(k: Kernel) {
    k.on && k.inited && k.forbid == 0
  }

  /** A tick past the guards finds nobody in a critical section and the free list whole and canonical. */
  lemma SwitchFindsHeapWhole(y: System, lo: nat, hi: nat)
    requires Inv(y, lo, hi) && MaySwitch(y.k)
    ensures y.heap.Whole? && Heap.Tiles(y.heap.s, lo, hi)
    ensures forall t | 0 <= t < |y.ws| :: !Holding(y.ws[t].pc)
  {
    assert forall t | 0 <= t < |y.ws| :: Holding(y.ws[t].pc) ==> t == y.k.cur;
  }

  /** Any other tick leaves tasks, lists and the running task alone. */
  lemma OtherTicksTouchNothing(y: System, limit: nat)
    requires Wfk(y) && !MaySwitch(y.k)
    ensures Do(y, Alarm, limit) == y.(k := y.k.(ticks := y.k.ticks + 1, inited := y.k.inited || y.k.on))
  {
  }

  // ------------------------------------------- the allocator's writes spare live blocks

  function Unit(x: int): int { x / 16 * 16 }

  /** Memory of 16-byte units read byte by byte, for any encoding of a unit. */
  predicate ReadsAs(mem: int -> nat, ram: Allocator.Memory, x: int, bytes: (Allocator.Cell, int) -> nat) {
    Unit(x) in ram ==> mem(x) == bytes(ram[Unit(x)], x - Unit(x))
  }

  lemma UnitOfLive(s: Heap.State, lo: nat, hi: nat, a: nat, x: int)
    requires Heap.Tiles(s, lo, hi) && Heap.IsLive(s, a, x)
    ensures Heap.IsLive(s, a, Unit(x)) && !FreeList.Covers(s.free, Unit(x))
  {
    assert FreeList.OnUnits(FreeList.Block(a, s.live[a]), lo, hi);
  }

  /** What `Allocator.MemHeader.Allocate` promises of memory makes its writes a scribble of the model. */
  lemma AllocateSpares(y: System, scribble: int -> nat, before: Allocator.Memory, after: Allocator.Memory,
                       bytes: (Allocator.Cell, int) -> nat, lo: nat, hi: nat)
    requires Heap.Tiles(y.heap.s, lo, hi) && before.Keys == after.Keys
    requires forall a | a in before && !FreeList.Covers(y.heap.s.free, a) :: after[a] == before[a]
    requires forall a, x: int | Heap.IsLive(y.heap.s, a, x) :: Unit(x) in before
    requires forall x: int :: ReadsAs(y.mem, before, x, bytes) && ReadsAs(scribble, after, x, bytes)
    ensures Spares(y, 0, scribble)
  {
    forall a, x: int | Heap.IsLive(y.heap.s, a, x) && a != 0 ensures scribble(x) == y.mem(x) {
      UnitOfLive(y.heap.s, lo, hi, a, x);
      assert ReadsAs(y.mem, before, x, bytes) && ReadsAs(scribble, after, x, bytes);
    }
  }

  /** And so does what `Allocator.MemHeader.Deallocate` promises, for the blocks of everyone but the caller. */
  lemma DeallocateSpares(y: System, own: nat, scribble: int -> nat, before: Allocator.Memory, after: Allocator.Memory,
                         bytes: (Allocator.Cell, int) -> nat, lo: nat, hi: nat)
    requires Heap.RegionOk(lo, hi) && Heap.Tiles(y.heap.s, lo, hi) && own in y.heap.s.live && before.Keys == after.Keys
    requires var freed := Heap.Free(y.heap.s.free, own, y.heap.s.live[own]).1;
      forall a | a in before && !FreeList.Covers(freed, a) :: after[a] == before[a]
    requires forall a, x: int | Heap.IsLive(y.heap.s, a, x) :: Unit(x) in before
    requires forall x: int :: ReadsAs(y.mem, before, x, bytes) && ReadsAs(scribble, after, x, bytes)
    ensures Spares(y, own, scribble)
  {
    var t := Heap.Step(y.heap.s, Heap.DoFree(own));
    Heap.FreeKeeps(y.heap.s, lo, hi, own);
    forall a, x: int | Heap.IsLive(y.heap.s, a, x) && a != own ensures scribble(x) == y.mem(x) {
      assert Heap.IsLive(t, a, x);
      UnitOfLive(t, lo, hi, a, x);
      assert ReadsAs(y.mem, before, x, bytes) && ReadsAs(scribble, after, x, bytes);
    }
  }

  /** The running worker always has a next step, and never frees a block it does not hold. */
  lemma NeverStuck(y: System, lo: nat, hi: nat)
    requires Inv(y, lo, hi) && y.k.cur != BOOT
    ensures Can(y, Go(y.mem))
  {
    assert WorkerOk(y.ws[y.k.cur]) && Owns(y, y.k.cur);
  }

  /** In every reachable state at most one task is in the allocator, and only the running one. */
  lemma OneInAllocator(y: System, lo: nat, hi: nat, t: nat)
    requires Inv(y, lo, hi) && t < |y.ws| && (y.ws[t].pc.Begin? || y.ws[t].pc.End?)
    ensures t == y.k.cur && y.k.forbid == 1
    ensures forall u | 0 <= u < |y.ws| && u != t :: !Holding(y.ws[u].pc)
  {
    assert Holding(y.ws[t].pc);
  }

  /**
   From any heap, for any workers, under every schedule: every verified round is good,
   so a worker that was never refused memory has `good` within one of `ran`.
   */
  lemma MarksSurvive(pris: seq<int>, heap: Heap.State, mem: int -> nat, mark: seq<nat>, lo: nat, hi: nat,
                     es: seq<Event>, limit: nat, t: nat)
    requires Heap.RegionOk(lo, hi) && Heap.Tiles(heap, lo, hi) && |mark| == |pris| && t < |pris|
    requires ValidEvents(Armed(pris, heap, mem, mark), es, limit)
    ensures var y := Played(Armed(pris, heap, mem, mark), es, limit);
      && t < |y.ws|
      && 0 <= y.ws[t].ran - y.ws[t].good - y.ws[t].nulls <= 1
      && (y.ws[t].pc.Verify? ==> y.ws[t].pc.ok)
      && Heap.Tiles(y.heap.s, lo, hi)
  {
    ArmedOk(pris, heap, mem, mark, lo, hi);
    PlayedSize(Armed(pris, heap, mem, mark), es, limit);
    PlayedOk(Armed(pris, heap, mem, mark), es, limit, lo, hi);
    assert WorkerOk(Played(Armed(pris, heap, mem, mark), es, limit).ws[t]);
  }

  lemma {:induction false} PlayedSize(y: System, es: seq<Event>, limit: nat)
    requires ValidEvents(y, es, limit)
    ensures |Played(y, es, limit).ws| == |y.ws|
    decreases |es|
  {
    if es != [] { PlayedSize(Do(y, es[0], limit), es[1..], limit); }
  }
}
