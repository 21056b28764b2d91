/**
 What `main` of the worker demo checks after the last tick: the run ends, the heap is whole then,
 no block is lost, and the free memory falls short of the start by one block per block in hand.
 */
module KernBooks {
  import opened Exec
  import opened Numbers
  import opened Kern
  import FreeList
  import Heap
  import RoundRobin

  // -------------------------------------------------------------------- shutdown

  /** The system before event `i` of a run. */
  ghost predicate At(y: System, es: seq<Event>, limit: nat, i: nat, a: System) {
    i <= |es| && ValidEvents(y, es[..i], limit) && Played(y, es[..i], limit) == a
  }

  lemma AtFirst(y: System, es: seq<Event>, limit: nat)
    ensures At(y, es, limit, 0, y)
  {
    assert es[..0] == [];
  }

  lemma AtLater(y: System, es: seq<Event>, limit: nat, i: nat, a: System)
    requires es != [] && Can(y, es[0]) && i < |es|
    ensures At(Do(y, es[0], limit), es[1..], limit, i, a) <==> At(y, es, limit, i + 1, a)
  {
    hide Can;
    hide Do;
    assert es[..i + 1][1..] == es[1..][..i] && es[..i + 1][0] == es[0];
  }

  /**
   A run that ends with the scheduler off was shut down by one tick, the first at or after the
   limit that found the count at 0, and nothing but ticks has happened since.
   */
  lemma {:induction false} StopsAt(y: System, es: seq<Event>, limit: nat) returns (i: nat, a: System)
    requires ValidEvents(y, es, limit) && y.k.on && !Played(y, es, limit).k.on
    ensures i < |es| && es[i] == Event.Alarm && At(y, es, limit, i, a) && Stops(a.k, limit)
    ensures forall j: nat, b | j < i && At(y, es, limit, j, b) ::
      b.k.on && (es[j] == Event.Alarm ==> !Stops(b.k, limit))
    ensures forall j | i < j < |es| :: es[j] == Event.Alarm
    ensures Played(y, es, limit) ==
            a.(k := a.k.(ticks := a.k.ticks + |es| - i, on := false, cur := BOOT, boot := TaskState.Run))
    decreases |es|
  {
    var next := Do(y, es[0], limit);
    AtFirst(y, es, limit);
    forall b | At(y, es, limit, 0, b) ensures b == y {}
    StopStep(y, es[0], limit);
    if next.k.on {
      i, a := StopsAt(next, es[1..], limit);
      AtLater(y, es, limit, i, a);
      forall j: nat, b | j < i + 1 && At(y, es, limit, j, b)
        ensures b.k.on && (es[j] == Event.Alarm ==> !Stops(b.k, limit))
      {
        if j > 0 { AtLater(y, es, limit, j - 1, b); }
      }
      i := i + 1;
    } else {
      i, a := 0, y;
      OffForGood(next, es[1..], limit);
      forall j | 0 < j < |es| ensures es[j] == Event.Alarm { assert es[j] == es[1..][j - 1]; }
    }
  }

  lemma StopStep(y: System, e: Event, limit: nat)
    requires Can(y, e) && y.k.on
    ensures var r := Do(y, e, limit);
      && (r.k.on <==> !(e.Alarm? && Stops(y.k, limit)))
      && (!r.k.on ==> r == y.(k := y.k.(ticks := y.k.ticks + 1, on := false, cur := BOOT, boot := TaskState.Run)))
  {
    if e.Alarm? { AlarmStops(y.k, limit, true); }
  }

  /** Once off, ticks are all that can happen, and they only count. */
  lemma {:induction false} OffForGood(y: System, es: seq<Event>, limit: nat)
    requires ValidEvents(y, es, limit) && !y.k.on && y.k.cur == BOOT
    ensures forall j | 0 <= j < |es| :: es[j] == Event.Alarm
    ensures Played(y, es, limit) == y.(k := y.k.(ticks := y.k.ticks + |es|))
    decreases |es|
  {
    if es != [] {
      AlarmStops(y.k, limit, true);
      OffForGood(Do(y, es[0], limit), es[1..], limit);
      forall j | 0 <= j < |es| ensures es[j] == Event.Alarm { assert j > 0 ==> es[j] == es[1..][j - 1]; }
    }
  }

  // ------------------------------------------------------------------- the books

  function InHand(ws: seq<Worker>): nat {
    if ws == [] then 0 else InHand(ws[1..]) + One(ws[0].block != 0)
  }

  lemma {:induction false} InHandMoves(ws: seq<Worker>, t: nat, w: Worker)
    requires t < |ws|
    ensures InHand(ws[t := w]) == InHand(ws) - One(ws[t].block != 0) + One(w.block != 0)
  {
    if t > 0 {
      assert ws[t := w][1..] == ws[1..][t - 1 := w];
      InHandMoves(ws[1..], t - 1, w);
    }
  }

  lemma {:induction false} NoneInHand(ws: seq<Worker>)
    requires forall t | 0 <= t < |ws| :: ws[t].block == 0
    ensures InHand(ws) == 0
  {
    if ws != [] { NoneInHand(ws[1..]); }
  }

  predicate Holds(y: System, a: nat, t: nat) { t < |y.ws| && y.ws[t].block == a }

  /** The live blocks are those there were at the start, as big as then, and those the workers hold. */
  ghost predicate NoLeak(y: System, start: Heap.State) {
    && (forall a :: a in y.heap.s.live <==> a in start.live || (a != 0 && exists t :: Holds(y, a, t)))
    && (forall a | a in start.live :: y.heap.s.live[a] == start.live[a])
  }

  /** No worker holds a block that was live at the start. */
  ghost predicate Foreign(y: System, start: Heap.State) {
    forall t | 0 <= t < |y.ws| :: y.ws[t].block !in start.live
  }

  ghost predicate Books(y: System, start: Heap.State) {
    && FreeList.Sum(y.heap.s.free) + BLOCK * InHand(y.ws) == FreeList.Sum(start.free)
    && NoLeak(y, start) && Foreign(y, start)
  }

  lemma SameBooks(y: System, r: System, start: Heap.State)
    requires Books(y, start) && r.heap.s == y.heap.s && |r.ws| == |y.ws| && InHand(r.ws) == InHand(y.ws)
    requires forall t | 0 <= t < |y.ws| :: r.ws[t].block == y.ws[t].block
    ensures Books(r, start)
  {
    forall a, t ensures Holds(r, a, t) <==> Holds(y, a, t) {}
  }

  lemma OutsideBooks(y: System, e: Event, limit: nat, start: Heap.State)
    requires Books(y, start) && Can(y, e) && (e.Go? ==> !Me(y).pc.End?)
    ensures Books(Do(y, e, limit), start)
  {
    var r := Do(y, e, limit);
    if e.Go? {
      InHandMoves(y.ws, y.k.cur, r.ws[y.k.cur]);
      assert r.ws == y.ws[y.k.cur := r.ws[y.k.cur]];
    }
    hide Books;
    SameBooks(y, r, start);
  }

  lemma RoundBlock()
    ensures FreeList.RoundUp(BLOCK) == BLOCK
  {
  }

  lemma AllocSum(s: Heap.State, lo: nat, hi: nat)
    requires Heap.RegionOk(lo, hi) && Heap.Tiles(s, lo, hi)
    ensures var (p, l) := Heap.Alloc(s.free, BLOCK, false);
      FreeList.Sum(l) == FreeList.Sum(s.free) - if p != 0 then BLOCK else 0
  {
    assert FreeList.Canonical(s.free, lo, hi);
    hide Heap.Tiles;
    hide FreeList.Canonical;
    Heap.AllocNullIff(s.free, lo, hi, BLOCK, false);
    hide Heap.Alloc;
    if Heap.Alloc(s.free, BLOCK, false).0 != 0 {
      var k := Heap.AllocTakes(s.free, lo, hi, BLOCK, false);
      RoundBlock();
      FreeList.CarveSum(s.free, k, BLOCK);
    }
  }

  /** Worker `c` comes by block `p`, which was live nowhere. */
  lemma HandedOut(y: System, r: System, start: Heap.State, c: nat, p: nat)
    requires NoLeak(y, start) && Foreign(y, start) && c < |y.ws| == |r.ws| && p != 0 && p !in y.heap.s.live
    requires forall a :: a in r.heap.s.live <==> a in y.heap.s.live || a == p
    requires forall a | a in y.heap.s.live :: r.heap.s.live[a] == y.heap.s.live[a]
    requires forall t | 0 <= t < |y.ws| :: r.ws[t].block == if t == c then p else y.ws[t].block
    requires y.ws[c].block == 0
    ensures NoLeak(r, start) && Foreign(r, start)
  {
    assert Holds(r, p, c);
    forall a, t | a != 0 && a != p ensures Holds(r, a, t) <==> Holds(y, a, t) {}
  }

  /** Worker `c` gives up its block, which nobody else holds. */
  lemma TakenBack(y: System, r: System, start: Heap.State, c: nat)
    requires NoLeak(y, start) && Foreign(y, start) && c < |y.ws| == |r.ws|
    requires y.ws[c].block != 0 && forall t | 0 <= t < |y.ws| && t != c :: y.ws[t].block != y.ws[c].block
    requires forall a :: a in r.heap.s.live <==> a in y.heap.s.live && a != y.ws[c].block
    requires forall a | a in r.heap.s.live :: r.heap.s.live[a] == y.heap.s.live[a]
    requires forall t | 0 <= t < |y.ws| :: r.ws[t].block == if t == c then 0 else y.ws[t].block
    requires 0 !in start.live
    ensures NoLeak(r, start) && Foreign(r, start)
  {
    forall a, t | a != 0 && a != y.ws[c].block ensures Holds(r, a, t) <==> Holds(y, a, t) {}
    forall t ensures !Holds(r, y.ws[c].block, t) {}
  }

  lemma AllocBooks(y: System, scribble: int -> nat, lo: nat, hi: nat, start: Heap.State)
    requires Heap.RegionOk(lo, hi) && Inv(y, lo, hi) && Books(y, start)
    requires Can(y, Go(scribble)) && Me(y).pc == End(AllocCall)
    ensures Books(Moved(y, scribble), start)
  {
    var r, c := Moved(y, scribble), y.k.cur;
    var p := Heap.Alloc(y.heap.s.free, BLOCK, false).0;
    AllocSum(y.heap.s, lo, hi);
    AllocFresh(y.heap.s, lo, hi);
    assert WorkerOk(y.ws[c]);
    InHandMoves(y.ws, c, r.ws[c]);
    AllocNullKeeps(y.heap.s, lo, hi);
    hide Inv;
    hide Heap.Alloc;
    hide FreeList.Sum;
    hide InHand;
    if p != 0 {
      HandedOut(y, r, start, c, p);
    } else {
      forall a, t ensures Holds(r, a, t) <==> Holds(y, a, t) {}
    }
  }

  lemma AllocNullKeeps(s: Heap.State, lo: nat, hi: nat)
    requires Heap.RegionOk(lo, hi) && Heap.Tiles(s, lo, hi)
    ensures Heap.Alloc(s.free, BLOCK, false).0 == 0 ==> Heap.Alloc(s.free, BLOCK, false).1 == s.free
  {
    Heap.AllocNullIff(s.free, lo, hi, BLOCK, false);
  }

  lemma FreeSum(s: Heap.State, lo: nat, hi: nat, b: nat)
    requires Heap.RegionOk(lo, hi) && Heap.Tiles(s, lo, hi) && b in s.live && s.live[b] == BLOCK
    ensures FreeList.Sum(Heap.Free(s.free, b, BLOCK).1) == FreeList.Sum(s.free) + BLOCK
  {
    Heap.LiveBlockIsAccepted(s, lo, hi, b);
    var c := FreeList.Block(b, BLOCK);
    forall x: int | FreeList.InChunk(c, x) ensures !FreeList.Covers(s.free, x) { assert Heap.IsLive(s, b, x); }
    FreeList.OverlapsCovers(s.free, c, lo, hi);
    hide Heap.Free;
    FreeList.ReleaseCorrect(s.free, lo, hi, c);
  }

  lemma FreeBooks(y: System, scribble: int -> nat, lo: nat, hi: nat, start: Heap.State)
    requires Heap.RegionOk(lo, hi) && Inv(y, lo, hi) && Books(y, start)
    requires Can(y, Go(scribble)) && Me(y).pc == End(FreeCall)
    ensures Books(Moved(y, scribble), start)
  {
    var r, c := Moved(y, scribble), y.k.cur;
    assert WorkerOk(y.ws[c]) && Owns(y, c) && Apart(y);
    FreeSum(y.heap.s, lo, hi, y.ws[c].block);
    InHandMoves(y.ws, c, r.ws[c]);
    assert 0 !in y.heap.s.live;
    hide Inv;
    hide Heap.Free;
    hide FreeList.Sum;
    hide InHand;
    TakenBack(y, r, start, c);
  }

  lemma DoBooks(y: System, e: Event, limit: nat, lo: nat, hi: nat, start: Heap.State)
    requires Heap.RegionOk(lo, hi) && Inv(y, lo, hi) && Books(y, start) && Can(y, e)
    ensures Books(Do(y, e, limit), start)
  {
    if e.Go? && Me(y).pc == End(AllocCall) { AllocBooks(y, e.scribble, lo, hi, start); }
    else if e.Go? && Me(y).pc == End(FreeCall) { FreeBooks(y, e.scribble, lo, hi, start); }
    else { OutsideBooks(y, e, limit, start); }
  }

  lemma {:induction false} PlayedBooks(y: System, es: seq<Event>, limit: nat, lo: nat, hi: nat, start: Heap.State)
    requires Heap.RegionOk(lo, hi) && Inv(y, lo, hi) && Books(y, start) && ValidEvents(y, es, limit)
    ensures Books(Played(y, es, limit), start)
    decreases |es|
  {
    hide Inv;
    hide Books;
    if es != [] {
      DoKeeps(y, es[0], limit, lo, hi);
      DoBooks(y, es[0], limit, lo, hi, start);
      PlayedBooks(Do(y, es[0], limit), es[1..], limit, lo, hi, start);
    }
  }

  /**
   At any moment of any run the live blocks are those of the start and those in the workers'
   hands, and the free bytes are those of the start less one block each.
   */
  lemma BooksBalance(pris: seq<int>, heap: Heap.State, mem: int -> nat, mark: seq<nat>, lo: nat, hi: nat,
                     es: seq<Event>, limit: nat)
    requires Heap.RegionOk(lo, hi) && Heap.Tiles(heap, lo, hi) && |mark| == |pris|
    requires ValidEvents(Armed(pris, heap, mem, mark), es, limit)
    ensures var y := Played(Armed(pris, heap, mem, mark), es, limit);
      && FreeList.Sum(y.heap.s.free) == FreeList.Sum(heap.free) - BLOCK * InHand(y.ws)
      && NoLeak(y, heap)
  {
    var y := Armed(pris, heap, mem, mark);
    ArmedOk(pris, heap, mem, mark, lo, hi);
    NoneInHand(y.ws);
    forall a, t ensures a != 0 ==> !Holds(y, a, t) {}
    PlayedBooks(y, es, limit, lo, hi, heap);
  }

  /** Once no worker holds a block the free list is the one the run started with. */
  lemma AllBackIsStart(pris: seq<int>, heap: Heap.State, mem: int -> nat, mark: seq<nat>, lo: nat, hi: nat,
                       es: seq<Event>, limit: nat)
    requires Heap.RegionOk(lo, hi) && Heap.Tiles(heap, lo, hi) && |mark| == |pris|
    requires ValidEvents(Armed(pris, heap, mem, mark), es, limit)
    requires var ws := Played(Armed(pris, heap, mem, mark), es, limit).ws;
      forall t | 0 <= t < |ws| :: ws[t].block == 0
    ensures Played(Armed(pris, heap, mem, mark), es, limit).heap.s == heap
  {
    var y := Played(Armed(pris, heap, mem, mark), es, limit);
    BooksBalance(pris, heap, mem, mark, lo, hi, es, limit);
    ArmedOk(pris, heap, mem, mark, lo, hi);
    PlayedOk(Armed(pris, heap, mem, mark), es, limit, lo, hi);
    PlayedSize(Armed(pris, heap, mem, mark), es, limit);
    assert y.heap.s.live == heap.live;
    hide Played;
    SameLiveSameFree(y.heap.s, heap, lo, hi);
  }

  lemma SameLiveSameFree(s: Heap.State, t: Heap.State, lo: nat, hi: nat)
    requires Heap.Tiles(s, lo, hi) && Heap.Tiles(t, lo, hi) && s.live == t.live
    ensures s == t
  {
    forall x: int ensures FreeList.Covers(s.free, x) <==> FreeList.Covers(t.free, x) {
      assert lo <= x < hi ==> (FreeList.Covers(s.free, x) <==> !Heap.LiveByte(s, x));
      assert lo <= x < hi ==> (FreeList.Covers(t.free, x) <==> !Heap.LiveByte(t, x));
      forall a ensures Heap.IsLive(s, a, x) <==> Heap.IsLive(t, a, x) {}
    }
    FreeList.CanonicalUnique(s.free, t.free, lo, hi);
  }

  /** A worker is refused exactly when no free chunk holds its block. */
  lemma RefusedIff(y: System, scribble: int -> nat, lo: nat, hi: nat)
    requires Heap.RegionOk(lo, hi) && Inv(y, lo, hi) && Can(y, Go(scribble)) && Me(y).pc == End(AllocCall)
    ensures |Moved(y, scribble).ws| == |y.ws|
    ensures Moved(y, scribble).ws[y.k.cur].block == 0 <==>
              forall i | 0 <= i < |y.heap.s.free| :: y.heap.s.free[i].bytes < BLOCK
  {
    RoundBlock();
    Heap.AllocNullIff(y.heap.s.free, lo, hi, BLOCK, false);
    hide Heap.Alloc;
    hide SchedOk;
  }
}
