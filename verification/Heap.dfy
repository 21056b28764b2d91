/**
 The allocator's two calls as functions of the free list, and whole runs of them.

 A heap state pairs the free list with the blocks handed out and not yet returned.
 `RunKeeps` says that along every run of valid calls the free list stays canonical
 and, together with the live blocks, tiles the region; `AllFreedIsInitial` and
 `LiveBlockIsAccepted` are the two consequences the memory test relies on.
 */
module Heap {
  import opened FreeList

  /** `Allocate`: the address returned (0 for NULL) and the new free list. */
  function Alloc(l: seq<Chunk>, size: nat, reverse: bool): (nat, seq<Chunk>) {
    var n := RoundUp(size);
    if size == 0 || Sum(l) < n then (0, l)
    else
      var k := Pick(l, n, reverse);
      if k < 0 then (0, l) else (l[k].addr, Carve(l, k, n))
  }

  /** `Deallocate`: accepted or refused, and the new free list. */
  ghost function Free(l: seq<Chunk>, addr: nat, size: nat): (bool, seq<Chunk>) {
    if addr == 0 || size == 0 then (true, l)
    else if Overlaps(l, Block(addr, size)) then (false, l)
    else (true, Release(l, Block(addr, size)))
  }

  /** NULL for a nonzero size means exactly that no single chunk is large enough. */
  lemma AllocNullIff(l: seq<Chunk>, lo: nat, hi: nat, size: nat, reverse: bool)
    requires Canonical(l, lo, hi) && 0 < lo && 0 < size
    ensures Alloc(l, size, reverse).0 == 0 <==> NoFit(l, RoundUp(size))
    ensures Alloc(l, size, reverse).0 == 0 ==> Alloc(l, size, reverse).1 == l
  {
    var n := RoundUp(size);
    var k := Pick(l, n, reverse);
    if k >= 0 {
      SumBounds(l, k);
      assert OnUnits(l[k], lo, hi);
    } else if Sum(l) >= n {
      assert NoFit(l, n);
    }
    forall i | 0 <= i < |l| ensures l[i].bytes <= Sum(l) { SumBounds(l, i); }
  }

  /** A successful allocation is the first `n` bytes of the lowest (highest, reversed) chunk that fits. */
  lemma AllocTakes(l: seq<Chunk>, lo: nat, hi: nat, size: nat, reverse: bool) returns (k: nat)
    requires Canonical(l, lo, hi) && 0 < lo && 0 < size && Alloc(l, size, reverse).0 != 0
    ensures Picks(l, RoundUp(size), reverse, k)
    ensures Alloc(l, size, reverse) == (l[k].addr, Carve(l, k, RoundUp(size)))
  {
    k := Pick(l, RoundUp(size), reverse);
  }

  /** No byte of the block that was handed out is still on the free list. */
  ghost predicate HandedOver(l: seq<Chunk>, size: nat, reverse: bool) {
    var (p, l') := Alloc(l, size, reverse);
    forall x: int :: p <= x < p + size ==> !Covers(l', x)
  }

  /**
   A non-NULL result owns its bytes exactly when the rounding did not wrap.  For the top
   15 sizes `Allocate` answers with a chunk that it leaves on the free list.
   */
  lemma HandedOverIff(l: seq<Chunk>, lo: nat, hi: nat, size: nat, reverse: bool)
    requires Canonical(l, lo, hi) && 0 < lo && 0 < size < ADDRESS_SPACE && Alloc(l, size, reverse).0 != 0
    ensures HandedOver(l, size, reverse) <==> size <= ADDRESS_SPACE - 16
  {
    RoundUpExact(size);
    var k := AllocTakes(l, lo, hi, size, reverse);
    var n := RoundUp(size);
    var (p, l') := Alloc(l, size, reverse);
    assert OnUnits(l[k], lo, hi);
    if size <= ADDRESS_SPACE - 16 {
      forall x: int | p <= x < p + size ensures !Covers(l', x) { CarveCovers(l, lo, hi, k, n, x); }
    } else {
      assert l' == l;
      assert InChunk(l[k], p) && Covers(l', p);
    }
  }

  /** The wrapped case on a concrete heap: a 32-byte region and a request of 2^64 - 1 bytes. */
  lemma WrappedRequestExample()
    ensures Alloc([Chunk(16, 32)], 0xFFFF_FFFF_FFFF_FFFF, false) == (16, [Chunk(16, 32)])
  {
    var l := [Chunk(16, 32)];
    assert Sum(l) == 32;
    assert RoundUp(0xFFFF_FFFF_FFFF_FFFF) == 0;
    assert Pick(l, 0, false) == 0;
    assert Carve(l, 0, 0) == l;
  }

  /** `Deallocate` refuses exactly the blocks with a byte already free, and then changes nothing. */
  lemma FreeRefusesIff(l: seq<Chunk>, lo: nat, hi: nat, addr: nat, size: nat)
    requires Canonical(l, lo, hi) && 0 < addr && 0 < size && OnUnits(Block(addr, size), lo, hi)
    ensures !Free(l, addr, size).0 <==> exists x: int :: InChunk(Block(addr, size), x) && Covers(l, x)
    ensures !Free(l, addr, size).0 ==> Free(l, addr, size).1 == l
    ensures Free(l, addr, size).0 ==> Canonical(Free(l, addr, size).1, lo, hi)
    ensures Free(l, addr, size).0 ==>
              forall x: int :: Covers(Free(l, addr, size).1, x) <==> Covers(l, x) || InChunk(Block(addr, size), x)
  {
    OverlapsCovers(l, Block(addr, size), lo, hi);
    if Free(l, addr, size).0 { ReleaseCorrect(l, lo, hi, Block(addr, size)); }
  }

  /** NULL or nothing to give back: accepted, and nothing changes. */
  lemma NothingToFree(l: seq<Chunk>, addr: nat, size: nat)
    requires addr == 0 || size == 0
    ensures Free(l, addr, size) == (true, l)
  {
  }

  /** Freeing what was just allocated restores the identical free list. */
  lemma FreeUndoesAlloc(l: seq<Chunk>, lo: nat, hi: nat, size: nat, reverse: bool)
    requires Canonical(l, lo, hi) && 0 < lo && hi < ADDRESS_SPACE && 0 < size <= ADDRESS_SPACE - 16
    requires Alloc(l, size, reverse).0 != 0
    ensures var (p, l') := Alloc(l, size, reverse); Free(l', p, size) == (true, l)
  {
    RoundUpExact(size);
    var k := AllocTakes(l, lo, hi, size, reverse);
    assert OnUnits(l[k], lo, hi);
    ReleaseUndoesCarve(l, lo, hi, k, RoundUp(size));
    assert Block(l[k].addr, size) == Chunk(l[k].addr, RoundUp(size));
  }

  // ---------------------------------------------------------------------- runs

  /** `live` maps the address of each block handed out to the size that was asked for. */
  datatype State = State(free: seq<Chunk>, live: map<nat, nat>)

  datatype Op = DoAlloc(size: nat, reverse: bool) | DoFree(addr: nat)

  /** The calls a client may make: sizes that do not wrap, and frees of live blocks with their own size. */
  ghost predicate ValidOp(s: State, op: Op) {
    match op
    case DoAlloc(size, _) => size <= ADDRESS_SPACE - 16
    case DoFree(addr) => addr in s.live
  }

  ghost function Step(s: State, op: Op): State
    requires ValidOp(s, op)
  {
    match op
    case DoAlloc(size, reverse) =>
      var (p, l') := Alloc(s.free, size, reverse);
      if p == 0 then s else State(l', s.live[p := size])
    case DoFree(addr) =>
      State(Free(s.free, addr, s.live[addr]).1, s.live - {addr})
  }

  ghost predicate ValidRun(s: State, ops: seq<Op>)
    decreases |ops|
  {
    ops == [] || (ValidOp(s, ops[0]) && ValidRun(Step(s, ops[0]), ops[1..]))
  }

  ghost function Run(s: State, ops: seq<Op>): State
    requires ValidRun(s, ops)
    decreases |ops|
  {
    if ops == [] then s else Run(Step(s, ops[0]), ops[1..])
  }

  /** `mh_Init`: one chunk over the whole region. */
  function Initial(lo: nat, hi: nat): State
    requires lo <= hi
  {
    State([Chunk(lo, hi - lo)], map[])
  }

  ghost predicate IsLive(s: State, a: nat, x: int) {
    a in s.live && InChunk(Block(a, s.live[a]), x)
  }

  ghost predicate LiveByte(s: State, x: int) {
    exists a :: IsLive(s, a, x)
  }

  ghost predicate RegionOk(lo: nat, hi: nat) {
    0 < lo < hi < ADDRESS_SPACE && lo % 16 == 0 && hi % 16 == 0
  }

  /** Free chunks and live blocks tile the region, each byte held once. */
  ghost predicate Tiles(s: State, lo: nat, hi: nat) {
    && Canonical(s.free, lo, hi)
    && (forall a | a in s.live :: 0 < a && 0 < s.live[a] && a % 16 == 0 && OnUnits(Block(a, s.live[a]), lo, hi))
    && (forall a, x: int :: IsLive(s, a, x) ==> !Covers(s.free, x))
    && (forall a, b, x: int :: IsLive(s, a, x) && IsLive(s, b, x) ==> a == b)
    && (forall x: int :: lo <= x < hi ==> Covers(s.free, x) || LiveByte(s, x))
  }

  lemma InitialTiles(lo: nat, hi: nat)
    requires RegionOk(lo, hi)
    ensures Tiles(Initial(lo, hi), lo, hi)
  {
    var l := Initial(lo, hi).free;
    forall x: int | lo <= x < hi ensures Covers(l, x) { assert InChunk(l[0], x); }
  }

  /** Moving a covered block from the free list to the live set keeps the tiling. */
  lemma HandOverTiles(s: State, t: State, lo: nat, hi: nat, p: nat, size: nat)
    requires Tiles(s, lo, hi) && Canonical(t.free, lo, hi)
    requires 0 < p && 0 < size && p % 16 == 0 && OnUnits(Block(p, size), lo, hi) && Block(p, size).addr == p
    requires t.live == s.live[p := size]
    requires forall x: int :: Covers(t.free, x) <==> Covers(s.free, x) && !InChunk(Block(p, size), x)
    requires forall x: int :: InChunk(Block(p, size), x) ==> Covers(s.free, x)
    ensures Tiles(t, lo, hi)
  {
    hide Canonical;
    hide Covers;
    assert p in s.live ==> IsLive(s, p, p);
    forall a, x: int | IsLive(t, a, x) ensures if a == p then InChunk(Block(p, size), x) else IsLive(s, a, x) {}
    forall x: int | lo <= x < hi ensures Covers(t.free, x) || LiveByte(t, x) {
      if InChunk(Block(p, size), x) {
        assert IsLive(t, p, x);
      } else if LiveByte(s, x) {
        var a :| IsLive(s, a, x);
        assert IsLive(t, a, x);
      }
    }
  }

  lemma AllocKeeps(s: State, lo: nat, hi: nat, size: nat, reverse: bool)
    requires RegionOk(lo, hi) && Tiles(s, lo, hi) && ValidOp(s, DoAlloc(size, reverse))
    ensures Tiles(Step(s, DoAlloc(size, reverse)), lo, hi)
  {
    var (p, l') := Alloc(s.free, size, reverse);
    if p != 0 {
      RoundUpExact(size);
      var k := AllocTakes(s.free, lo, hi, size, reverse);
      var n := RoundUp(size);
      assert OnUnits(s.free[k], lo, hi);
      assert Block(p, size) == Chunk(p, n);
      CarveCanonical(s.free, lo, hi, k, n);
      forall x: int
        ensures Covers(l', x) <==> Covers(s.free, x) && !InChunk(Chunk(p, n), x)
        ensures InChunk(Chunk(p, n), x) ==> Covers(s.free, x)
      {
        CarveCovers(s.free, lo, hi, k, n, x);
      }
      HandOverTiles(s, Step(s, DoAlloc(size, reverse)), lo, hi, p, size);
    }
  }

  /** A live block can always be returned: the allocator never takes it for a double free. */
  lemma LiveBlockIsAccepted(s: State, lo: nat, hi: nat, a: nat)
    requires Tiles(s, lo, hi) && a in s.live
    ensures Free(s.free, a, s.live[a]) == (true, Release(s.free, Block(a, s.live[a])))
  {
    var c := Block(a, s.live[a]);
    OverlapsCovers(s.free, c, lo, hi);
    forall x: int | InChunk(c, x) ensures !Covers(s.free, x) { assert IsLive(s, a, x); }
  }

  lemma FreeKeeps(s: State, lo: nat, hi: nat, a: nat)
    requires RegionOk(lo, hi) && Tiles(s, lo, hi) && a in s.live
    ensures Tiles(Step(s, DoFree(a)), lo, hi)
  {
    var c := Block(a, s.live[a]);
    var t := Step(s, DoFree(a));
    LiveBlockIsAccepted(s, lo, hi, a);
    ReleaseCorrect(s.free, lo, hi, c);
    forall b, x: int | IsLive(t, b, x) ensures IsLive(s, b, x) && !InChunk(c, x) {
      assert IsLive(s, b, x);
      assert IsLive(s, a, x) <==> InChunk(c, x);
    }
    forall x: int | lo <= x < hi ensures Covers(t.free, x) || LiveByte(t, x) {
      if LiveByte(s, x) && !InChunk(c, x) {
        var b :| IsLive(s, b, x);
        assert IsLive(t, b, x);
      }
    }
  }

  /** Every run of valid calls keeps the free list the maximal-interval decomposition of the free bytes. */
  lemma {:induction false} RunKeeps(s: State, lo: nat, hi: nat, ops: seq<Op>)
    requires RegionOk(lo, hi) && Tiles(s, lo, hi) && ValidRun(s, ops)
    ensures Tiles(Run(s, ops), lo, hi)
    decreases |ops|
  {
    if ops != [] {
      match ops[0] {
        case DoAlloc(size, reverse) => AllocKeeps(s, lo, hi, size, reverse);
        case DoFree(a) => FreeKeeps(s, lo, hi, a);
      }
      RunKeeps(Step(s, ops[0]), lo, hi, ops[1..]);
    }
  }

  /** Whatever the order of calls, once no block is live the heap is the one `mh_Init` made. */
  lemma AllFreedIsInitial(lo: nat, hi: nat, ops: seq<Op>)
    requires RegionOk(lo, hi) && ValidRun(Initial(lo, hi), ops)
    requires Run(Initial(lo, hi), ops).live == map[]
    ensures Run(Initial(lo, hi), ops) == Initial(lo, hi)
  {
    InitialTiles(lo, hi);
    RunKeeps(Initial(lo, hi), lo, hi, ops);
    var s, whole := Run(Initial(lo, hi), ops), Initial(lo, hi).free;
    forall x: int ensures Covers(s.free, x) <==> Covers(whole, x) {
      if lo <= x < hi {
        assert !LiveByte(s, x);
        assert InChunk(whole[0], x);
      } else {
        forall i | 0 <= i < |s.free| ensures !InChunk(s.free[i], x) { assert OnUnits(s.free[i], lo, hi); }
      }
    }
    CanonicalUnique(s.free, whole, lo, hi);
  }
}
