/**
 The free list of the hosted exec allocator, as the sequence of chunks that the
 `mc_Next` links spell out.

 `Canonical` is the invariant the allocator keeps: chunks in address order, on
 16-byte units, inside the region, and never touching one another.  A canonical
 list is determined by the bytes it covers (`CanonicalUnique`), so every statement
 about which bytes are free after a call also fixes the list itself.
 */
module FreeList {

  const ADDRESS_SPACE: nat := 0x1_0000_0000_0000_0000

  datatype Chunk = Chunk(addr: nat, bytes: nat) {
    function End(): nat { addr + bytes }
  }

  // MEMCHUNK_TOTAL, the allocation unit, is 16 bytes throughout.

  /** ROUNDUP(size, MEMCHUNK_TOTAL) in 64-bit unsigned arithmetic. */
  function RoundUp(size: nat): nat {
    (size + 15) % 0x1_0000_0000_0000_0000 / 16 * 16
  }

  /** Below the top 15 values the rounding is the mathematical one; above, it wraps to zero. */
  lemma RoundUpExact(size: nat)
    requires 0 < size < ADDRESS_SPACE
    ensures RoundUp(size) % 16 == 0
    ensures size <= ADDRESS_SPACE - 16 ==> size <= RoundUp(size) < size + 16 && 0 < RoundUp(size)
    ensures size > ADDRESS_SPACE - 16 ==> RoundUp(size) == 0
  {
  }

  ghost predicate OnUnits(c: Chunk, lo: nat, hi: nat) {
    0 < c.bytes && c.addr % 16 == 0 && c.bytes % 16 == 0 && lo <= c.addr && c.End() <= hi
  }

  ghost predicate Separated(l: seq<Chunk>) {
    forall i, j | 0 <= i < j < |l| :: l[i].End() < l[j].addr
  }

  ghost predicate Canonical(l: seq<Chunk>, lo: nat, hi: nat) {
    && (forall i | 0 <= i < |l| :: OnUnits(l[i], lo, hi))
    && Separated(l)
  }

  ghost predicate InChunk(c: Chunk, b: int) { c.addr <= b < c.End() }

  /** Byte `b` is free. */
  ghost predicate Covers(l: seq<Chunk>, b: int) {
    exists i | 0 <= i < |l| :: InChunk(l[i], b)
  }

  function Sum(l: seq<Chunk>): nat {
    if l == [] then 0 else l[0].bytes + Sum(l[1..])
  }

  lemma {:induction false} SumConcat(a: seq<Chunk>, b: seq<Chunk>)
    ensures Sum(a + b) == Sum(a) + Sum(b)
  {
    if a == [] {
      assert a + b == b;
    } else {
      assert (a + b)[1..] == a[1..] + b;
      SumConcat(a[1..], b);
    }
  }

  /** Replacing chunks `i..j` by `mid` changes the total accordingly. */
  lemma SumSplice(l: seq<Chunk>, i: nat, j: nat, mid: seq<Chunk>)
    requires i <= j <= |l|
    ensures Sum(l[..i] + mid + l[j..]) == Sum(l) - Sum(l[i..j]) + Sum(mid)
  {
    assert l == l[..i] + l[i..j] + l[j..];
    SumConcat(l[..i] + l[i..j], l[j..]);
    SumConcat(l[..i], l[i..j]);
    SumConcat(l[..i] + mid, l[j..]);
    SumConcat(l[..i], mid);
  }

  lemma {:induction false} SumBounds(l: seq<Chunk>, k: nat)
    requires k < |l|
    ensures l[k].bytes <= Sum(l)
  {
    SumSplice(l, k, k + 1, []);
    assert l[k..k + 1] == [l[k]];
  }

  // ---------------------------------------------------------------- uniqueness

  lemma FirstCovered(l: seq<Chunk>, lo: nat, hi: nat, b: int)
    requires Canonical(l, lo, hi) && Covers(l, b)
    ensures l[0].addr <= b
    ensures Covers(l, l[0].addr) && !Covers(l, l[0].End())
  {
    assert OnUnits(l[0], lo, hi) && InChunk(l[0], l[0].addr);
    forall i | 0 <= i < |l| ensures !InChunk(l[i], l[0].End()) {
      assert OnUnits(l[i], lo, hi);
    }
  }

  lemma HeadCovered(l: seq<Chunk>, lo: nat, hi: nat)
    requires Canonical(l, lo, hi)
    ensures l != [] ==> Covers(l, l[0].addr) && InChunk(l[0], l[0].addr)
  {
    if l != [] { assert OnUnits(l[0], lo, hi) && InChunk(l[0], l[0].addr); }
  }

  /** Two canonical lists that cover the same bytes are the same list. */
  lemma {:induction false} CanonicalUnique(a: seq<Chunk>, b: seq<Chunk>, lo: nat, hi: nat)
    requires Canonical(a, lo, hi) && Canonical(b, lo, hi)
    requires forall x: int :: Covers(a, x) <==> Covers(b, x)
    ensures a == b
  {
    HeadCovered(a, lo, hi);
    HeadCovered(b, lo, hi);
    if a != [] && b != [] {
      FirstCovered(a, lo, hi, b[0].addr);
      FirstCovered(b, lo, hi, a[0].addr);
      assert a[0].addr == b[0].addr;
      var ca, cb := a[0], b[0];
      assert ca.End() < cb.End() ==> InChunk(cb, ca.End());
      assert cb.End() < ca.End() ==> InChunk(ca, cb.End());
      assert a[0] == b[0];
      forall x: int
        ensures Covers(a[1..], x) <==> Covers(b[1..], x)
      {
        TailCovers(a, lo, hi, x);
        TailCovers(b, lo, hi, x);
      }
      CanonicalUnique(a[1..], b[1..], lo, hi);
      assert a == [a[0]] + a[1..];
      assert b == [b[0]] + b[1..];
    }
  }

  lemma TailCovers(l: seq<Chunk>, lo: nat, hi: nat, x: int)
    requires Canonical(l, lo, hi) && l != []
    ensures Covers(l[1..], x) <==> Covers(l, x) && !InChunk(l[0], x)
  {
    if Covers(l[1..], x) {
      var i :| 0 <= i < |l| - 1 && InChunk(l[1..][i], x);
      assert InChunk(l[i + 1], x);
    }
    if Covers(l, x) && !InChunk(l[0], x) {
      var i :| 0 <= i < |l| && InChunk(l[i], x);
      assert InChunk(l[1..][i - 1], x);
    }
  }

  // ---------------------------------------------------------------- allocation

  /** Chunk `k` is the one `Allocate` picks for `n` bytes: the lowest that fits, or the highest under MEMF_REVERSE. */
  ghost predicate Picks(l: seq<Chunk>, n: nat, reverse: bool, k: int) {
    && 0 <= k < |l|
    && n <= l[k].bytes
    && (forall i | 0 <= i < |l| && n <= l[i].bytes :: if reverse then i <= k else k <= i)
  }

  ghost predicate NoFit(l: seq<Chunk>, n: nat) {
    forall i | 0 <= i < |l| :: l[i].bytes < n
  }

  function Pick(l: seq<Chunk>, n: nat, reverse: bool): (k: int)
    ensures k < 0 ==> k == -1 && NoFit(l, n)
    ensures k >= 0 ==> Picks(l, n, reverse, k)
  {
    if l == [] then -1
    else
      var k := Pick(l[1..], n, reverse);
      if n <= l[0].bytes && (!reverse || k < 0) then 0
      else if k < 0 then -1
      else k + 1
  }

  lemma PickUnique(l: seq<Chunk>, n: nat, reverse: bool, k: int)
    requires Picks(l, n, reverse, k)
    ensures Pick(l, n, reverse) == k
  {
    assert !NoFit(l, n);
  }

  /** Take the first `n` bytes of chunk `k`. */
  function Carve(l: seq<Chunk>, k: nat, n: nat): seq<Chunk>
    requires k < |l| && n <= l[k].bytes
  {
    if l[k].bytes == n then l[..k] + l[k + 1..]
    else l[k := Chunk(l[k].addr + n, l[k].bytes - n)]
  }

  lemma CoversConcat(a: seq<Chunk>, b: seq<Chunk>, x: int)
    ensures Covers(a + b, x) <==> Covers(a, x) || Covers(b, x)
  {
    if Covers(a, x) {
      var i :| 0 <= i < |a| && InChunk(a[i], x);
      assert InChunk((a + b)[i], x);
    }
    if Covers(b, x) {
      var i :| 0 <= i < |b| && InChunk(b[i], x);
      assert InChunk((a + b)[|a| + i], x);
    }
  }

  /** Replacing chunks `p..q` by `mid` replaces the bytes they cover. */
  lemma CoversSplice(l: seq<Chunk>, p: nat, q: nat, mid: seq<Chunk>, x: int)
    requires p <= q <= |l|
    ensures Covers(l, x) <==> Covers(l[..p], x) || Covers(l[p..q], x) || Covers(l[q..], x)
    ensures Covers(l[..p] + mid + l[q..], x) <==> Covers(l[..p], x) || Covers(mid, x) || Covers(l[q..], x)
  {
    assert l == l[..p] + l[p..q] + l[q..];
    CoversConcat(l[..p] + l[p..q], l[q..], x);
    CoversConcat(l[..p], l[p..q], x);
    CoversConcat(l[..p] + mid, l[q..], x);
    CoversConcat(l[..p], mid, x);
  }

  lemma CoversOne(c: Chunk, x: int)
    ensures Covers([c], x) <==> InChunk(c, x)
  {
    if InChunk(c, x) { assert InChunk([c][0], x); }
  }

  /** In a canonical list the bytes of chunk `k` belong to no other chunk. */
  lemma Disjoint(l: seq<Chunk>, k: nat, x: int)
    requires Separated(l) && k < |l| && InChunk(l[k], x)
    ensures !Covers(l[..k], x) && !Covers(l[k + 1..], x)
  {
  }

  lemma SliceCanonical(l: seq<Chunk>, lo: nat, hi: nat, p: nat, q: nat)
    requires Canonical(l, lo, hi) && p <= q <= |l|
    ensures Canonical(l[p..q], lo, hi)
  {
    var r := l[p..q];
    forall i | 0 <= i < |r| ensures OnUnits(r[i], lo, hi) { assert r[i] == l[p + i]; }
    forall i, j | 0 <= i < j < |r| ensures r[i].End() < r[j].addr { assert r[i] == l[p + i] && r[j] == l[p + j]; }
  }

  lemma ConcatSeparated(a: seq<Chunk>, b: seq<Chunk>)
    requires Separated(a) && Separated(b)
    requires forall i, j | 0 <= i < |a| && 0 <= j < |b| :: a[i].End() < b[j].addr
    ensures Separated(a + b)
  {
    var r := a + b;
    forall i, j | 0 <= i < j < |r| ensures r[i].End() < r[j].addr {
      assert i < |a| <= j ==> r[i] == a[i] && r[j] == b[j - |a|];
    }
  }

  lemma ConcatCanonical(a: seq<Chunk>, b: seq<Chunk>, lo: nat, hi: nat)
    requires Canonical(a, lo, hi) && Canonical(b, lo, hi)
    requires a != [] && b != [] ==> a[|a| - 1].End() < b[0].addr
    ensures Canonical(a + b, lo, hi)
  {
    forall i, j | 0 <= i < |a| && 0 <= j < |b| ensures a[i].End() < b[j].addr {
      assert a[i].End() <= a[|a| - 1].End() by { assert i < |a| - 1 ==> a[i].End() < a[|a| - 1].addr; }
      assert b[0].addr <= b[j].addr by { assert 0 < j ==> b[0].End() < b[j].addr; }
    }
    ConcatSeparated(a, b);
    hide Separated;
    forall i | 0 <= i < |a + b| ensures OnUnits((a + b)[i], lo, hi) {
      if i < |a| { assert (a + b)[i] == a[i]; } else { assert (a + b)[i] == b[i - |a|]; }
    }
  }

  /** Chunks `p..q` replaced by one that fits strictly between its neighbours. */
  lemma SpliceCanonical(l: seq<Chunk>, lo: nat, hi: nat, p: nat, q: nat, m: Chunk)
    requires Canonical(l, lo, hi) && p <= q <= |l| && OnUnits(m, lo, hi)
    requires p > 0 ==> l[p - 1].End() < m.addr
    requires q < |l| ==> m.End() < l[q].addr
    ensures Canonical(l[..p] + [m] + l[q..], lo, hi)
  {
    SliceCanonical(l, lo, hi, 0, p);
    SliceCanonical(l, lo, hi, q, |l|);
    ConcatCanonical(l[..p], [m], lo, hi);
    ConcatCanonical(l[..p] + [m], l[q..], lo, hi);
  }

  lemma CarveSum(l: seq<Chunk>, k: nat, n: nat)
    requires k < |l| && n <= l[k].bytes
    ensures Sum(Carve(l, k, n)) == Sum(l) - n
  {
    hide Sum;
    var mid := if l[k].bytes == n then [] else [Chunk(l[k].addr + n, l[k].bytes - n)];
    assert l[k..k + 1] == [l[k]];
    SumOne(l[k]);
    SumOne(Chunk(l[k].addr + n, l[k].bytes - n));
    SumSplice(l, k, k + 1, mid);
    assert Carve(l, k, n) == l[..k] + mid + l[k + 1..];
  }

  lemma SumOne(c: Chunk)
    ensures Sum([c]) == c.bytes && Sum([]) == 0
  {
  }

  lemma DropCanonical(l: seq<Chunk>, lo: nat, hi: nat, k: nat)
    requires Canonical(l, lo, hi) && k < |l|
    ensures Canonical(l[..k] + l[k + 1..], lo, hi)
  {
    SliceCanonical(l, lo, hi, 0, k);
    SliceCanonical(l, lo, hi, k + 1, |l|);
    ConcatCanonical(l[..k], l[k + 1..], lo, hi);
  }

  lemma CarveCanonical(l: seq<Chunk>, lo: nat, hi: nat, k: nat, n: nat)
    requires Canonical(l, lo, hi) && k < |l| && 0 < n <= l[k].bytes && n % 16 == 0
    ensures Canonical(Carve(l, k, n), lo, hi)
  {
    assert OnUnits(l[k], lo, hi);
    if l[k].bytes == n {
      DropCanonical(l, lo, hi, k);
    } else {
      var m := Chunk(l[k].addr + n, l[k].bytes - n);
      assert Carve(l, k, n) == l[..k] + [m] + l[k + 1..];
      SpliceCanonical(l, lo, hi, k, k + 1, m);
    }
  }

  /** Carving removes exactly the carved bytes. */
  lemma CarveCovers(l: seq<Chunk>, lo: nat, hi: nat, k: nat, n: nat, x: int)
    requires Canonical(l, lo, hi) && k < |l| && 0 < n <= l[k].bytes && n % 16 == 0
    ensures Covers(Carve(l, k, n), x) <==> Covers(l, x) && !(l[k].addr <= x < l[k].addr + n)
    ensures l[k].addr <= x < l[k].addr + n ==> Covers(l, x)
  {
    var r := Carve(l, k, n);
    var mid := if l[k].bytes == n then [] else [r[k]];
    assert r == l[..k] + mid + l[k + 1..];
    assert l[k..k + 1] == [l[k]];
    CoversSplice(l, k, k + 1, mid, x);
    CoversOne(l[k], x);
    if mid != [] { CoversOne(mid[0], x); }
    if InChunk(l[k], x) { Disjoint(l, k, x); }
  }

  // ------------------------------------------------------------- deallocation

  /** The unit-aligned block that `Deallocate(addr, size)` returns to the list. */
  function Block(addr: nat, size: nat): Chunk {
    Chunk(addr / 16 * 16, RoundUp(size + addr % 16))
  }

  /** Byte `x` shares a unit with a byte of `addr..addr + size`. */
  ghost predicate InUnitOf(addr: nat, size: nat, x: int) {
    exists y: int :: SameUnit(x, y) && addr <= y < addr + size
  }

  predicate SameUnit(x: int, y: int) { x / 16 == y / 16 }

  /** Address down, size up: the block is exactly the units that the bytes given back lie in. */
  lemma BlockIsUnits(addr: nat, size: nat, x: int)
    requires 0 < size && addr + size <= ADDRESS_SPACE - 16
    ensures InChunk(Block(addr, size), x) <==> InUnitOf(addr, size, x)
  {
    var a, n := addr / 16 * 16, addr % 16 + size;
    assert RoundUp(size + addr % 16) == (n + 15) / 16 * 16;
    if InChunk(Block(addr, size), x) {
      var y := if x / 16 == addr / 16 then addr else x / 16 * 16;
      assert SameUnit(x, y) && addr <= y < addr + size;
    }
    if InUnitOf(addr, size, x) {
      var y: int :| SameUnit(x, y) && addr <= y < addr + size;
      assert y - a < n;
    }
  }

  ghost predicate Overlaps(l: seq<Chunk>, c: Chunk) {
    exists i | 0 <= i < |l| :: l[i].addr < c.End() && c.addr < l[i].End()
  }

  /** For a non-empty block, overlapping a chunk is covering one of its bytes. */
  lemma OverlapsCovers(l: seq<Chunk>, c: Chunk, lo: nat, hi: nat)
    requires Canonical(l, lo, hi) && 0 < c.bytes
    ensures Overlaps(l, c) <==> exists b: int :: InChunk(c, b) && Covers(l, b)
  {
    if Overlaps(l, c) {
      var i :| 0 <= i < |l| && l[i].addr < c.End() && c.addr < l[i].End();
      assert OnUnits(l[i], lo, hi);
      var b := if l[i].addr <= c.addr then c.addr else l[i].addr;
      assert InChunk(c, b) && InChunk(l[i], b);
    }
    if exists b: int :: InChunk(c, b) && Covers(l, b) {
      var b: int :| InChunk(c, b) && Covers(l, b);
      var i :| 0 <= i < |l| && InChunk(l[i], b);
    }
  }

  /** How many chunks lie below address `a`. */
  function Below(l: seq<Chunk>, a: nat): (k: nat)
    ensures k <= |l|
    ensures forall i | 0 <= i < k :: l[i].addr < a
    ensures k < |l| ==> a <= l[k].addr
  {
    if l == [] || a <= l[0].addr then 0 else 1 + Below(l[1..], a)
  }

  lemma BelowUnique(l: seq<Chunk>, a: nat, k: nat)
    requires k <= |l|
    requires forall i | 0 <= i < k :: l[i].addr < a
    requires k < |l| ==> a <= l[k].addr
    ensures Below(l, a) == k
  {
    assert forall i | 0 <= i < Below(l, a) :: l[i].addr < a;
  }

  /** Where `Release` splices: chunks `p..q` are the neighbours it merges with. */
  function SpliceFrom(l: seq<Chunk>, k: nat, c: Chunk): nat
    requires k <= |l|
  {
    if k > 0 && l[k - 1].End() == c.addr then k - 1 else k
  }

  function SpliceTo(l: seq<Chunk>, k: nat, c: Chunk): nat
    requires k <= |l|
  {
    if k < |l| && c.End() == l[k].addr then k + 1 else k
  }

  /** The chunk that replaces them. */
  function Merged(l: seq<Chunk>, k: nat, c: Chunk): Chunk
    requires k <= |l|
  {
    var start := if k > 0 && l[k - 1].End() == c.addr then l[k - 1].addr else c.addr;
    var end := if k < |l| && c.End() == l[k].addr then l[k].End() else c.End();
    Chunk(start, if start <= end then end - start else 0)
  }

  /** Insert `c` at position `k`, merging with a neighbour it touches on either side. */
  function Merge(l: seq<Chunk>, k: nat, c: Chunk): seq<Chunk>
    requires k <= |l|
  {
    l[..SpliceFrom(l, k, c)] + [Merged(l, k, c)] + l[SpliceTo(l, k, c)..]
  }

  function Release(l: seq<Chunk>, c: Chunk): seq<Chunk> {
    Merge(l, Below(l, c.addr), c)
  }

  lemma BelowSplits(l: seq<Chunk>, lo: nat, hi: nat, c: Chunk)
    requires Canonical(l, lo, hi) && OnUnits(c, lo, hi) && !Overlaps(l, c)
    ensures var k := Below(l, c.addr);
      && (forall i | 0 <= i < k :: l[i].End() <= c.addr)
      && (forall i | k <= i < |l| :: c.End() <= l[i].addr)
  {
    var k := Below(l, c.addr);
    forall i | 0 <= i < k ensures l[i].End() <= c.addr { assert l[i].addr < c.addr; }
    forall i | k <= i < |l| ensures c.End() <= l[i].addr {
      assert OnUnits(l[i], lo, hi) && OnUnits(l[k], lo, hi);
      if k < i { assert l[k].End() < l[i].addr; }
    }
  }

  lemma SpanOnUnits(first: Chunk, last: Chunk, lo: nat, hi: nat)
    requires OnUnits(first, lo, hi) && OnUnits(last, lo, hi) && first.addr <= last.addr
    ensures OnUnits(Chunk(first.addr, last.End() - first.addr), lo, hi)
  {
    var a, b, n := first.addr / 16, last.addr / 16, last.bytes / 16;
    assert last.End() - first.addr == 16 * (b + n - a);
  }

  lemma MergedSpan(l: seq<Chunk>, k: nat, c: Chunk, lo: nat, hi: nat)
    requires k <= |l| && OnUnits(c, lo, hi)
    requires k > 0 ==> OnUnits(l[k - 1], lo, hi) && l[k - 1].End() <= c.addr
    requires k < |l| ==> OnUnits(l[k], lo, hi) && c.End() <= l[k].addr
    ensures var p, q, m := SpliceFrom(l, k, c), SpliceTo(l, k, c), Merged(l, k, c);
      && OnUnits(m, lo, hi)
      && m.addr == (if p < k then l[k - 1].addr else c.addr)
      && m.End() == (if k < q then l[k].End() else c.End())
  {
    var first := if k > 0 && l[k - 1].End() == c.addr then l[k - 1] else c;
    var last := if k < |l| && c.End() == l[k].addr then l[k] else c;
    SpanOnUnits(first, last, lo, hi);
  }

  lemma MergedOnUnits(l: seq<Chunk>, lo: nat, hi: nat, c: Chunk)
    requires Canonical(l, lo, hi) && OnUnits(c, lo, hi) && !Overlaps(l, c)
    ensures var k := Below(l, c.addr);
      var p, q, m := SpliceFrom(l, k, c), SpliceTo(l, k, c), Merged(l, k, c);
      && OnUnits(m, lo, hi)
      && m.addr == (if p < k then l[k - 1].addr else c.addr)
      && m.End() == (if k < q then l[k].End() else c.End())
  {
    BelowSplits(l, lo, hi, c);
    MergedSpan(l, Below(l, c.addr), c, lo, hi);
  }

  lemma MergedFits(l: seq<Chunk>, lo: nat, hi: nat, c: Chunk)
    requires Canonical(l, lo, hi) && OnUnits(c, lo, hi) && !Overlaps(l, c)
    ensures var k := Below(l, c.addr);
      var p, q, m := SpliceFrom(l, k, c), SpliceTo(l, k, c), Merged(l, k, c);
      && (p > 0 ==> l[p - 1].End() < m.addr)
      && (q < |l| ==> m.End() < l[q].addr)
  {
    BelowSplits(l, lo, hi, c);
    MergedOnUnits(l, lo, hi, c);
  }

  lemma MergedSum(l: seq<Chunk>, lo: nat, hi: nat, c: Chunk)
    requires Canonical(l, lo, hi) && OnUnits(c, lo, hi) && !Overlaps(l, c)
    ensures var k := Below(l, c.addr);
      Merged(l, k, c).bytes == Sum(l[SpliceFrom(l, k, c)..SpliceTo(l, k, c)]) + c.bytes
  {
    MergedOnUnits(l, lo, hi, c);
    var k := Below(l, c.addr);
    var p, q := SpliceFrom(l, k, c), SpliceTo(l, k, c);
    var back := if p < k then [l[k - 1]] else [];
    var forth := if k < q then [l[k]] else [];
    assert l[p..q] == back + forth;
    SumConcat(back, forth);
  }

  /** The bytes of the at most two chunks around position `k`. */
  lemma CoversAround(l: seq<Chunk>, p: nat, k: nat, q: nat, x: int)
    requires p <= k <= q <= |l| && k <= p + 1 && q <= k + 1
    ensures Covers(l[p..q], x) <==> (p < k && InChunk(l[p], x)) || (k < q && InChunk(l[k], x))
  {
    hide InChunk;
    assert p < k ==> l[p..q][0] == l[p];
    assert k < q ==> l[p..q][k - p] == l[k];
  }

  lemma MergedCovers(l: seq<Chunk>, lo: nat, hi: nat, c: Chunk, x: int)
    requires Canonical(l, lo, hi) && OnUnits(c, lo, hi) && !Overlaps(l, c)
    ensures var k := Below(l, c.addr);
      InChunk(Merged(l, k, c), x) <==> Covers(l[SpliceFrom(l, k, c)..SpliceTo(l, k, c)], x) || InChunk(c, x)
  {
    BelowSplits(l, lo, hi, c);
    var k := Below(l, c.addr);
    MergedSpan(l, k, c, lo, hi);
    CoversAround(l, SpliceFrom(l, k, c), k, SpliceTo(l, k, c), x);
    hide Merged;
    hide Covers;
    hide Canonical;
    hide Overlaps;
    hide Below;
  }

  /** Releasing a block keeps the list canonical and adds exactly the block's bytes. */
  lemma ReleaseCorrect(l: seq<Chunk>, lo: nat, hi: nat, c: Chunk)
    requires Canonical(l, lo, hi) && OnUnits(c, lo, hi) && !Overlaps(l, c)
    ensures Canonical(Release(l, c), lo, hi)
    ensures forall x: int :: Covers(Release(l, c), x) <==> Covers(l, x) || InChunk(c, x)
    ensures Sum(Release(l, c)) == Sum(l) + c.bytes
  {
    var k := Below(l, c.addr);
    var p, q, m := SpliceFrom(l, k, c), SpliceTo(l, k, c), Merged(l, k, c);
    MergedOnUnits(l, lo, hi, c);
    MergedFits(l, lo, hi, c);
    MergedSum(l, lo, hi, c);
    SpliceCanonical(l, lo, hi, p, q, m);
    SumSplice(l, p, q, [m]);
    assert [m][1..] == [];
    forall x: int ensures Covers(Release(l, c), x) <==> Covers(l, x) || InChunk(c, x) {
      CoversSplice(l, p, q, [m], x);
      CoversOne(m, x);
      MergedCovers(l, lo, hi, c, x);
    }
  }

  /** Freeing the block just carved gives back the identical list. */
  lemma ReleaseUndoesCarve(l: seq<Chunk>, lo: nat, hi: nat, k: nat, n: nat)
    requires Canonical(l, lo, hi) && k < |l| && 0 < n <= l[k].bytes && n % 16 == 0
    ensures !Overlaps(Carve(l, k, n), Chunk(l[k].addr, n))
    ensures Release(Carve(l, k, n), Chunk(l[k].addr, n)) == l
  {
    var c := Chunk(l[k].addr, n);
    var r := Carve(l, k, n);
    CarveCanonical(l, lo, hi, k, n);
    assert OnUnits(l[k], lo, hi);
    forall x: int ensures Covers(r, x) <==> Covers(l, x) && !InChunk(c, x)
                  ensures InChunk(c, x) ==> Covers(l, x) {
      CarveCovers(l, lo, hi, k, n, x);
    }
    OverlapsCovers(r, c, lo, hi);
    ReleaseCorrect(r, lo, hi, c);
    CanonicalUnique(Release(r, c), l, lo, hi);
  }
}
