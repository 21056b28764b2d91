/**
 The allocator itself: a MemHeader over one region, with the free chunks linked
 through the region's own memory.

 Memory is held in 16-byte units, each two 64-bit words.  A free chunk keeps `mc_Next`
 and `mc_Bytes` in the two words of its first unit; every other unit belongs to whoever
 owns the block.  Pointers are integers: 0 is NULL and `HEADER` is the address of
 `mh_First`, which the code treats as the link field of a chunk before the first.
 */
module Allocator {
  import opened FreeList
  import Heap

  const HEADER: int := -1

  datatype Cell = Cell(next: nat, bytes: nat)
  type Memory = map<int, Cell>

  function AddrAt(l: seq<Chunk>, i: int): nat {
    if 0 <= i < |l| then l[i].addr else 0
  }

  /** What a variable pointing at the link in front of chunk `i` holds. */
  function LinkAt(l: seq<Chunk>, i: int): int {
    if 0 < i <= |l| then l[i - 1].addr else HEADER
  }

  ghost predicate HeaderAt(m: Memory, c: Chunk, next: nat) {
    c.addr in m && m[c.addr] == Cell(next, c.bytes)
  }

  ghost predicate LinkOk(m: Memory, l: seq<Chunk>, i: nat)
    requires i < |l|
  {
    HeaderAt(m, l[i], AddrAt(l, i + 1))
  }

  /** The links in memory spell out `l`. */
  ghost predicate Links(first: nat, m: Memory, l: seq<Chunk>) {
    && first == AddrAt(l, 0)
    && forall i: nat | i < |l| :: LinkOk(m, l, i)
  }

  ghost predicate SameExcept(m: Memory, n: Memory, touched: set<int>) {
    && m.Keys == n.Keys
    && forall a | a in m && a !in touched :: n[a] == m[a]
  }

  /**
   Relinking: chunks `p..q` are replaced by `mid`.  The link in front of position `p` and the
   headers of `mid` are new; the headers before `p - 1` and from `q` on are still in place.
   */
  lemma SpliceLinks(first: nat, n: Memory, l: seq<Chunk>, p: nat, q: nat, mid: seq<Chunk>)
    requires p <= q <= |l|
    requires forall i: nat | i < |l| && (i < p - 1 || q <= i) :: LinkOk(n, l, i)
    requires p == 0 ==> first == AddrAt(mid + l[q..], 0)
    requires p > 0 ==> first == AddrAt(l, 0) && HeaderAt(n, l[p - 1], AddrAt(mid + l[q..], 0))
    requires forall i: nat | i < |mid| :: LinkOk(n, mid + l[q..], i)
    ensures Links(first, n, l[..p] + mid + l[q..])
  {
    var r, rest := l[..p] + mid + l[q..], mid + l[q..];
    assert r == l[..p] + rest;
    forall i: nat | i < |r| ensures LinkOk(n, r, i) {
      if i < p - 1 {
        assert LinkOk(n, l, i);
        assert r[i] == l[i] && AddrAt(r, i + 1) == AddrAt(l, i + 1);
      } else if i < p {
        assert r[i] == l[i] && AddrAt(r, i + 1) == AddrAt(rest, 0);
      } else if i < p + |mid| {
        assert LinkOk(n, rest, i - p);
        assert r[i] == rest[i - p] && AddrAt(r, i + 1) == AddrAt(rest, i - p + 1);
      } else {
        var j := i - p - |mid| + q;
        assert LinkOk(n, l, j);
        assert r[i] == l[j] && AddrAt(r, i + 1) == AddrAt(l, j + 1);
      }
    }
  }

  /** The headers around a splice at `p..q` survive when only the link before `p` and addresses between are written. */
  lemma OthersKept(hi: nat, lo: nat, first: nat, m: Memory, n: Memory, l: seq<Chunk>, p: nat, q: nat, touched: set<int>)
    requires Canonical(l, lo, hi) && p <= q <= |l|
    requires Links(first, m, l) && SameExcept(m, n, touched)
    requires forall a | a in touched :: (p > 0 ==> l[p - 1].addr <= a) && (q < |l| ==> a < l[q].addr)
    ensures forall i: nat | i < |l| && (i < p - 1 || q <= i) :: LinkOk(n, l, i)
  {
    forall i: nat | i < |l| && (i < p - 1 || q <= i)
      ensures LinkOk(n, l, i)
    {
      if i < p - 1 { assert l[i].End() < l[p - 1].addr; }
      if q < i { assert l[q].End() < l[i].addr; }
      assert LinkOk(m, l, i);
    }
  }

  /** The units a relink at position `p` writes: the link in front of it, and the header at `a` if there is one. */
  function Touched(l: seq<Chunk>, p: nat, a: int): set<int>
    requires p <= |l|
  {
    (if p == 0 then {} else {l[p - 1].addr as int}) + if a == HEADER then {} else {a}
  }

  /** Writing `q` through the link pointer `p`. */
  function SetLink(first: nat, m: Memory, p: int, q: nat): (nat, Memory) {
    if p == HEADER then (q, m)
    else if p in m then (first, m[p := m[p].(next := q)])
    else (first, m)
  }

  lemma SetLinkOk(lo: nat, hi: nat, first: nat, m: Memory, l: seq<Chunk>, p: nat, q: nat)
    requires Canonical(l, lo, hi) && p <= |l| && Links(first, m, l)
    ensures var (f, n) := SetLink(first, m, LinkAt(l, p), q);
      && (if p == 0 then f == q else f == first && HeaderAt(n, l[p - 1], q))
      && SameExcept(m, n, Touched(l, p, HEADER))
  {
    if p > 0 { assert LinkOk(m, l, p - 1); }
  }

  /** Memory after `Allocate` takes `b` bytes from chunk `k`. */
  function Taken(first: nat, m: Memory, l: seq<Chunk>, k: nat, b: nat): (nat, Memory)
    requires k < |l| && b <= l[k].bytes
  {
    if l[k].bytes == b then SetLink(first, m, LinkAt(l, k), AddrAt(l, k + 1))
    else
      var (f, n) := SetLink(first, m, LinkAt(l, k), l[k].addr + b);
      (f, n[l[k].addr + b := Cell(AddrAt(l, k + 1), l[k].bytes - b)])
  }

  lemma TakenLinks(lo: nat, hi: nat, first: nat, m: Memory, l: seq<Chunk>, k: nat, b: nat)
    requires Canonical(l, lo, hi) && k < |l| && b <= l[k].bytes && Links(first, m, l)
    requires l[k].addr + b in m || l[k].bytes == b
    ensures var (f, n) := Taken(first, m, l, k, b);
      && Links(f, n, Carve(l, k, b))
      && SameExcept(m, n, Touched(l, k, if l[k].bytes == b then HEADER else l[k].addr + b))
  {
    var (f, n) := Taken(first, m, l, k, b);
    if l[k].bytes == b {
      SetLinkOk(lo, hi, first, m, l, k, AddrAt(l, k + 1));
      ExactLinks(lo, hi, first, m, f, n, l, k);
    } else {
      var c := Chunk(l[k].addr + b, l[k].bytes - b);
      SetLinkOk(lo, hi, first, m, l, k, c.addr);
      PartInside(lo, hi, l, k, b, c.addr);
      assert Carve(l, k, b) == l[..k] + [c] + l[k + 1..];
      hide Canonical;
      hide Links;
      hide SameExcept;
      OneLinks(lo, hi, first, m, f, n, l, k, k + 1, c, Touched(l, k, c.addr));
    }
  }

  lemma PartInside(lo: nat, hi: nat, l: seq<Chunk>, k: nat, b: nat, at: nat)
    requires Canonical(l, lo, hi) && k < |l| && b < l[k].bytes && at == l[k].addr + b
    ensures forall a | a in Touched(l, k, at) ::
      (k > 0 ==> l[k - 1].addr <= a) && (k + 1 < |l| ==> a < l[k + 1].addr)
  {
    assert k > 0 ==> l[k - 1].End() < l[k].addr;
    assert k + 1 < |l| ==> l[k].End() < l[k + 1].addr;
  }

  /** Unlinking a chunk that fits exactly. */
  lemma TouchedInside(lo: nat, hi: nat, l: seq<Chunk>, k: nat)
    requires Canonical(l, lo, hi) && k < |l|
    ensures forall a | a in Touched(l, k, HEADER) ::
      (k > 0 ==> l[k - 1].addr <= a) && (k + 1 < |l| ==> a < l[k + 1].addr)
  {
    assert k > 0 && k + 1 < |l| ==> l[k - 1].End() < l[k + 1].addr;
  }

  lemma ExactLinks(lo: nat, hi: nat, first: nat, m: Memory, first': nat, n: Memory, l: seq<Chunk>, k: nat)
    requires Canonical(l, lo, hi) && k < |l| && Links(first, m, l)
    requires SameExcept(m, n, Touched(l, k, HEADER))
    requires if k == 0 then first' == AddrAt(l, 1) else first' == first && HeaderAt(n, l[k - 1], AddrAt(l, k + 1))
    ensures Links(first', n, l[..k] + l[k + 1..])
  {
    TouchedInside(lo, hi, l, k);
    OthersKept(hi, lo, first, m, n, l, k, k + 1, Touched(l, k, HEADER));
    hide Canonical;
    hide SameExcept;
    hide Touched;
    var r := l[..k] + l[k + 1..];
    forall i: nat | i < |r| ensures LinkOk(n, r, i) {
      if i < k {
        assert r[i] == l[i] && AddrAt(r, i + 1) == if i + 1 < k then AddrAt(l, i + 1) else AddrAt(l, k + 1);
        assert i < k - 1 ==> LinkOk(n, l, i);
      } else {
        assert r[i] == l[i + 1] && AddrAt(r, i + 1) == AddrAt(l, i + 2);
        assert LinkOk(n, l, i + 1);
      }
    }
  }

  /** Putting one chunk `c` in place of chunks `p..q`: its header is written and the link before it leads to it. */
  lemma OneLinks(lo: nat, hi: nat, first: nat, m: Memory, first': nat, n: Memory,
                 l: seq<Chunk>, p: nat, q: nat, c: Chunk, touched: set<int>)
    requires Canonical(l, lo, hi) && p <= q <= |l| && Links(first, m, l) && SameExcept(m, n, touched)
    requires forall a | a in touched :: (p > 0 ==> l[p - 1].addr <= a) && (q < |l| ==> a < l[q].addr)
    requires HeaderAt(n, c, AddrAt(l, q))
    requires if p == 0 then first' == c.addr else first' == first && HeaderAt(n, l[p - 1], c.addr)
    ensures Links(first', n, l[..p] + [c] + l[q..])
  {
    OthersKept(hi, lo, first, m, n, l, p, q, touched);
    var rest := [c] + l[q..];
    assert AddrAt(rest, 0) == c.addr && AddrAt(rest, 1) == AddrAt(l, q);
    assert LinkOk(n, rest, 0);
    SpliceLinks(first', n, l, p, q, [c]);
  }

  /** Taking from chunk `k` writes only inside free chunks. */
  lemma TakenElsewhere(l: seq<Chunk>, lo: nat, hi: nat, k: nat, b: nat, m: Memory, n: Memory)
    requires Canonical(l, lo, hi) && k < |l| && b <= l[k].bytes
    requires SameExcept(m, n, Touched(l, k, if l[k].bytes == b then HEADER else l[k].addr + b))
    ensures forall a | a in m && !Covers(l, a) :: n[a] == m[a]
  {
    if k > 0 { assert OnUnits(l[k - 1], lo, hi) && InChunk(l[k - 1], l[k - 1].addr); }
    if b < l[k].bytes { assert InChunk(l[k], l[k].addr + b); }
  }

  lemma TakenOk(lo: nat, hi: nat, first: nat, m: Memory, l: seq<Chunk>, k: nat, b: nat)
    requires Canonical(l, lo, hi) && k < |l| && b <= l[k].bytes && Links(first, m, l)
    requires l[k].addr + b in m || l[k].bytes == b
    ensures var (f, n) := Taken(first, m, l, k, b);
      && Links(f, n, Carve(l, k, b))
      && n.Keys == m.Keys
      && (forall a | a in m && !Covers(l, a) :: n[a] == m[a])
  {
    TakenLinks(lo, hi, first, m, l, k, b);
    TakenElsewhere(l, lo, hi, k, b, m, Taken(first, m, l, k, b).1);
  }

  lemma CarveKeeps(lo: nat, hi: nat, l: seq<Chunk>, k: nat, b: nat)
    requires Canonical(l, lo, hi) && k < |l| && b <= l[k].bytes && b % 16 == 0
    ensures Canonical(Carve(l, k, b), lo, hi) && Sum(Carve(l, k, b)) == Sum(l) - b
  {
    hide *;
    CarveSum(l, k, b);
    if b > 0 {
      CarveCanonical(l, lo, hi, k, b);
    } else {
      CarveNothing(l, lo, hi, k);
    }
  }

  lemma CarveNothing(l: seq<Chunk>, lo: nat, hi: nat, k: nat)
    requires Canonical(l, lo, hi) && k < |l|
    ensures Carve(l, k, 0) == l
  {
    assert OnUnits(l[k], lo, hi);
    assert l[k := Chunk(l[k].addr + 0, l[k].bytes - 0)] == l;
  }

  /** The block just carved holds no chunk header. */
  lemma NoHeaderInBlock(l: seq<Chunk>, lo: nat, hi: nat, k: nat, n: nat, i: nat)
    requires Canonical(l, lo, hi) && k < |l| && n <= l[k].bytes && n % 16 == 0
    requires Canonical(Carve(l, k, n), lo, hi) && i < |Carve(l, k, n)|
    ensures !(l[k].addr <= Carve(l, k, n)[i].addr < l[k].addr + n)
  {
    var r := Carve(l, k, n);
    assert OnUnits(r[i], lo, hi) && InChunk(r[i], r[i].addr);
    if n > 0 { CarveCovers(l, lo, hi, k, n, r[i].addr); }
  }

  /** The two merge tests of `Deallocate`, on the links it holds: `p1` before the block, `next` after it. */
  function Coalesced(first: nat, m: Memory, p1: int, next: nat, c: Chunk): (nat, Memory) {
    var back := p1 in m && p1 != HEADER && p1 + m[p1].bytes == c.addr;
    var forth := next in m && next != 0 && c.End() == next;
    var (f, n) := if back then (first, m) else SetLink(first, m, p1, c.addr);
    var start: int := if back then p1 else c.addr;
    var end := if forth then c.End() + m[next].bytes else c.End();
    (f, n[start := Cell(if forth then m[next].next else next, if start <= end then end - start else 0)])
  }

  lemma ReturnedIsCoalesced(lo: nat, hi: nat, first: nat, m: Memory, l: seq<Chunk>, k: nat, c: Chunk)
    requires Canonical(l, lo, hi) && 0 < lo && k <= |l| && Links(first, m, l)
    requires k < |l| ==> c.End() <= l[k].addr
    ensures Returned(first, m, l, k, c) == Coalesced(first, m, LinkAt(l, k), AddrAt(l, k), c)
  {
    if k > 0 { assert LinkOk(m, l, k - 1) && OnUnits(l[k - 1], lo, hi); }
    if k < |l| { assert LinkOk(m, l, k) && OnUnits(l[k], lo, hi); }
  }

  lemma ReturnedAll(lo: nat, hi: nat, first: nat, m: Memory, l: seq<Chunk>, c: Chunk, p1: int, next: nat)
    requires Canonical(l, lo, hi) && 0 < lo && OnUnits(c, lo, hi) && !Overlaps(l, c)
    requires Links(first, m, l) && c.addr in m
    requires p1 == LinkAt(l, Below(l, c.addr)) && next == AddrAt(l, Below(l, c.addr))
    ensures var (f, n) := Coalesced(first, m, p1, next, c);
      && Links(f, n, Release(l, c))
      && n.Keys == m.Keys
      && (forall a | a in m && !Covers(Release(l, c), a) :: n[a] == m[a])
    ensures Canonical(Release(l, c), lo, hi)
    ensures Sum(Release(l, c)) == Sum(l) + c.bytes
    ensures p1 == HEADER || (p1 in m && p1 != next && p1 < c.addr)
    ensures next == 0 || (next in m && c.End() <= next)
  {
    var k := Below(l, c.addr);
    BelowSplits(l, lo, hi, c);
    ReturnedIsCoalesced(lo, hi, first, m, l, k, c);
    ReturnedOk(lo, hi, first, m, l, c);
    ReleaseCorrect(l, lo, hi, c);
    if k > 0 { assert LinkOk(m, l, k - 1); }
    if k < |l| { assert LinkOk(m, l, k); }
  }

  lemma ClearedLinks(l: seq<Chunk>, lo: nat, hi: nat, k: nat, b: nat, first: nat, m: Memory, n: Memory)
    requires Canonical(l, lo, hi) && k < |l| && b <= l[k].bytes && b % 16 == 0
    requires Canonical(Carve(l, k, b), lo, hi) && Links(first, m, Carve(l, k, b))
    requires m.Keys == n.Keys
    requires forall a | a in m && !(l[k].addr <= a < l[k].addr + b) :: n[a] == m[a]
    ensures Links(first, n, Carve(l, k, b))
  {
    var r := Carve(l, k, b);
    forall i: nat | i < |r| ensures LinkOk(n, r, i) {
      NoHeaderInBlock(l, lo, hi, k, b, i);
      assert LinkOk(m, r, i);
    }
  }

  /** Memory after `Deallocate` puts block `c` at position `k`. */
  function Returned(first: nat, m: Memory, l: seq<Chunk>, k: nat, c: Chunk): (nat, Memory)
    requires k <= |l|
  {
    var (f, n) := if SpliceFrom(l, k, c) < k then (first, m) else SetLink(first, m, LinkAt(l, k), c.addr);
    (f, n[Merged(l, k, c).addr := Cell(AddrAt(l, SpliceTo(l, k, c)), Merged(l, k, c).bytes)])
  }

  /** The block is merged into the chunk before it. */
  lemma ReturnedBack(lo: nat, hi: nat, first: nat, m: Memory, l: seq<Chunk>, k: nat, q: nat, x: Chunk)
    requires Canonical(l, lo, hi) && 0 < k <= q <= |l| && Links(first, m, l)
    requires x.addr == l[k - 1].addr && (q < |l| ==> x.End() < l[q].addr)
    ensures var n := m[x.addr := Cell(AddrAt(l, q), x.bytes)];
      Links(first, n, l[..k - 1] + [x] + l[q..]) && SameExcept(m, n, {l[k - 1].addr as int})
  {
    var n := m[x.addr := Cell(AddrAt(l, q), x.bytes)];
    assert LinkOk(m, l, k - 1);
    if k > 1 { assert LinkOk(m, l, k - 2) && l[k - 2].End() < l[k - 1].addr; }
    OneLinks(lo, hi, first, m, first, n, l, k - 1, q, x, {x.addr as int});
  }

  /** The block starts a chunk of its own. */
  lemma ReturnedFresh(lo: nat, hi: nat, first: nat, m: Memory, l: seq<Chunk>, k: nat, q: nat, x: Chunk)
    requires Canonical(l, lo, hi) && k <= q <= |l| && Links(first, m, l) && x.addr in m
    requires (k > 0 ==> l[k - 1].End() < x.addr) && (q < |l| ==> x.End() < l[q].addr)
    ensures var (f, n0) := SetLink(first, m, LinkAt(l, k), x.addr);
      var n := n0[x.addr := Cell(AddrAt(l, q), x.bytes)];
      Links(f, n, l[..k] + [x] + l[q..]) && SameExcept(m, n, Touched(l, k, x.addr))
  {
    var (f, n0) := SetLink(first, m, LinkAt(l, k), x.addr);
    var n := n0[x.addr := Cell(AddrAt(l, q), x.bytes)];
    SetLinkOk(lo, hi, first, m, l, k, x.addr);
    OneLinks(lo, hi, first, m, f, n, l, k, q, x, Touched(l, k, x.addr));
  }

  lemma MergeBounds(l: seq<Chunk>, lo: nat, hi: nat, c: Chunk)
    requires Canonical(l, lo, hi) && OnUnits(c, lo, hi) && !Overlaps(l, c)
    ensures var k := Below(l, c.addr); var q, x := SpliceTo(l, k, c), Merged(l, k, c);
      && SpliceFrom(l, k, c) <= k <= q <= |l| && k - 1 <= SpliceFrom(l, k, c)
      && (SpliceFrom(l, k, c) > 0 ==> l[SpliceFrom(l, k, c) - 1].End() < x.addr)
      && (q < |l| ==> x.End() < l[q].addr)
      && (if SpliceFrom(l, k, c) < k then x.addr == l[k - 1].addr else x.addr == c.addr)
      && Release(l, c) == l[..SpliceFrom(l, k, c)] + [x] + l[q..]
  {
    MergedOnUnits(l, lo, hi, c);
    MergedFits(l, lo, hi, c);
  }

  /** The unit written for a merged block lies in the block or in the chunk it joined. */
  lemma WrittenCovered(l: seq<Chunk>, lo: nat, hi: nat, c: Chunk, k: nat)
    requires Canonical(l, lo, hi) && OnUnits(c, lo, hi) && k <= |l|
    ensures InChunk(c, c.addr)
    ensures k > 0 ==> Covers(l, l[k - 1].addr)
  {
    if k > 0 { assert OnUnits(l[k - 1], lo, hi) && InChunk(l[k - 1], l[k - 1].addr); }
  }

  lemma ReturnedOk(lo: nat, hi: nat, first: nat, m: Memory, l: seq<Chunk>, c: Chunk)
    requires Canonical(l, lo, hi) && OnUnits(c, lo, hi) && !Overlaps(l, c) && Links(first, m, l) && c.addr in m
    ensures var (f, n) := Returned(first, m, l, Below(l, c.addr), c);
      && Links(f, n, Release(l, c))
      && n.Keys == m.Keys
      && (forall a | a in m && !Covers(l, a) && !InChunk(c, a) :: n[a] == m[a])
  {
    var k := Below(l, c.addr);
    var q, x := SpliceTo(l, k, c), Merged(l, k, c);
    MergeBounds(l, lo, hi, c);
    WrittenCovered(l, lo, hi, c, k);
    hide Canonical;
    hide OnUnits;
    hide Overlaps;
    hide Covers;
    hide Merged;
    hide SpliceTo;
    hide Release;
    hide Links;
    hide SameExcept;
    var n := Returned(first, m, l, k, c).1;
    if SpliceFrom(l, k, c) < k {
      ReturnedBack(lo, hi, first, m, l, k, q, x);
      Elsewhere(m, n, {l[k - 1].addr as int}, l, c);
    } else {
      ReturnedFresh(lo, hi, first, m, l, k, q, x);
      Elsewhere(m, n, Touched(l, k, x.addr), l, c);
    }
  }

  /** Only units of free chunks or of the block itself were written. */
  lemma Elsewhere(m: Memory, n: Memory, touched: set<int>, l: seq<Chunk>, c: Chunk)
    requires SameExcept(m, n, touched) && forall a | a in touched :: Covers(l, a) || InChunk(c, a)
    ensures n.Keys == m.Keys && forall a | a in m && !Covers(l, a) && !InChunk(c, a) :: n[a] == m[a]
  {
  }

  class MemHeader {
    const lower: nat
    const upper: nat
    var ram: Memory       // the region, by unit address
    var first: nat        // mh_First
    var freeBytes: nat    // mh_Free
    ghost var free: seq<Chunk>

    ghost predicate Shape()
      reads this
    {
      && Heap.RegionOk(lower, upper)
      && (forall a :: a in ram <==> lower <= a < upper && a % 16 == 0)
    }

    ghost predicate Valid()
      reads this
    {
      && Shape()
      && Canonical(free, lower, upper)
      && freeBytes == Sum(free)
      && Links(first, ram, free)
    }

    /** `mh_Init`: the whole region as one free chunk. */
    constructor (base: nat, len: nat)
      requires 0 < base && base % 16 == 0 && 16 <= len && base + len < ADDRESS_SPACE
      ensures Valid()
      ensures lower == base && upper == base + len / 16 * 16
      ensures free == Heap.Initial(lower, upper).free
    {
      var size := len / 16 * 16;
      lower := base;
      upper := base + size;
      ram := map a | base <= a < base + size && a % 16 == 0 :: if a == base then Cell(0, size) else Cell(0, 0);
      first := base;
      freeBytes := size;
      free := [Chunk(base, size)];
      new;
      assert free[1..] == [];
    }

    method SetNext(p: int, q: nat)
      requires p == HEADER || p in ram
      modifies this`first, this`ram
      ensures (first, ram) == SetLink(old(first), old(ram), p, q)
    {
      if p == HEADER { first := q; } else { ram := ram[p := ram[p].(next := q)]; }
    }

    /** Chunk `k` is the choice among the first `i` chunks; -1 when none of them fits. */
    ghost predicate BestOf(i: int, n: nat, reverse: bool, k: int)
      reads this
      requires 0 <= i <= |free|
    {
      && -1 <= k < i
      && (k >= 0 ==> n <= free[k].bytes)
      && (forall j | 0 <= j < i && n <= free[j].bytes :: k >= 0 && if reverse then j <= k else k <= j)
    }

    lemma BestOfAll(n: nat, reverse: bool, k: int)
      requires BestOf(|free|, n, reverse, k)
      ensures k == Pick(free, n, reverse)
    {
      if k >= 0 { PickUnique(free, n, reverse, k); }
    }

    lemma ChunkFacts(i: nat)
      requires Valid() && i <= |free|
      ensures AddrAt(free, i) == 0 <==> i == |free|
      ensures i < |free| ==> OnUnits(free[i], lower, upper) && HeaderAt(ram, free[i], AddrAt(free, i + 1))
    {
      if i < |free| { assert OnUnits(free[i], lower, upper) && LinkOk(ram, free, i); }
    }

    /** The search loop: the link in front of the chosen chunk, if any fits. */
    method Search(n: nat, reverse: bool) returns (found: bool, link: int, ghost k: int)
      requires Valid()
      ensures k == Pick(free, n, reverse)
      ensures found <==> k >= 0
      ensures found ==> link == LinkAt(free, k)
    {
      hide FreeList.Sum;
      hide OnUnits;
      hide Separated;
      var p1 := HEADER;
      var p2 := first;
      ghost var i := 0;
      found, link, k := false, 0, -1;
      ChunkFacts(0);
      while p2 != 0
        invariant 0 <= i <= |free| && p1 == LinkAt(free, i) && p2 == AddrAt(free, i)
        invariant p2 == 0 <==> i == |free|
        invariant BestOf(i, n, reverse, k) && (found <==> k >= 0)
        invariant found ==> reverse && link == LinkAt(free, k)
        decreases |free| - i
      {
        ChunkFacts(i);
        if ram[p2].bytes >= n {
          found, link, k := true, p1, i;
          if !reverse {
            PickUnique(free, n, reverse, k);
            return;
          }
        }
        p1 := p2;
        p2 := ram[p1].next;
        i := i + 1;
        ChunkFacts(i);
      }
      BestOfAll(n, reverse, k);
    }

    /** `Allocate`: first fit, or last fit under MEMF_REVERSE, with a split. */
    method Allocate(size: nat, clear: bool, reverse: bool) returns (mc: nat)
      requires Valid() && size < ADDRESS_SPACE
      modifies this
      ensures Valid()
      ensures mc == Heap.Alloc(old(free), size, reverse).0
      ensures free == Heap.Alloc(old(free), size, reverse).1
      ensures forall a | a in ram && !Covers(old(free), a) :: ram[a] == old(ram)[a]
      ensures mc != 0 && clear ==> forall a | a in ram && mc <= a < mc + RoundUp(size) :: ram[a] == Cell(0, 0)
    {
      if size == 0 { return 0; }
      RoundUpExact(size);
      var n := (size + 15) % 0x1_0000_0000_0000_0000 / 16 * 16;
      if freeBytes < n { return 0; }
      var found, p1, k := Search(n, reverse);
      if !found { return 0; }
      mc := Take(n, p1, k);
      if clear {
        Clear(old(free), mc, n, k);
      }
    }

    /** Take `n` bytes from the front of the chunk behind link `p1`. */
    method Take(n: nat, p1: int, ghost k: nat) returns (mc: nat)
      requires Valid() && k < |free| && n <= free[k].bytes && n % 16 == 0 && p1 == LinkAt(free, k)
      modifies this
      ensures Valid()
      ensures mc == old(free)[k].addr && free == Carve(old(free), k, n)
      ensures forall a | a in ram && !Covers(old(free), a) :: ram[a] == old(ram)[a]
    {
      ghost var l, m, f := free, ram, first;
      ChunkFacts(k);
      if k > 0 { ChunkFacts(k - 1); }
      var p2 := if p1 == HEADER then first else ram[p1].next;
      if ram[p2].bytes == n {
        SetNext(p1, ram[p2].next);
      } else {
        var rem, next, bytes := p2 + n, ram[p2].next, ram[p2].bytes - n;
        SetNext(p1, rem);
        ram := ram[rem := Cell(next, bytes)];
      }
      assert (first, ram) == Taken(f, m, l, k, n);
      TakenOk(lower, upper, f, m, l, k, n);
      CarveKeeps(lower, upper, l, k, n);
      freeBytes := freeBytes - n;
      free := Carve(l, k, n);
      mc := p2;
    }

    /** memset(from, 0, to - from) over whole units. */
    method Zero(from: nat, to: nat)
      requires from % 16 == 0 && to % 16 == 0 && from <= to
      requires forall a | from <= a < to && a % 16 == 0 :: a in ram
      modifies this`ram
      ensures ram.Keys == old(ram).Keys
      ensures forall a | a in ram :: ram[a] == if from <= a < to && a % 16 == 0 then Cell(0, 0) else old(ram)[a]
    {
      var a := from;
      while a < to
        invariant from <= a <= to && a % 16 == 0
        invariant ram.Keys == old(ram).Keys
        invariant forall b | b in ram :: ram[b] == if from <= b < a && b % 16 == 0 then Cell(0, 0) else old(ram)[b]
      {
        assert forall b | b in ram && b % 16 == 0 && a <= b < a + 16 :: b == a;
        ram := ram[a := Cell(0, 0)];
        a := a + 16;
      }
    }

    /** Clear the block just taken from chunk `k` of `l`. */
    method Clear(ghost l: seq<Chunk>, mc: nat, n: nat, ghost k: nat)
      requires Valid() && Canonical(l, lower, upper) && k < |l| && n <= l[k].bytes && n % 16 == 0
      requires free == Carve(l, k, n) && mc == l[k].addr
      modifies this`ram
      ensures Valid()
      ensures forall a | a in ram && mc <= a < mc + n :: ram[a] == Cell(0, 0)
      ensures forall a | a in ram && !(mc <= a < mc + n) :: ram[a] == old(ram)[a]
    {
      assert OnUnits(l[k], lower, upper);
      Zero(mc, mc + n);
      ClearedLinks(l, lower, upper, k, n, first, old(ram), ram);
    }

    lemma BelowFacts(i: nat, a: nat)
      requires Valid() && i <= |free|
      requires forall j | 0 <= j < i :: free[j].addr < a
      requires i < |free| ==> a <= free[i].addr
      ensures Below(free, a) == i
    {
      BelowUnique(free, a, i);
    }

    /** What the two overlap tests of `Deallocate` decide, at the position where the walk stops. */
    lemma OverlapTests(k: nat, c: Chunk)
      requires Valid() && OnUnits(c, lower, upper) && k == Below(free, c.addr)
      ensures Overlaps(free, c) <==> (k < |free| && free[k].addr < c.End()) || (k > 0 && c.addr < free[k - 1].End())
    {
      if k > 0 && free[k - 1].End() <= c.addr {
        forall i | 0 <= i < k ensures free[i].End() <= c.addr {}
      }
      if k < |free| { assert OnUnits(free[k], lower, upper); }
      if k < |free| && c.End() <= free[k].addr {
        forall i | k <= i < |free| ensures c.End() <= free[i].addr {}
      }
    }

    /** The first chunk at or above `p3`, with the link in front of it. */
    method Walk(p3: nat) returns (p1: int, p2: nat, ghost i: nat)
      requires Valid()
      ensures i == Below(free, p3) && p1 == LinkAt(free, i) && p2 == AddrAt(free, i)
    {
      p1, p2, i := HEADER, first, 0;
      ChunkFacts(0);
      while p2 != 0 && p2 < p3
        invariant i <= |free| && p1 == LinkAt(free, i) && p2 == AddrAt(free, i)
        invariant p2 == 0 <==> i == |free|
        invariant forall j | 0 <= j < i :: free[j].addr < p3
        decreases |free| - i
      {
        ChunkFacts(i);
        p1 := p2;
        p2 := ram[p2].next;
        i := i + 1;
        ChunkFacts(i);
      }
      BelowFacts(i, p3);
    }

    /** `Deallocate`: coalescing insert, refusing a block that is already (partly) free. */
    method Deallocate(addr: nat, size: nat) returns (ok: bool)
      requires Valid()
      requires addr != 0 && size != 0 ==> size < ADDRESS_SPACE - 32 && OnUnits(Block(addr, size), lower, upper)
      modifies this
      ensures Valid()
      ensures ok == Heap.Free(old(free), addr, size).0
      ensures free == Heap.Free(old(free), addr, size).1
      ensures forall a | a in ram && !Covers(free, a) :: ram[a] == old(ram)[a]
    {
      if addr == 0 || size == 0 { return true; }
      var n := (size + addr % 16 + 15) / 16 * 16;
      var p3: nat := addr / 16 * 16;
      var p4 := p3 + n;
      ghost var c := Block(addr, size);
      assert c == Chunk(p3, n);
      var p1, p2, i := Walk(p3);
      OverlapTests(i, c);
      ChunkFacts(i);
      if i > 0 { ChunkFacts(i - 1); }
      if p2 != 0 && p4 > p2 { return false; }
      if p1 != HEADER && p1 + ram[p1].bytes > p3 { return false; }
      PutBack(p1, p2, p3, n);
      ok := true;
    }

    /** The two merges of `Deallocate`, and the link to the new or grown chunk. */
    method Coalesce(p1: int, next: nat, p3: nat, n: nat)
      requires p1 == HEADER || (p1 in ram && 0 <= p1 < p3 && p1 != next)
      requires next == 0 || (next in ram && p3 + n <= next)
      requires p3 in ram
      modifies this`first, this`ram
      ensures (first, ram) == Coalesced(old(first), old(ram), p1, next, Chunk(p3, n))
    {
      var start, p2, p4 := p3, next, p3 + n;
      if p1 != HEADER && p1 + ram[p1].bytes == p3 {
        start := p1;
      } else {
        SetNext(p1, p3);
      }
      if p2 != 0 && p4 == p2 {
        p4 := p4 + ram[p2].bytes;
        p2 := ram[p2].next;
      }
      ram := ram[start := Cell(p2, p4 - start)];
    }

    method PutBack(p1: int, next: nat, p3: nat, n: nat)
      requires Valid() && OnUnits(Chunk(p3, n), lower, upper) && !Overlaps(free, Chunk(p3, n))
      requires p1 == LinkAt(free, Below(free, p3)) && next == AddrAt(free, Below(free, p3))
      modifies this
      ensures Valid()
      ensures free == Release(old(free), Chunk(p3, n))
      ensures forall a | a in ram && !Covers(free, a) :: ram[a] == old(ram)[a]
    {
      ReturnedAll(lower, upper, first, ram, free, Chunk(p3, n), p1, next);
      Coalesce(p1, next, p3, n);
      freeBytes := freeBytes + n;
      free := Release(free, Chunk(p3, n));
    }

    /** `chunk_count`. */
    method ChunkCount() returns (n: nat)
      requires Valid()
      ensures n == |free|
    {
      n := 0;
      var c := first;
      ChunkFacts(0);
      while c != 0
        invariant n <= |free| && c == AddrAt(free, n) && (c == 0 <==> n == |free|)
        decreases |free| - n
      {
        ChunkFacts(n);
        n := n + 1;
        c := ram[c].next;
        ChunkFacts(n);
      }
    }

    /** `free_sum`: walking the list adds up to `mh_Free`. */
    method FreeSum() returns (s: nat)
      requires Valid()
      ensures s == freeBytes
    {
      s := 0;
      var c := first;
      ghost var i := 0;
      ChunkFacts(0);
      while c != 0
        invariant 0 <= i <= |free| && c == AddrAt(free, i) && (c == 0 <==> i == |free|)
        invariant s == Sum(free[..i])
        decreases |free| - i
      {
        ChunkFacts(i);
        SumConcat(free[..i], [free[i]]);
        assert free[..i] + [free[i]] == free[..i + 1];
        s := s + ram[c].bytes;
        i := i + 1;
        c := ram[c].next;
        ChunkFacts(i);
      }
      assert free[..i] == free;
    }
  }

  /** What `freelist_sane` looks for: in bounds, in order, not overlapping.  It lets neighbours touch. */
  ghost predicate Sane(l: seq<Chunk>, from: nat, upper: nat)
  {
    l == [] || (from <= l[0].addr && l[0].End() <= upper && Sane(l[1..], l[0].End(), upper))
  }

  /** `freelist_sane`, on any finite linked list. */
  method FreelistSane(lower: nat, upper: nat, first: nat, ram: Memory, ghost l: seq<Chunk>) returns (ok: bool)
    requires Links(first, ram, l) && forall i | 0 <= i < |l| :: l[i].addr != 0
    ensures ok <==> Sane(l, lower, upper)
  {
    var prevEnd, c := lower, first;
    ghost var i := 0;
    while c != 0
      invariant 0 <= i <= |l| && c == AddrAt(l, i) && lower <= prevEnd
      invariant Sane(l, lower, upper) <==> Sane(l[i..], prevEnd, upper)
      decreases |l| - i
    {
      assert LinkOk(ram, l, i);
      if c < lower || c + ram[c].bytes > upper { return false; }
      if c < prevEnd { return false; }
      prevEnd := c + ram[c].bytes;
      i := i + 1;
      c := ram[c].next;
    }
    assert i == |l|;
    ok := true;
  }

  /** The allocator's invariant is strictly stronger than the run-time check: a canonical list is sane. */
  lemma {:induction false} CanonicalIsSane(l: seq<Chunk>, lo: nat, hi: nat, from: nat)
    requires Canonical(l, lo, hi) && (l != [] ==> from <= l[0].addr)
    ensures Sane(l, from, hi)
  {
    if l != [] {
      assert OnUnits(l[0], lo, hi);
      SliceCanonical(l, lo, hi, 1, |l|);
      assert l[1..|l|] == l[1..];
      CanonicalIsSane(l[1..], lo, hi, l[0].End());
    }
  }
}
