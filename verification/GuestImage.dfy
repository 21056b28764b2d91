/**
 From the description of an AUTOINIT library to the library in memory.

 A description names the sizes, the vectors and the stores; `HeaderBytes`, `TableBytes` and
 `GuestStream.Stream` are its bytes in the loaded file, assembled without the reader.
 `LibraryReady` says when `gl68_prepare_init` accepts those bytes, and `LibraryBuilt` what it
 has built then: every vector leads to the address that was named, and the stores are done.
 */
module GuestImage {
  import opened GuestMemory
  import opened GuestCode
  import opened GuestLib
  import opened GuestStream
  import opened GuestBuilder

  // ------------------------------------------------------------- the function table

  /** Target 0 is a reserved slot. */
  datatype Table = Addresses(targets: seq<nat>) | Displacements(targets: seq<nat>)

  /** A target in reach of a signed 16-bit displacement that is neither 0 nor the end mark. */
  predicate InReach(functions: nat, t: nat) {
    -0x8000 <= t - functions < 0x8000 && t != functions && t != functions - 1
  }

  /**
   The tables that can be written down.  A table of addresses must not begin with the mark of
   the other kind, and neither kind may contain its end mark.
   */
  ghost predicate Writable(functions: nat, t: Table) {
    match t
    case Addresses(ts) =>
      ts != [] && ts[0] < 0xffff_0000 && forall k | 0 <= k < |ts| :: ts[k] < 0xffff_ffff
    case Displacements(ts) =>
      forall k | 0 <= k < |ts| :: ts[k] < 0x1_0000_0000 && (ts[k] == 0 || InReach(functions, ts[k]))
  }

  function EntryBytes(functions: nat, relative: bool, t: nat): seq<byte>
    requires t < 0x1_0000_0000
  {
    if !relative then Word32(t) else Word16(if t == 0 then 0 else (t - functions) % 0x1_0000)
  }

  function Entries(functions: nat, relative: bool, ts: seq<nat>): seq<byte>
    requires forall k | 0 <= k < |ts| :: ts[k] < 0x1_0000_0000
  {
    if ts == [] then [] else EntryBytes(functions, relative, ts[0]) + Entries(functions, relative, ts[1..])
  }

  function TableBytes(functions: nat, t: Table): seq<byte>
    requires Writable(functions, t)
  {
    if t.Displacements? then [0xff, 0xff] + (Entries(functions, true, t.targets) + [0xff, 0xff])
    else Entries(functions, false, t.targets) + [0xff, 0xff, 0xff, 0xff]
  }

  /** A table of three displacements: back, reserved, forward. */
  lemma TableExample()
    ensures var t := Displacements([0x0ffe, 0, 0x1010]);
      Writable(0x1000, t)
      && TableBytes(0x1000, t) == [0xff, 0xff, 0xff, 0xfe, 0x00, 0x00, 0x00, 0x10, 0xff, 0xff]
  {
    var ts := [0x0ffe, 0, 0x1010];
    assert ts[1..] == [0, 0x1010] && ts[1..][1..] == [0x1010] && ts[1..][1..][1..] == [];
    assert Entries(0x1000, true, [0x1010]) == EntryBytes(0x1000, true, 0x1010) + Entries(0x1000, true, []) by {
      assert [0x1010][1..] == [];
    }
    assert Entries(0x1000, true, ts) == EntryBytes(0x1000, true, 0x0ffe)
                                        + (EntryBytes(0x1000, true, 0) + EntryBytes(0x1000, true, 0x1010));
  }

  lemma {:induction false} EntriesLength(functions: nat, relative: bool, ts: seq<nat>)
    requires forall k | 0 <= k < |ts| :: ts[k] < 0x1_0000_0000
    ensures |Entries(functions, relative, ts)| == (if relative then 2 else 4) * |ts|
  {
    if ts != [] { EntriesLength(functions, relative, ts[1..]); }
  }

  lemma {:induction false} EntriesAt(m: Memory, a: nat, functions: nat, relative: bool, ts: seq<nat>, k: nat)
    requires (forall j | 0 <= j < |ts| :: ts[j] < 0x1_0000_0000) && k < |ts|
    requires Here(m, a, Entries(functions, relative, ts))
    ensures Here(m, a + (if relative then 2 else 4) * k, EntryBytes(functions, relative, ts[k]))
    decreases k
  {
    hide Here;
    var first, rest := EntryBytes(functions, relative, ts[0]), Entries(functions, relative, ts[1..]);
    HereSplits(m, a, first, rest);
    if k > 0 { EntriesAt(m, a + |first|, functions, relative, ts[1..], k - 1); }
  }

  lemma HereReads16(m: Memory, a: nat, v: nat)
    requires v < 0x1_0000 && Here(m, a, Word16(v))
    ensures a + 2 <= |m| && Rd16(m, a) == v
  {
    HereAt(m, a, Word16(v), 0);
    HereAt(m, a, Word16(v), 1);
  }

  lemma HereReads32(m: Memory, a: nat, v: nat)
    requires v < 0x1_0000_0000 && Here(m, a, Word32(v))
    ensures a + 4 <= |m| && Rd32(m, a) == v
  {
    forall j: nat | j < 4 ensures m[a + j] == Word32(v)[j] { HereAt(m, a, Word32(v), j); }
    WordRoundTrip(v);
  }

  /** A displacement is the signed distance, whichever way it goes. */
  lemma DisplacementReads(functions: nat, t: nat)
    requires t < 0x1_0000_0000 && InReach(functions, t)
    ensures var d := (t - functions) % 0x1_0000;
      0 < d < 0xffff && Signed16(d) == t - functions && (functions + Signed16(d)) % 0x1_0000_0000 == t
  {
  }

  lemma HereEnds(m: Memory, functions: nat, t: Table)
    requires Writable(functions, t) && Here(m, functions, TableBytes(functions, t))
    ensures var rel, n := t.Displacements?, |t.targets|;
      && |TableBytes(functions, t)| == EntryAt(rel, functions, n) + EntrySize(rel) - functions
      && Here(m, EntryAt(rel, functions, 0), Entries(functions, rel, t.targets))
      && Here(m, EntryAt(rel, functions, n), if rel then [0xff, 0xff] else [0xff, 0xff, 0xff, 0xff])
      && (rel ==> Here(m, functions, [0xff, 0xff]))
  {
    hide Here;
    var e := Entries(functions, t.Displacements?, t.targets);
    EntriesLength(functions, t.Displacements?, t.targets);
    if t.Displacements? {
      HereSplits(m, functions, [0xff, 0xff], e + [0xff, 0xff]);
      HereSplits(m, functions + 2, e, [0xff, 0xff]);
    } else {
      HereSplits(m, functions, e, [0xff, 0xff, 0xff, 0xff]);
    }
  }

  /** The kind of the table. */
  lemma KindReads(m: Memory, functions: nat, t: Table)
    requires Writable(functions, t) && Here(m, functions, TableBytes(functions, t))
    ensures functions + 2 <= |m| && (Relative(m, functions) <==> t.Displacements?)
  {
    HereEnds(m, functions, t);
    if t.Displacements? {
      HereAt(m, functions, [0xff, 0xff], 0);
      HereAt(m, functions, [0xff, 0xff], 1);
    } else {
      EntriesAt(m, functions, functions, false, t.targets, 0);
      HereReads32(m, functions, t.targets[0]);
      assert Rd32(m, functions) == Rd16(m, functions) * 0x1_0000 + Rd16(m, functions + 2);
    }
  }

  lemma AddressReads(m: Memory, functions: nat, k: nat, x: nat)
    requires x < 0xffff_ffff && Here(m, EntryAt(false, functions, k), Word32(x))
    ensures Raw(m, false, functions, k) == x == Target(m, false, functions, k)
  {
    HereReads32(m, EntryAt(false, functions, k), x);
  }

  lemma DistanceReads(m: Memory, functions: nat, k: nat, x: nat)
    requires x < 0x1_0000_0000 && (x == 0 || InReach(functions, x))
    requires Here(m, EntryAt(true, functions, k), Word16(if x == 0 then 0 else (x - functions) % 0x1_0000))
    ensures Raw(m, true, functions, k) < 0xffff && (Raw(m, true, functions, k) == 0 <==> x == 0)
    ensures Target(m, true, functions, k) == x
  {
    HereReads16(m, EntryAt(true, functions, k), if x == 0 then 0 else (x - functions) % 0x1_0000);
    hide Rd16;
    hide Rd32;
    hide Word16;
    hide Here;
    if x != 0 { DisplacementReads(functions, x); }
    hide Signed16;
  }

  /** Entry `k` as the reader finds it. */
  lemma EntryReads(m: Memory, functions: nat, t: Table, k: nat)
    requires Writable(functions, t) && Here(m, functions, TableBytes(functions, t)) && k < |t.targets|
    ensures var rel := t.Displacements?;
      && Raw(m, rel, functions, k) != EndMark(rel)
      && (Raw(m, rel, functions, k) == 0 <==> t.targets[k] == 0)
      && Target(m, rel, functions, k) == t.targets[k]
  {
    hide Here;
    hide Raw;
    hide Target;
    hide Word16;
    hide Word32;
    hide TableBytes;
    hide Entries;
    HereEnds(m, functions, t);
    EntriesAt(m, EntryAt(t.Displacements?, functions, 0), functions, t.Displacements?, t.targets, k);
    if t.Displacements? {
      DistanceReads(m, functions, k, t.targets[k]);
    } else {
      AddressReads(m, functions, k, t.targets[k]);
    }
  }

  /** The end mark is found behind the last entry. */
  lemma EndReads(m: Memory, functions: nat, t: Table)
    requires Writable(functions, t) && Here(m, functions, TableBytes(functions, t))
    ensures Raw(m, t.Displacements?, functions, |t.targets|) == EndMark(t.Displacements?)
  {
    HereEnds(m, functions, t);
    var a := EntryAt(t.Displacements?, functions, |t.targets|);
    if t.Displacements? {
      HereReads16(m, a, 0xffff);
    } else {
      HereReads32(m, a, 0xffff_ffff);
    }
  }

  ghost predicate InCode(seg: seq<Hunk>, t: Table) {
    forall k | 0 <= k < |t.targets| :: t.targets[k] == 0 || Span(seg, t.targets[k], 2, true)
  }

  /** The reader accepts the table, with all its vectors, exactly when it is short enough and leads to code. */
  lemma TableReads(m: Memory, seg: seq<Hunk>, i: nat, base: nat, h: AutoInit, t: Table)
    requires Writable(h.functions, t) && Here(m, h.functions, TableBytes(h.functions, t))
    requires StandsIn(seg, i, base, h.functions, |TableBytes(h.functions, t)|)
    ensures h.functions + 2 <= |m|
    ensures forall n :: TableOk(m, seg, h, n) <==> n == |t.targets| && 1 <= n < 2048 && InCode(seg, t)
  {
    var f, rel, len := h.functions, t.Displacements?, |t.targets|;
    KindReads(m, f, t);
    HereEnds(m, f, t);
    EndReads(m, f, t);
    forall k | 0 <= k < len
      ensures Listed(m, seg, rel, f, k)
      ensures EntryOk(m, seg, rel, f, k) <==> t.targets[k] == 0 || Span(seg, t.targets[k], 2, true)
    {
      EntryReads(m, f, t, k);
      ImageSpans(seg, i, base, f, |TableBytes(f, t)|, EntryAt(rel, f, k), EntrySize(rel));
    }
    ImageSpans(seg, i, base, f, |TableBytes(f, t)|, EntryAt(rel, f, len), EntrySize(rel));
    assert TableEnds(m, seg, rel, f, len);
    hide Here;
    hide TableBytes;
    hide Raw;
    hide Target;
    hide Span;
    hide StandsIn;
    forall n | TableOk(m, seg, h, n) ensures n == len { TableEndsOnce(m, seg, rel, f, n, len); }
  }

  // -------------------------------------------------------------- the whole library

  /** What an AUTOINIT resident describes; `structure` 0 means no stream and `initfn` 0 no init function. */
  datatype Library =
    Library(dsize: nat, functions: nat, table: Table, structure: nat, stores: seq<Store>, initfn: nat)

  function HeaderFor(l: Library): AutoInit { AutoInit(l.dsize, l.functions, l.structure, l.initfn) }

  function HeaderBytes(l: Library): seq<byte>
    requires l.dsize < 0x1_0000_0000 && l.functions < 0x1_0000_0000
    requires l.structure < 0x1_0000_0000 && l.initfn < 0x1_0000_0000
  {
    Word32(l.dsize) + (Word32(l.functions) + (Word32(l.structure) + Word32(l.initfn)))
  }

  /** The loaded file spells out `l`: header at `init`, table in hunk `i`, stream in hunk `j`. */
  ghost predicate Describes(m: Memory, seg: seq<Hunk>, init: nat, l: Library, i: nat, j: nat, next: nat) {
    && l.dsize < 0x1_0000_0000 && l.functions < 0x1_0000_0000 && l.structure < 0x1_0000_0000 && l.initfn < 0x1_0000_0000
    && Writable(l.functions, l.table) && (forall k | 0 <= k < |l.stores| :: Encodable(l.stores[k]))
    && Here(m, init, HeaderBytes(l))
    && Here(m, l.functions, TableBytes(l.functions, l.table))
    && StandsIn(seg, i, next, l.functions, |TableBytes(l.functions, l.table)|)
    && (if l.structure == 0 then l.stores == []
        else Here(m, l.structure, Stream(l.structure, l.stores))
             && StandsIn(seg, j, next, l.structure, |Stream(l.structure, l.stores)|))
  }

  lemma HeaderReads(m: Memory, seg: seq<Hunk>, init: nat, l: Library, i: nat, j: nat, next: nat)
    requires Describes(m, seg, init, l, i, j, next)
    ensures init + 16 <= |m| && HeaderOf(m, init) == HeaderFor(l)
  {
    hide Here;
    hide Word32;
    hide TableBytes;
    hide Stream;
    HereSplits(m, init, Word32(l.dsize), Word32(l.functions) + (Word32(l.structure) + Word32(l.initfn)));
    HereSplits(m, init + 4, Word32(l.functions), Word32(l.structure) + Word32(l.initfn));
    HereSplits(m, init + 8, Word32(l.structure), Word32(l.initfn));
    HereReads32(m, init, l.dsize);
    HereReads32(m, init + 4, l.functions);
    HereReads32(m, init + 8, l.structure);
    HereReads32(m, init + 12, l.initfn);
  }

  /** The file is below the region, so building the vectors leaves it as it was. */
  lemma BuiltBelow(m: Memory, h: AutoInit, next: nat, n: nat, x: nat)
    requires h.functions + 2 <= |m| && Even(next) + RegionSize(h, n) <= |m| && x < next
    ensures Built(m, h, next, n)[x] == m[x]
  {
    hide Put;
    var base := Even(next) + 6 * n;
    VectoredAt(Zeroed(m, Even(next), RegionSize(h, n)), m, Relative(m, h.functions), h.functions, base, n, x);
    hide Vectored;
  }

  /** InitStruct on the built region has performed the stores, or has failed as they do not fit. */
  ghost predicate Performed(m: Memory, seg: seq<Hunk>, l: Library, next: nat, n: nat)
    requires l.functions + 2 <= |m| && Even(next) + RegionSize(HeaderFor(l), n) <= |m| && Loaded(seg, |m|)
    requires forall k | 0 <= k < |l.stores| :: Encodable(l.stores[k])
  {
    var base, r := Even(next) + 6 * n, Inited(m, seg, HeaderFor(l), next, n);
    && (r.0 <==> AllFit(l.stores, base, base, l.dsize) && |l.stores| < 4096)
    && (r.0 ==> r.1 == AllStored(Built(m, HeaderFor(l), next, n), l.stores, base, base, l.dsize))
  }

  lemma StoresDone(m: Memory, seg: seq<Hunk>, init: nat, l: Library, i: nat, j: nat, next: nat, n: nat)
    requires Describes(m, seg, init, l, i, j, next) && next <= |m| && Loaded(seg, |m|)
    requires l.functions + 2 <= |m| && Even(next) + RegionSize(HeaderFor(l), n) <= |m|
    ensures Performed(m, seg, l, next, n)
  {
    hide Built;
    hide Stream;
    hide Interp;
    hide Here;
    hide HeaderBytes;
    hide TableBytes;
    hide AllFit;
    hide AllStored;
    hide Encodable;
    hide Writable;
    var h := HeaderFor(l);
    var base, built := Even(next) + 6 * n, Built(m, h, next, n);
    assert Loaded(seg, base);
    if l.structure != 0 {
      StreamStands(m, seg, j, h, l.structure, Stream(l.structure, l.stores), next, n);
      StreamStores(built, seg, j, l.structure, l.stores, base, base, l.dsize, 0);
    } else {
      NoStores(built, base, l.dsize);
    }
  }

  lemma NoStores(m: Memory, base: nat, size: nat)
    requires base + size <= |m|
    ensures AllFit([], base, base, size) && AllStored(m, [], base, base, size) == m
  {
  }

  lemma StreamStands(m: Memory, seg: seq<Hunk>, j: nat, h: AutoInit, a: nat, s: seq<byte>, next: nat, n: nat)
    requires h.functions + 2 <= |m| && Even(next) + RegionSize(h, n) <= |m| && next <= |m|
    requires Here(m, a, s) && StandsIn(seg, j, next, a, |s|)
    ensures Here(Built(m, h, next, n), a, s) && StandsIn(seg, j, Even(next) + 6 * n, a, |s|)
  {
    hide Built;
    forall x | 0 <= x < next ensures Built(m, h, next, n)[x] == m[x] { BuiltBelow(m, h, next, n, x); }
    ImageSpans(seg, j, next, a, |s|, a, 0);
    HereKept(m, Built(m, h, next, n), a, s, next);
  }

  /** When `gl68_prepare_init` accepts a described library, in terms of the description. */
  ghost predicate Buildable(m: Memory, seg: seq<Hunk>, l: Library, next: nat) {
    var n := |l.table.targets|;
    var base := Even(next) + 6 * n;
    && 34 <= l.dsize <= 65535 && 1 <= n < 2048 && |l.stores| < 4096
    && (l.initfn == 0 || Span(seg, l.initfn, 2, true))
    && InCode(seg, l.table)
    && Even(next) + Even(6 * n + l.dsize) <= |m|
    && AllFit(l.stores, base, base, l.dsize)
  }

  lemma LibraryReady(m: Memory, seg: seq<Hunk>, init: nat, l: Library, i: nat, j: nat, next: nat)
    requires Describes(m, seg, init, l, i, j, next) && next <= |m|
    ensures init + 16 <= |m|
    ensures forall n ::
      Ready(m, seg, HeaderOf(m, init), next, n) <==> n == |l.table.targets| && Buildable(m, seg, l, next)
  {
    hide *;
    var h, len := HeaderFor(l), |l.table.targets|;
    HeaderReads(m, seg, init, l, i, j, next);
    HeaderFits(m, seg, init, l, i, j, next);
    TableFits(m, seg, init, l, i, j, next);
    assert forall k | 0 <= k < |l.stores| :: Encodable(l.stores[k]) by { StoresEncodable(m, seg, init, l, i, j, next); }
    forall n ensures Ready(m, seg, h, next, n) <==> n == len && Buildable(m, seg, l, next) {
      if n == len && Even(next) + RegionSize(h, n) <= |m| { StoresDone(m, seg, init, l, i, j, next, n); }
      ReadyIs(m, seg, l, next, n);
    }
  }

  lemma StoresEncodable(m: Memory, seg: seq<Hunk>, init: nat, l: Library, i: nat, j: nat, next: nat)
    requires Describes(m, seg, init, l, i, j, next)
    ensures forall k | 0 <= k < |l.stores| :: Encodable(l.stores[k])
  {
  }

  lemma TableFits(m: Memory, seg: seq<Hunk>, init: nat, l: Library, i: nat, j: nat, next: nat)
    requires Describes(m, seg, init, l, i, j, next)
    ensures l.functions + 2 <= |m|
    ensures var h := HeaderFor(l);
      forall n :: TableOk(m, seg, h, n) <==> n == |l.table.targets| && 1 <= n < 2048 && InCode(seg, l.table)
  {
    TableReads(m, seg, i, next, HeaderFor(l), l.table);
  }

  lemma ReadyIs(m: Memory, seg: seq<Hunk>, l: Library, next: nat, n: nat)
    requires Loaded(seg, |m|) && l.functions + 2 <= |m| && forall k | 0 <= k < |l.stores| :: Encodable(l.stores[k])
    requires HeaderOk(seg, HeaderFor(l)) <==>
             34 <= l.dsize <= 65535 && (l.initfn == 0 || Span(seg, l.initfn, 2, true))
    requires TableOk(m, seg, HeaderFor(l), n) <==> n == |l.table.targets| && 1 <= n < 2048 && InCode(seg, l.table)
    requires n == |l.table.targets| && Even(next) + RegionSize(HeaderFor(l), n) <= |m| ==> Performed(m, seg, l, next, n)
    ensures Ready(m, seg, HeaderFor(l), next, n) <==> n == |l.table.targets| && Buildable(m, seg, l, next)
  {
    hide Inited;
    hide TableOk;
    hide HeaderOk;
    hide Span;
    hide AllFit;
    hide AllStored;
    hide Built;
    hide InCode;
    hide Encodable;
  }

  lemma HeaderFits(m: Memory, seg: seq<Hunk>, init: nat, l: Library, i: nat, j: nat, next: nat)
    requires Describes(m, seg, init, l, i, j, next) && next <= |m|
    ensures Loaded(seg, |m|)
    ensures HeaderOk(seg, HeaderFor(l)) <==>
              34 <= l.dsize <= 65535 && (l.initfn == 0 || Span(seg, l.initfn, 2, true))
  {
    hide Here;
    hide Stream;
    hide TableBytes;
    HereEnds(m, l.functions, l.table);
    ImageSpans(seg, i, next, l.functions, |TableBytes(l.functions, l.table)|, l.functions, 2);
    if l.structure != 0 {
      StreamIsLong(l.structure, l.stores);
      ImageSpans(seg, j, next, l.structure, |Stream(l.structure, l.stores)|, l.structure, 1);
    }
    hide Span;
  }

  /** What is built of a described library: the stores on the built region, then the Library fields. */
  ghost predicate Outcome(m: Memory, r: Resident, l: Library, next: nat, out: Init, m': Memory)
    requires ResidentOk(r) && forall k | 0 <= k < |l.stores| :: Encodable(l.stores[k])
  {
    var n := |l.table.targets|;
    var base := Even(next) + 6 * n;
    && out == Init(base, l.initfn, 6 * n, l.dsize, n)
    && l.functions + 2 <= |m| && Even(next) + RegionSize(HeaderFor(l), n) <= |m| && 34 <= l.dsize <= 65535 && n < 2048
    && AllFit(l.stores, base, base, l.dsize)
    && m' == Identified(AllStored(Built(m, HeaderFor(l), next, n), l.stores, base, base, l.dsize),
                        base, r, 6 * n, l.dsize)
  }

  lemma LibraryBuilt(m: Memory, seg: seq<Hunk>, r: Resident, l: Library, i: nat, j: nat, next: nat, out: Init,
                     next': nat,
                     m': Memory)
    requires Describes(m, seg, r.init, l, i, j, next) && next <= |m| && ResidentOk(r) && r.init + 16 <= |m|
    requires Ready(m, seg, HeaderOf(m, r.init), next, out.vectors) && Finished(m, seg, r, next, out, next', m')
    ensures (forall k | 0 <= k < |l.stores| :: Encodable(l.stores[k])) && Outcome(m, r, l, next, out, m')
  {
    hide *;
    StoresEncodable(m, seg, r.init, l, i, j, next);
    LibraryReady(m, seg, r.init, l, i, j, next);
    HeaderReads(m, seg, r.init, l, i, j, next);
    HeaderFits(m, seg, r.init, l, i, j, next);
    ReadyFits(m, seg, l, next);
    StoresDone(m, seg, r.init, l, i, j, next, |l.table.targets|);
    OutcomeIs(m, seg, r, l, next, out, next', m');
  }

  lemma ReadyFits(m: Memory, seg: seq<Hunk>, l: Library, next: nat)
    requires Ready(m, seg, HeaderFor(l), next, |l.table.targets|)
    ensures Loaded(seg, |m|) && l.functions + 2 <= |m|
    ensures Even(next) + RegionSize(HeaderFor(l), |l.table.targets|) <= |m|
  {
  }

  lemma OutcomeIs(m: Memory, seg: seq<Hunk>, r: Resident, l: Library, next: nat, out: Init, next': nat, m': Memory)
    requires ResidentOk(r) && r.init + 16 <= |m| && HeaderOf(m, r.init) == HeaderFor(l)
    requires forall k | 0 <= k < |l.stores| :: Encodable(l.stores[k])
    requires out.vectors == |l.table.targets| && Ready(m, seg, HeaderFor(l), next, out.vectors)
    requires Finished(m, seg, r, next, out, next', m') && Performed(m, seg, l, next, out.vectors)
    ensures Outcome(m, r, l, next, out, m')
  {
    hide Inited;
    hide TableEnds;
    hide TargetsOk;
    hide Built;
    hide Identified;
    hide AllFit;
    hide AllStored;
    hide Span;
    hide Encodable;
    hide HeaderOf;
  }

  /** Vector `k` leads to the target that was named, or traps if it was reserved. */
  lemma VectorLeads(m: Memory, seg: seq<Hunk>, r: Resident, l: Library, i: nat, j: nat, next: nat, out: Init,
                    next': nat,
                    m': Memory, k: nat)
    requires Describes(m, seg, r.init, l, i, j, next) && next <= |m| && ResidentOk(r) && r.init + 16 <= |m|
    requires Ready(m, seg, HeaderOf(m, r.init), next, out.vectors) && Finished(m, seg, r, next, out, next', m')
    requires k < |l.table.targets|
    ensures l.table.targets[k] < 0x1_0000_0000 && VectorIs(m', out.base, k, l.table.targets[k])
  {
    hide Inited;
    hide TableOk;
    hide TableBytes;
    hide Stream;
    hide Here;
    hide Identified;
    hide VectorIs;
    hide Target;
    hide Encodable;
    LibraryReady(m, seg, r.init, l, i, j, next);
    HeaderReads(m, seg, r.init, l, i, j, next);
    KindReads(m, l.functions, l.table);
    EntryReads(m, l.functions, l.table, k);
    FinishedVector(m, seg, r, next, out, next', m', k);
  }
}
