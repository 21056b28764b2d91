/**
 The AUTOINIT library as functions on guest memory.

 The function table and its end mark, the vectors, the region after InitStruct and the
 Library fields, each as the memory it leaves.  The lemmas say what those writes amount to:
 each vector a jump to its target or a reserved slot that traps, nothing written outside the
 new region, and a failed InitStruct undone.
 */
module GuestLib {
  import opened GuestMemory
  import opened GuestCode

  const MAX_VECTORS: nat := 2048

  // --------------------------------------------------------------- function table

  predicate Relative(m: Memory, functions: nat)
    requires functions + 2 <= |m|
  {
    Rd16(m, functions) == 0xffff
  }

  function EntryAt(relative: bool, functions: nat, i: nat): nat {
    if relative then functions + 2 + 2 * i else functions + 4 * i
  }

  function EntrySize(relative: bool): nat { if relative then 2 else 4 }

  /** The raw entry, zero when it is not in memory. */
  function Raw(m: Memory, relative: bool, functions: nat, i: nat): (v: nat)
    ensures v < 0x1_0000_0000 && (relative ==> v < 0x1_0000)
  {
    var a := EntryAt(relative, functions, i);
    if a + EntrySize(relative) > |m| then 0 else if relative then Rd16(m, a) else Rd32(m, a)
  }

  function EndMark(relative: bool): nat { if relative then 0xffff else 0xffff_ffff }

  ghost predicate InImage(seg: seq<Hunk>, relative: bool, functions: nat, i: nat) {
    Span(seg, EntryAt(relative, functions, i), EntrySize(relative), false)
  }

  /** Entry `i` is in the image and is a function, not the end mark. */
  ghost predicate Listed(m: Memory, seg: seq<Hunk>, relative: bool, functions: nat, i: nat) {
    InImage(seg, relative, functions, i) && Raw(m, relative, functions, i) != EndMark(relative)
  }

  /** The table has exactly `n` entries before its end mark. */
  ghost predicate TableEnds(m: Memory, seg: seq<Hunk>, relative: bool, functions: nat, n: nat) {
    && (forall i | 0 <= i < n :: Listed(m, seg, relative, functions, i))
    && InImage(seg, relative, functions, n) && Raw(m, relative, functions, n) == EndMark(relative)
  }

  lemma TableEndsOnce(m: Memory, seg: seq<Hunk>, relative: bool, functions: nat, a: nat, b: nat)
    requires TableEnds(m, seg, relative, functions, a) && TableEnds(m, seg, relative, functions, b)
    ensures a == b
  {
    assert !Listed(m, seg, relative, functions, a) && !Listed(m, seg, relative, functions, b);
  }

  /** A 16-bit value as the `int16_t` it is cast to. */
  function Signed16(v: nat): (r: int)
    requires v < 0x1_0000
    ensures -0x8000 <= r < 0x8000 && (r - v) % 0x1_0000 == 0
  {
    if v >= 0x8000 then v - 0x1_0000 else v
  }

  /** The address entry `i` names, modulo 2^32; 0 for a reserved slot. */
  function Target(m: Memory, relative: bool, functions: nat, i: nat): (t: nat)
    ensures t < 0x1_0000_0000
  {
    var raw := Raw(m, relative, functions, i);
    if !relative || raw == 0 then raw else (functions + Signed16(raw)) % 0x1_0000_0000
  }

  /** A zero entry is a reserved slot; any other must lead to code. */
  ghost predicate EntryOk(m: Memory, seg: seq<Hunk>, relative: bool, functions: nat, i: nat) {
    Raw(m, relative, functions, i) == 0 || Span(seg, Target(m, relative, functions, i), 2, true)
  }

  ghost predicate TargetsOk(m: Memory, seg: seq<Hunk>, relative: bool, functions: nat, n: nat) {
    forall i | 0 <= i < n :: EntryOk(m, seg, relative, functions, i)
  }

  // ----------------------------------------------------------------- vectors, zero

  /** JMP target.l, or three ILLEGAL words for a reserved slot. */
  function VectorBytes(t: nat): (v: seq<byte>)
    requires t < 0x1_0000_0000
    ensures |v| == 6
  {
    if t != 0 then Word16(0x4ef9) + Word32(t) else Word16(0x4afc) + Word16(0x4afc) + Word16(0x4afc)
  }

  function Zeroed(m: Memory, a: nat, n: nat): (r: Memory)
    requires a + n <= |m|
    ensures |r| == |m|
    ensures forall x | 0 <= x < |m| :: r[x] == if a <= x < a + n then 0 else m[x]
  {
    Put(m, a, seq(n, _ => 0))
  }

  /** The first `n` vectors built below `base`, targets read from `src`. */
  function Vectored(m: Memory, src: Memory, relative: bool, functions: nat, base: nat, n: nat): (r: Memory)
    requires 6 * n <= base <= |m|
    ensures |r| == |m|
  {
    if n == 0 then m
    else
      Put(Vectored(m, src, relative, functions, base, n - 1), base - 6 * n,
          VectorBytes(Target(src, relative, functions, n - 1)))
  }

  lemma {:induction false} VectoredAt(m: Memory, src: Memory, relative: bool, functions: nat, base: nat, n: nat, x: nat)
    requires 6 * n <= base <= |m| && x < |m|
    ensures x < base - 6 * n || base <= x ==> Vectored(m, src, relative, functions, base, n)[x] == m[x]
    ensures base - 6 * n <= x < base ==>
      Vectored(m, src, relative, functions, base, n)[x]
      == VectorBytes(Target(src, relative, functions, (base - 1 - x) / 6))[5 - (base - 1 - x) % 6]
  {
    hide Put;
    hide VectorBytes;
    hide Target;
    if n > 0 { VectoredAt(m, src, relative, functions, base, n - 1, x); }
  }

  /** A vector at its place in memory. */
  predicate VectorIs(m: Memory, base: nat, i: nat, t: nat)
    requires t < 0x1_0000_0000
  {
    6 * (i + 1) <= base <= |m| && m[base - 6 * (i + 1)..base - 6 * i] == VectorBytes(t)
  }

  /** Vector `i` stands at base - 6(i+1). */
  lemma VectorPlaced(m: Memory, src: Memory, relative: bool, functions: nat, base: nat, n: nat, i: nat)
    requires 6 * n <= base <= |m| && i < n
    ensures VectorIs(Vectored(m, src, relative, functions, base, n), base, i, Target(src, relative, functions, i))
  {
    hide VectorBytes;
    hide Target;
    hide Vectored;
    var r := Vectored(m, src, relative, functions, base, n);
    var v := VectorBytes(Target(src, relative, functions, i));
    forall j | 0 <= j < 6 ensures r[base - 6 * (i + 1) + j] == v[j] {
      VectoredAt(m, src, relative, functions, base, n, base - 6 * (i + 1) + j);
    }
    assert r[base - 6 * (i + 1)..base - 6 * i] == v;
  }

  lemma SliceReads(m: Memory, a: nat, v: Memory, k: nat)
    requires a + |v| <= |m| && m[a..a + |v|] == v
    ensures k + 2 <= |v| ==> Rd16(m, a + k) == Rd16(v, k)
    ensures k + 4 <= |v| ==> Rd32(m, a + k) == Rd32(v, k)
  {
    hide BigEndian;
    forall j | 0 <= j < |v| ensures m[a + j] == v[j] { assert m[a..a + |v|][j] == m[a + j]; }
  }

  lemma VectorBytesRead(t: nat)
    requires t < 0x1_0000_0000
    ensures var v := VectorBytes(t);
      if t != 0 then Rd16(v, 0) == 0x4ef9 && Rd32(v, 2) == t
      else Rd16(v, 0) == 0x4afc && Rd16(v, 2) == 0x4afc && Rd16(v, 4) == 0x4afc
  {
    WordRoundTrip(t);
  }

  /** A vector as the processor reads it: JMP with its target, or ILLEGAL three times. */
  lemma VectorReads(m: Memory, base: nat, i: nat, t: nat)
    requires t < 0x1_0000_0000 && VectorIs(m, base, i, t)
    ensures var a := base - 6 * (i + 1);
      if t != 0 then Rd16(m, a) == 0x4ef9 && Rd32(m, a + 2) == t
      else Rd16(m, a) == 0x4afc && Rd16(m, a + 2) == 0x4afc && Rd16(m, a + 4) == 0x4afc
  {
    var a, v := base - 6 * (i + 1), VectorBytes(t);
    VectorBytesRead(t);
    assert m[a..a + |v|] == v;
    hide VectorBytes;
    hide Rd16;
    hide Rd32;
    SliceReads(m, a, v, 0);
    SliceReads(m, a, v, 2);
    SliceReads(m, a, v, 4);
  }

  // --------------------------------------------------------------------- identity

  datatype Resident =
    Resident(init: nat, autoinit: bool, nodeType: byte, version: byte, revision: nat, namePtr: nat, idPtr: nat)

  predicate ResidentOk(r: Resident) {
    r.revision < 0x1_0000 && r.namePtr < 0x1_0000_0000 && r.idPtr < 0x1_0000_0000
  }

  /** The Library fields copied from the Resident. */
  function Identified(m: Memory, base: nat, r: Resident, neg: nat, pos: nat): (w: Memory)
    requires base + 28 <= |m| && ResidentOk(r) && neg < 0x1_0000 && pos < 0x1_0000
    ensures |w| == |m|
    ensures forall x | 0 <= x < |m| && !(base + 8 <= x < base + 28) :: w[x] == m[x]
  {
    var m := Put(m, base + 8, [r.nodeType]);
    var m := Put(m, base + 10, Word32(r.namePtr));
    var m := Put(m, base + 14, [6]);
    var m := Put(m, base + 16, Word16(neg));
    var m := Put(m, base + 18, Word16(pos));
    var m := Put(m, base + 20, Word16(r.version as nat));
    var m := Put(m, base + 22, Word16(r.revision));
    Put(m, base + 24, Word32(r.idPtr))
  }

  lemma PutReads16(m: Memory, a: nat, v: nat)
    requires a + 2 <= |m| && v < 0x1_0000
    ensures Rd16(Put(m, a, Word16(v)), a) == v
  {
    hide Put;
  }

  lemma PutReads32(m: Memory, a: nat, v: nat)
    requires a + 4 <= |m| && v < 0x1_0000_0000
    ensures Rd32(Put(m, a, Word32(v)), a) == v
  {
    hide Put;
    WordRoundTrip(v);
  }

  /** The Library fields a program reads back: type, name, flags, sizes, version, revision, id string. */
  lemma IdentityReads(m: Memory, base: nat, r: Resident, neg: nat, pos: nat)
    requires base + 28 <= |m| && ResidentOk(r) && neg < 0x1_0000 && pos < 0x1_0000
    ensures var w := Identified(m, base, r, neg, pos);
      && w[base + 8] == r.nodeType && Rd32(w, base + 10) == r.namePtr && w[base + 14] == 6
      && Rd16(w, base + 16) == neg && Rd16(w, base + 18) == pos
      && Rd16(w, base + 20) == r.version as nat && Rd16(w, base + 22) == r.revision && Rd32(w, base + 24) == r.idPtr
      && w[base + 9] == m[base + 9] && w[base + 15] == m[base + 15]
  {
    hide Put;
    hide Word16;
    hide Word32;
    hide BigEndian;
    var m1 := Put(m, base + 8, [r.nodeType]);
    var m2 := Put(m1, base + 10, Word32(r.namePtr));
    var m3 := Put(m2, base + 14, [6]);
    var m4 := Put(m3, base + 16, Word16(neg));
    var m5 := Put(m4, base + 18, Word16(pos));
    var m6 := Put(m5, base + 20, Word16(r.version as nat));
    var m7 := Put(m6, base + 22, Word16(r.revision));
    PutReads32(m1, base + 10, r.namePtr);
    PutReads16(m3, base + 16, neg);
    PutReads16(m4, base + 18, pos);
    PutReads16(m5, base + 20, r.version as nat);
    PutReads16(m6, base + 22, r.revision);
    PutReads32(m7, base + 24, r.idPtr);
  }

  // ------------------------------------------------------------------ the outcome

  /** The AUTOINIT table: positive size, function table, InitStruct stream, init function. */
  datatype AutoInit = AutoInit(dsize: nat, functions: nat, structure: nat, initfn: nat)

  function HeaderOf(m: Memory, init: nat): AutoInit
    requires init + 16 <= |m|
  {
    AutoInit(Rd32(m, init), Rd32(m, init + 4), Rd32(m, init + 8), Rd32(m, init + 12))
  }

  ghost predicate HeaderOk(seg: seq<Hunk>, h: AutoInit) {
    && 34 <= h.dsize <= 0xffff
    && Span(seg, h.functions, 2, false)
    && (h.initfn != 0 ==> Span(seg, h.initfn, 2, true))
    && (h.structure != 0 ==> Span(seg, h.structure, 1, false))
  }

  /** The table is well formed with `n` vectors, each to code or reserved. */
  ghost predicate TableOk(m: Memory, seg: seq<Hunk>, h: AutoInit, n: nat)
    requires h.functions + 2 <= |m|
  {
    && 1 <= n < MAX_VECTORS
    && TableEnds(m, seg, Relative(m, h.functions), h.functions, n)
    && TargetsOk(m, seg, Relative(m, h.functions), h.functions, n)
  }

  function RegionSize(h: AutoInit, n: nat): nat { Even(6 * n + h.dsize) }

  /** The region zeroed and its vectors written, before InitStruct runs. */
  function Built(m: Memory, h: AutoInit, next: nat, n: nat): (r: Memory)
    requires h.functions + 2 <= |m| && Even(next) + RegionSize(h, n) <= |m|
    ensures |r| == |m|
  {
    Vectored(Zeroed(m, Even(next), RegionSize(h, n)), m, Relative(m, h.functions), h.functions, Even(next) + 6 * n, n)
  }

  /** InitStruct on the built region; no stream, no change. */
  ghost function Inited(m: Memory, seg: seq<Hunk>, h: AutoInit, next: nat, n: nat): (r: (bool, Memory))
    requires h.functions + 2 <= |m| && Even(next) + RegionSize(h, n) <= |m| && Loaded(seg, |m|)
    ensures |r.1| == |m|
  {
    var base := Even(next) + 6 * n;
    if h.structure == 0 then (true, Built(m, h, next, n))
    else Interp(Built(m, h, next, n), seg, h.structure, base, base, h.dsize, 0)
  }

  /** Only the region changes, whatever the table and the stream hold. */
  lemma InitedConfined(m: Memory, seg: seq<Hunk>, h: AutoInit, next: nat, n: nat, x: nat)
    requires h.functions + 2 <= |m| && Even(next) + RegionSize(h, n) <= |m| && Loaded(seg, |m|) && x < |m|
    requires x < Even(next) || Even(next) + RegionSize(h, n) <= x
    ensures Inited(m, seg, h, next, n).1[x] == m[x]
  {
    hide Put;
    hide Interp;
    var at, base := Even(next), Even(next) + 6 * n;
    VectoredAt(Zeroed(m, at, RegionSize(h, n)), m, Relative(m, h.functions), h.functions, base, n, x);
    if h.structure != 0 { InterpConfined(Built(m, h, next, n), seg, h.structure, base, base, h.dsize, 0, x); }
  }

  /** Below the base neither InitStruct nor the identity fields write. */
  lemma BelowBase(m: Memory, seg: seq<Hunk>, h: AutoInit, next: nat, n: nat, r: Resident, x: nat)
    requires h.functions + 2 <= |m| && Even(next) + RegionSize(h, n) <= |m| && Loaded(seg, |m|)
    requires ResidentOk(r) && 34 <= h.dsize <= 0xffff && n < MAX_VECTORS && x < Even(next) + 6 * n
    ensures Identified(Inited(m, seg, h, next, n).1, Even(next) + 6 * n, r, 6 * n, h.dsize)[x] ==
              Built(m, h, next, n)[x]
  {
    hide Interp;
    hide Identified;
    hide Built;
    var base := Even(next) + 6 * n;
    if h.structure != 0 { InterpConfined(Built(m, h, next, n), seg, h.structure, base, base, h.dsize, 0, x); }
  }

  lemma VectorSame(a: Memory, b: Memory, base: nat, i: nat, t: nat)
    requires t < 0x1_0000_0000 && |a| == |b| && VectorIs(a, base, i, t)
    requires forall x | 0 <= x < base :: a[x] == b[x]
    ensures VectorIs(b, base, i, t)
  {
    assert a[base - 6 * (i + 1)..base - 6 * i] == b[base - 6 * (i + 1)..base - 6 * i];
  }

  /** The vectors survive InitStruct and the identity fields. */
  lemma VectorsStand(m: Memory, seg: seq<Hunk>, h: AutoInit, next: nat, n: nat, r: Resident, i: nat)
    requires h.functions + 2 <= |m| && Even(next) + RegionSize(h, n) <= |m| && Loaded(seg, |m|)
    requires ResidentOk(r) && HeaderOk(seg, h) && TableOk(m, seg, h, n) && i < n
    ensures var t := Target(m, Relative(m, h.functions), h.functions, i);
      && EntryOk(m, seg, Relative(m, h.functions), h.functions, i)
      && VectorIs(Identified(Inited(m, seg, h, next, n).1, Even(next) + 6 * n, r, 6 * n, h.dsize),
                  Even(next) + 6 * n, i, t)
  {
    var t := Target(m, Relative(m, h.functions), h.functions, i);
    VectorInFinal(m, seg, h, next, n, r, i, t);
  }

  lemma VectorInFinal(m: Memory, seg: seq<Hunk>, h: AutoInit, next: nat, n: nat, r: Resident, i: nat, t: nat)
    requires h.functions + 2 <= |m| && Even(next) + RegionSize(h, n) <= |m| && Loaded(seg, |m|)
    requires ResidentOk(r) && 34 <= h.dsize <= 0xffff && n < MAX_VECTORS && i < n
    requires t == Target(m, Relative(m, h.functions), h.functions, i)
    ensures VectorIs(Identified(Inited(m, seg, h, next, n).1, Even(next) + 6 * n, r, 6 * n, h.dsize),
                     Even(next) + 6 * n, i, t)
  {
    hide Put;
    hide Interp;
    hide Even;
    hide Raw;
    hide Loaded;
    var base := Even(next) + 6 * n;
    var built, final := Built(m, h, next, n), Identified(Inited(m, seg, h, next, n).1, base, r, 6 * n, h.dsize);
    VectorPlaced(Zeroed(m, Even(next), RegionSize(h, n)), m, Relative(m, h.functions), h.functions, base, n, i);
    hide *;
    forall x | 0 <= x < base ensures built[x] == final[x] { BelowBase(m, seg, h, next, n, r, x); }
    VectorSame(built, final, base, i, t);
  }

  /** Undoing a failed InitStruct by clearing the region leaves what a bare allocation would have. */
  lemma FailureLeavesZero(m: Memory, seg: seq<Hunk>, h: AutoInit, next: nat, n: nat)
    requires h.functions + 2 <= |m| && Even(next) + RegionSize(h, n) <= |m| && Loaded(seg, |m|)
    ensures Zeroed(Inited(m, seg, h, next, n).1, Even(next), RegionSize(h, n)) ==
              Zeroed(m, Even(next), RegionSize(h, n))
  {
    hide Put;
    hide Inited;
    var a := Zeroed(Inited(m, seg, h, next, n).1, Even(next), RegionSize(h, n));
    var b := Zeroed(m, Even(next), RegionSize(h, n));
    forall x | 0 <= x < |m| ensures a[x] == b[x] {
      if x < Even(next) || Even(next) + RegionSize(h, n) <= x { InitedConfined(m, seg, h, next, n, x); }
    }
  }
}
