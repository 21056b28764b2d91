/**
 The library builder on the guest's bytes, in place.

 `ram` is indexed by guest address; `next` is the bump cursor above which nothing is
 allocated.  Each method equals the matching function of `GuestCode` or `GuestLib`.
 */
module GuestBuilder {
  import opened GuestMemory
  import opened GuestCode
  import opened GuestLib

  datatype Init = Init(base: nat, initPc: nat, neg: nat, pos: nat, vectors: nat)

  method SpanLoop(seg: seq<Hunk>, a: nat, n: nat, codeOnly: bool) returns (found: bool)
    ensures found == Span(seg, a, n, codeOnly)
  {
    for i := 0 to |seg|
      invariant forall j | 0 <= j < i :: !InHunk(seg[j], a, n, codeOnly)
    {
      if InHunk(seg[i], a, n, codeOnly) { return true; }
    }
    return false;
  }

  class Builder {
    const ram: array<byte>
    var next: nat

    /** The arena ends below 2^32 - 2^24, so no address arithmetic of the builder wraps. */
    ghost predicate Valid()
      reads this
    {
      0 < next <= ram.Length < 0xFF00_0000
    }

    method RawOf(relative: bool, functions: nat, i: nat) returns (v: nat)
      requires EntryAt(relative, functions, i) + EntrySize(relative) <= ram.Length
      ensures v == Raw(ram[..], relative, functions, i)
    {
      var a := EntryAt(relative, functions, i);
      v := if relative then ram[a] as nat * 0x100 + ram[a + 1] as nat
           else BigEndian(ram[a], ram[a + 1], ram[a + 2], ram[a + 3]);
    }

    /** The scan for the end mark: the number of entries, or MAX_VECTORS for a table without one. */
    method ScanTable(seg: seq<Hunk>, relative: bool, functions: nat) returns (n: nat)
      requires Valid() && Loaded(seg, next)
      ensures n < MAX_VECTORS ==> TableEnds(ram[..], seg, relative, functions, n)
      ensures n >= MAX_VECTORS ==> forall k | 0 <= k < MAX_VECTORS :: !TableEnds(ram[..], seg, relative, functions, k)
    {
      ghost var m := ram[..];
      n := 0;
      var inside := SpanLoop(seg, EntryAt(relative, functions, 0), EntrySize(relative), false);
      var raw := 0;
      while n < MAX_VECTORS && inside
        invariant n <= MAX_VECTORS && inside == InImage(seg, relative, functions, n)
        invariant forall i | 0 <= i < n :: Listed(m, seg, relative, functions, i)
      {
        SpanBelow(seg, next, EntryAt(relative, functions, n), EntrySize(relative), false);
        raw := RawOf(relative, functions, n);
        if raw == EndMark(relative) {
          assert TableEnds(m, seg, relative, functions, n);
          return;
        }
        n := n + 1;
        inside := SpanLoop(seg, EntryAt(relative, functions, n), EntrySize(relative), false);
      }
      forall k | 0 <= k < MAX_VECTORS ensures !TableEnds(m, seg, relative, functions, k) {
        assert k < n ==> Listed(m, seg, relative, functions, k);
        assert k > n ==> !Listed(m, seg, relative, functions, n);
      }
      n := MAX_VECTORS;
    }

    /** Every target is reserved or in a code hunk, checked before anything is allocated. */
    method CheckTargets(seg: seq<Hunk>, relative: bool, functions: nat, n: nat) returns (ok: bool)
      requires forall i | 0 <= i < n :: EntryAt(relative, functions, i) + EntrySize(relative) <= ram.Length
      ensures ok == TargetsOk(ram[..], seg, relative, functions, n)
    {
      for i := 0 to n
        invariant TargetsOk(ram[..], seg, relative, functions, i)
      {
        var raw := RawOf(relative, functions, i);
        if raw != 0 {
          var t := if relative then (functions + Signed16(raw)) % 0x1_0000_0000 else raw;
          var found := SpanLoop(seg, t, 2, true);
          if !found {
            assert !EntryOk(ram[..], seg, relative, functions, i);
            return false;
          }
        }
      }
      return true;
    }

    method Fill(a: nat, n: nat)
      requires a + n <= ram.Length
      modifies ram
      ensures ram[..] == Zeroed(old(ram[..]), a, n)
    {
      for i := a to a + n
        invariant forall x | 0 <= x < ram.Length :: ram[x] == if a <= x < i then 0 else old(ram[x])
      {
        ram[i] := 0;
      }
    }

    method Store(a: nat, bytes: seq<byte>)
      requires a + |bytes| <= ram.Length
      modifies ram
      ensures ram[..] == Put(old(ram[..]), a, bytes)
    {
      for i := 0 to |bytes|
        invariant forall x | 0 <= x < ram.Length :: ram[x] == if a <= x < a + i then bytes[x - a] else old(ram[x])
      {
        ram[a + i] := bytes[i];
      }
    }

    /** `memcpy` between ranges that do not overlap. */
    method Copy(dst: nat, src: nat, n: nat)
      requires dst + n <= ram.Length && src + n <= dst
      modifies ram
      ensures ram[..] == Put(old(ram[..]), dst, old(ram[..])[src..src + n])
    {
      for i := 0 to n
        invariant forall x | 0 <= x < ram.Length ::
          ram[x] == if dst <= x < dst + i then old(ram[src + x - dst]) else old(ram[x])
      {
        ram[dst + i] := ram[src + i];
      }
    }

    /** `alloc_zero`: 0 when it does not fit. */
    method AllocZero(bytes: nat) returns (at: nat)
      requires Valid() && 0 < bytes < 0x10_0000
      modifies this`next, ram
      ensures Valid()
      ensures at == 0 <==> Even(old(next)) + Even(bytes) > ram.Length
      ensures at == 0 ==> next == old(next) && ram[..] == old(ram[..])
      ensures at != 0 ==>
                at == Even(old(next)) && next == at + Even(bytes) && ram[..] == Zeroed(old(ram[..]), at, Even(bytes))
    {
      at := Even(next);
      var n := Even(bytes);
      if at + n > ram.Length { return 0; }
      next := at + n;
      Fill(at, n);
    }

    /** `count` copies of one item. */
    method RepeatItem(dst: nat, src: nat, width: Unit, count: nat)
      requires dst + Times(count, width) <= ram.Length && src + width <= dst
      modifies ram
      ensures ram[..] == Repeated(old(ram[..]), dst, src, width, count)
    {
      hide Put;
      hide Repeated;
      RepeatedNone(ram[..], dst, src, width);
      for i := 0 to count
        invariant ram[..] == Repeated(old(ram[..]), dst, src, width, i)
      {
        RepeatedNext(old(ram[..]), dst, src, width, i);
        Copy(dst + Times(i, width), src, width);
      }
    }

    method Execute(c: Command)
      requires c.dst + c.Bytes() <= ram.Length && c.src + c.Source() <= c.dst
      modifies ram
      ensures ram[..] == Executed(old(ram[..]), c)
    {
      if c.repeat { RepeatItem(c.dst, c.src, c.width, c.count); } else { Copy(c.dst, c.src, c.Bytes()); }
    }

    /** The decoding half of one InitStruct step: whether the command may run. */
    method Fetch(seg: seq<Hunk>, ip: nat, dst: nat, base: nat, size: nat) returns (ok: bool, c: Command)
      requires Valid() && Loaded(seg, next) && ip < ram.Length && Span(seg, ip, 1, false) && base <= dst
      ensures ok ==> base <= c.dst && c.dst + c.Bytes() <= base + size
      ensures ok == (ip + Header(ram[ip]) <= ram.Length && Runnable(ram[..], seg, ip, dst, base, size))
      ensures ok ==> c == Decode(ram[..], ip, dst, base)
    {
      c := Command(false, 0, 1, 0, 0);
      var op := ram[ip];
      var header := Header(op);
      if header > 1 {
        ok := SpanLoop(seg, ip, header, false);
        if !ok { return; }
        SpanBelow(seg, next, ip, header, false);
      }
      var offset := if header == 2 then ram[ip + 1] as nat
                    else if header == 4 then
                      ram[ip + 1] as nat * 0x1_0000 + ram[ip + 2] as nat * 0x100 + ram[ip + 3] as nat
                    else 0;
      OffsetIs(ram[..], ip);
      var to := if Action(op) >= 2 then base + offset else Even(dst);
      c := Command(Action(op) == 1, op as nat % 16 + 1, Width(op), to, Even(ip + header));
      if c.dst + c.Bytes() > base + size { return false, c; }
      ok := SpanLoop(seg, c.src, c.Source(), false);
    }

    /** `apply_initstruct`: at most STEP_LIMIT commands. */
    method ApplyInitStruct(seg: seq<Hunk>, table: nat, base: nat, size: nat) returns (ok: bool)
      requires Valid() && Loaded(seg, base) && base + size <= next
      modifies ram
      ensures (ok, ram[..]) == Interp(old(ram[..]), seg, table, base, base, size, 0)
    {
      hide Interp;
      hide Executed;
      hide Decode;
      var ip, dst, steps := table, base, 0;
      while steps < STEP_LIMIT
        invariant base <= dst
        invariant Interp(ram[..], seg, ip, dst, base, size, steps) ==
                  Interp(old(ram[..]), seg, table, base, base, size, 0)
        decreases STEP_LIMIT - steps
      {
        InterpNext(ram[..], seg, ip, dst, base, size, steps);
        steps := steps + 1;
        var inside := SpanLoop(seg, ip, 1, false);
        if !inside { return false; }
        SpanBelow(seg, next, ip, 1, false);
        if ram[ip] == 0 { return true; }
        var run, c := Fetch(seg, ip, dst, base, size);
        if !run { return false; }
        SpanBelow(seg, base, c.src, c.Source(), false);
        Execute(c);
        ip, dst := Even(c.src + c.Source()), c.dst + c.Bytes();
      }
      InterpNext(ram[..], seg, ip, dst, base, size, steps);
      return false;
    }

    method ReadAutoInit(init: nat) returns (h: AutoInit)
      requires init + 16 <= ram.Length
      ensures h == HeaderOf(ram[..], init)
    {
      var a := BigEndian(ram[init], ram[init + 1], ram[init + 2], ram[init + 3]);
      var b := BigEndian(ram[init + 4], ram[init + 5], ram[init + 6], ram[init + 7]);
      var c := BigEndian(ram[init + 8], ram[init + 9], ram[init + 10], ram[init + 11]);
      var d := BigEndian(ram[init + 12], ram[init + 13], ram[init + 14], ram[init + 15]);
      h := AutoInit(a, b, c, d);
    }

    method CheckHeader(seg: seq<Hunk>, h: AutoInit) returns (ok: bool)
      ensures ok == HeaderOk(seg, h)
    {
      if h.dsize < 34 || h.dsize > 0xffff { return false; }
      ok := SpanLoop(seg, h.functions, 2, false);
      if ok && h.initfn != 0 { ok := SpanLoop(seg, h.initfn, 2, true); }
      if ok && h.structure != 0 { ok := SpanLoop(seg, h.structure, 1, false); }
    }

    /** The number of vectors of a sound table, 0 for any other. */
    method CountVectors(seg: seq<Hunk>, h: AutoInit) returns (n: nat)
      requires Valid() && Loaded(seg, next) && h.functions + 2 <= ram.Length
      ensures n > 0 ==> TableOk(ram[..], seg, h, n)
      ensures n == 0 ==> forall k :: !TableOk(ram[..], seg, h, k)
    {
      ghost var m := ram[..];
      var relative := ram[h.functions] as nat * 0x100 + ram[h.functions + 1] as nat == 0xffff;
      n := ScanTable(seg, relative, h.functions);
      if n == 0 || n >= MAX_VECTORS {
        forall k ensures !TableOk(m, seg, h, k) { NoTable(m, seg, h, n, k); }
        return 0;
      }
      forall i | 0 <= i < n ensures EntryAt(relative, h.functions, i) + EntrySize(relative) <= next {
        assert Listed(m, seg, relative, h.functions, i);
        SpanBelow(seg, next, EntryAt(relative, h.functions, i), EntrySize(relative), false);
      }
      var ok := CheckTargets(seg, relative, h.functions, n);
      if !ok {
        forall k ensures !TableOk(m, seg, h, k) { OtherTable(m, seg, h, n, k); }
        return 0;
      }
    }

    /** The vector loop; the table is read from memory below the region. */
    method WriteVectors(relative: bool, functions: nat, base: nat, n: nat, ghost m: Memory)
      requires 6 * n <= base <= ram.Length == |m|
      requires forall i | 0 <= i < n :: EntryAt(relative, functions, i) + EntrySize(relative) <= base - 6 * n
      requires forall x | 0 <= x < base - 6 * n :: ram[x] == m[x]
      modifies ram
      ensures ram[..] == Vectored(old(ram[..]), m, relative, functions, base, n)
    {
      hide Put;
      hide VectorBytes;
      hide Raw;
      for i := 0 to n
        invariant ram[..] == Vectored(old(ram[..]), m, relative, functions, base, i)
        invariant forall x | 0 <= x < base - 6 * n :: ram[x] == m[x]
      {
        var raw := RawOf(relative, functions, i);
        RawSame(ram[..], m, relative, functions, i, base - 6 * n);
        var t := if !relative || raw == 0 then raw else (functions + Signed16(raw)) % 0x1_0000_0000;
        Store(base - 6 * (i + 1), VectorBytes(t));
      }
    }

    method Identify(base: nat, r: Resident, neg: nat, pos: nat)
      requires base + 28 <= ram.Length && ResidentOk(r) && neg < 0x1_0000 && pos < 0x1_0000
      modifies ram
      ensures ram[..] == Identified(old(ram[..]), base, r, neg, pos)
    {
      hide Put;
      Store(base + 8, [r.nodeType]);
      Store(base + 10, Word32(r.namePtr));
      Store(base + 14, [6]);
      Store(base + 16, Word16(neg));
      Store(base + 18, Word16(pos));
      Store(base + 20, Word16(r.version as nat));
      Store(base + 22, Word16(r.revision));
      Store(base + 24, Word32(r.idPtr));
    }

    /** Allocation and vectors; 0 when the region does not fit. */
    method BuildVectors(seg: seq<Hunk>, h: AutoInit, n: nat) returns (base: nat)
      requires Valid() && Loaded(seg, next) && h.dsize <= 0xffff && h.functions + 2 <= next
      requires TableOk(ram[..], seg, h, n)
      modifies this`next, ram
      ensures Valid()
      ensures base == 0 <==> Even(old(next)) + RegionSize(h, n) > ram.Length
      ensures base == 0 ==> next == old(next) && ram[..] == old(ram[..])
      ensures base != 0 ==> base == Even(old(next)) + 6 * n && next == Even(old(next)) + RegionSize(h, n)
      ensures base != 0 ==> ram[..] == Built(old(ram[..]), h, old(next), n)
    {
      hide Put;
      hide Vectored;
      ghost var m := ram[..];
      TableBelow(m, seg, h, n, next);
      var relative := ram[h.functions] as nat * 0x100 + ram[h.functions + 1] as nat == 0xffff;
      assert relative == Relative(m, h.functions);
      hide TableOk;
      var at := AllocZero(6 * n + h.dsize);
      if at == 0 { return 0; }
      base := at + 6 * n;
      WriteVectors(relative, h.functions, base, n, m);
    }

    /** The region built and InitStruct run; a failure takes the allocation back and leaves the region zero. */
    method Construct(seg: seq<Hunk>, h: AutoInit, n: nat) returns (base: nat)
      requires Valid() && Loaded(seg, next) && HeaderOk(seg, h) && h.functions + 2 <= next
      requires TableOk(ram[..], seg, h, n)
      modifies this`next, ram
      ensures Valid()
      ensures base == 0 <==> !Constructs(old(ram[..]), seg, h, old(next), n)
      ensures base == 0 ==> next == old(next)
      ensures base == 0 && Even(old(next)) + RegionSize(h, n) > ram.Length ==> ram[..] == old(ram[..])
      ensures base == 0 && Even(old(next)) + RegionSize(h, n) <= ram.Length ==>
                ram[..] == Zeroed(old(ram[..]), Even(old(next)), RegionSize(h, n))
      ensures base != 0 ==> base == Even(old(next)) + 6 * n && next == Even(old(next)) + RegionSize(h, n)
      ensures base != 0 ==> ram[..] == Inited(old(ram[..]), seg, h, old(next), n).1
    {
      hide Put;
      hide Interp;
      hide Built;
      ghost var m := ram[..];
      var oldNext := next;
      base := BuildVectors(seg, h, n);
      hide TableOk;
      if base != 0 && h.structure != 0 {
        var ok := ApplyInitStruct(seg, h.structure, base, h.dsize);
        if !ok {
          FailureLeavesZero(m, seg, h, oldNext, n);
          Fill(Even(oldNext), next - Even(oldNext));
          next := oldNext;
          return 0;
        }
      }
    }

    /** `gl68_prepare_init` for a resident that `gl68_find_resident` accepted. */
    method PrepareInit(seg: seq<Hunk>, r: Resident) returns (rc: nat, out: Init)
      requires Valid() && Loaded(seg, next) && ResidentOk(r)
      requires r.autoinit ==> Span(seg, r.init, 16, false) && r.init + 16 <= next
      modifies this`next, ram
      ensures Valid()
      ensures !r.autoinit ==> rc == 0 && out == Init(0, r.init, 0, 0, 0) && next == old(next) && ram[..] == old(ram[..])
      ensures r.autoinit && rc == 0 ==> Ready(old(ram[..]), seg, HeaderOf(old(ram[..]), r.init), old(next), out.vectors)
      ensures r.autoinit && rc == 0 ==> Finished(old(ram[..]), seg, r, old(next), out, next, ram[..])
      ensures r.autoinit && rc != 0 ==>
                forall n :: !Ready(old(ram[..]), seg, HeaderOf(old(ram[..]), r.init), old(next), n)
      ensures r.autoinit && rc != 0 ==> next == old(next)
      ensures r.autoinit && rc != 0 ==> Undone(old(ram[..]), seg, HeaderOf(old(ram[..]), r.init), old(next), ram[..])
    {
      hide Put;
      hide Inited;
      hide TableEnds;
      hide TargetsOk;
      hide HeaderOk;
      out := Init(0, r.init, 0, 0, 0);
      if !r.autoinit { return 0, out; }
      rc := 1;
      var h := ReadAutoInit(r.init);
      var ok := CheckHeader(seg, h);
      if !ok { return; }
      HeaderBounds(seg, h, next);
      var n := CountVectors(seg, h);
      if n == 0 {
        forall k ensures !Fits(old(ram[..]), seg, h, old(next), k) { assert !TableOk(ram[..], seg, h, k); }
        return;
      }
      var base := Construct(seg, h, n);
      if base == 0 {
        NotConstructed(old(ram[..]), seg, h, old(next), n, ram[..]);
        return;
      }
      Identify(base, r, 6 * n, h.dsize);
      return 0, Init(base, h.initfn, 6 * n, h.dsize, n);
    }
  }

  /** The region fits and InitStruct, if any, runs to its end mark. */
  ghost predicate Constructs(m: Memory, seg: seq<Hunk>, h: AutoInit, next: nat, n: nat)
    requires h.functions + 2 <= |m| && Loaded(seg, |m|)
  {
    Even(next) + RegionSize(h, n) <= |m| && Inited(m, seg, h, next, n).0
  }

  /** A sound header and a table of `n` vectors whose region fits: what is checked before any byte is written. */
  ghost predicate Fits(m: Memory, seg: seq<Hunk>, h: AutoInit, next: nat, n: nat) {
    && HeaderOk(seg, h) && h.functions + 2 <= |m|
    && TableOk(m, seg, h, n)
    && Even(next) + RegionSize(h, n) <= |m|
  }

  /** What a failure leaves: a region that was built is zero, and a build that never started touched nothing. */
  ghost predicate Undone(m: Memory, seg: seq<Hunk>, h: AutoInit, next: nat, m': Memory) {
    && (forall n | Fits(m, seg, h, next, n) :: m' == Zeroed(m, Even(next), RegionSize(h, n)))
    && ((forall n :: !Fits(m, seg, h, next, n)) ==> m' == m)
  }

  /** Everything a successful construction needs, decidable before it starts. */
  ghost predicate Ready(m: Memory, seg: seq<Hunk>, h: AutoInit, next: nat, n: nat) {
    Fits(m, seg, h, next, n) && Loaded(seg, |m|) && Constructs(m, seg, h, next, n)
  }

  /** What a success returns and leaves. */
  ghost predicate Finished(m: Memory, seg: seq<Hunk>, r: Resident, next: nat, out: Init, next': nat, m': Memory)
    requires ResidentOk(r) && r.init + 16 <= |m| && Ready(m, seg, HeaderOf(m, r.init), next, out.vectors)
  {
    var h, n := HeaderOf(m, r.init), out.vectors;
    && out == Init(Even(next) + 6 * n, h.initfn, 6 * n, h.dsize, n)
    && next' == Even(next) + RegionSize(h, n)
    && m' == Identified(Inited(m, seg, h, next, n).1, out.base, r, 6 * n, h.dsize)
  }

  /** A success: vector `i` stands below the base and leads to code, or is reserved and traps. */
  lemma FinishedVector(m: Memory, seg: seq<Hunk>, r: Resident, next: nat, out: Init, next': nat, m': Memory, i: nat)
    requires ResidentOk(r) && r.init + 16 <= |m| && Ready(m, seg, HeaderOf(m, r.init), next, out.vectors)
    requires Finished(m, seg, r, next, out, next', m') && i < out.vectors
    ensures var h := HeaderOf(m, r.init); var t := Target(m, Relative(m, h.functions), h.functions, i);
      && (if Raw(m, Relative(m, h.functions), h.functions, i) == 0 then t == 0 else Span(seg, t, 2, true))
      && VectorIs(m', out.base, i, t)
  {
    hide Put;
    hide Identified;
    hide Inited;
    VectorsStand(m, seg, HeaderOf(m, r.init), next, out.vectors, r, i);
  }

  /** A success: no byte outside the new region moved. */
  lemma FinishedFrame(m: Memory, seg: seq<Hunk>, r: Resident, next: nat, out: Init, next': nat, m': Memory, x: nat)
    requires ResidentOk(r) && r.init + 16 <= |m| && Ready(m, seg, HeaderOf(m, r.init), next, out.vectors)
    requires Finished(m, seg, r, next, out, next', m') && x < |m| && !(next <= x < next')
    ensures |m'| == |m| && m'[x] == m[x]
  {
    hide Put;
    hide Identified;
    hide Inited;
    hide TableOk;
    InitedConfined(m, seg, HeaderOf(m, r.init), next, out.vectors, x);
  }

  lemma HeaderBounds(seg: seq<Hunk>, h: AutoInit, next: nat)
    requires HeaderOk(seg, h) && Loaded(seg, next)
    ensures h.functions + 2 <= next && 34 <= h.dsize <= 0xffff
  {
    SpanBelow(seg, next, h.functions, 2, false);
  }

  lemma NoTable(m: Memory, seg: seq<Hunk>, h: AutoInit, n: nat, k: nat)
    requires h.functions + 2 <= |m|
    requires n == 0 ==> TableEnds(m, seg, Relative(m, h.functions), h.functions, 0)
    requires n != 0 ==> forall k | 0 <= k < MAX_VECTORS :: !TableEnds(m, seg, Relative(m, h.functions), h.functions, k)
    ensures !TableOk(m, seg, h, k)
  {
    if n == 0 && TableOk(m, seg, h, k) { TableEndsOnce(m, seg, Relative(m, h.functions), h.functions, 0, k); }
  }

  lemma OtherTable(m: Memory, seg: seq<Hunk>, h: AutoInit, n: nat, k: nat)
    requires h.functions + 2 <= |m| && TableEnds(m, seg, Relative(m, h.functions), h.functions, n)
    requires !TargetsOk(m, seg, Relative(m, h.functions), h.functions, n)
    ensures !TableOk(m, seg, h, k)
  {
    hide TargetsOk;
    if TableOk(m, seg, h, k) { TableEndsOnce(m, seg, Relative(m, h.functions), h.functions, n, k); }
  }

  lemma OnlyTable(m: Memory, seg: seq<Hunk>, h: AutoInit, n: nat)
    requires h.functions + 2 <= |m| && TableOk(m, seg, h, n)
    ensures forall k :: TableOk(m, seg, h, k) ==> k == n
  {
    forall k | TableOk(m, seg, h, k) ensures k == n {
      TableEndsOnce(m, seg, Relative(m, h.functions), h.functions, n, k);
    }
  }

  /** A failed construction: no other table, and the region is as `Construct` leaves it. */
  lemma NotConstructed(m: Memory, seg: seq<Hunk>, h: AutoInit, next: nat, n: nat, m': Memory)
    requires HeaderOk(seg, h) && h.functions + 2 <= |m| && Loaded(seg, |m|) && TableOk(m, seg, h, n)
    requires !Constructs(m, seg, h, next, n)
    requires m' == if Even(next) + RegionSize(h, n) > |m| then m else Zeroed(m, Even(next), RegionSize(h, n))
    ensures forall k :: !Ready(m, seg, h, next, k)
    ensures Undone(m, seg, h, next, m')
  {
    hide Constructs;
    hide TableOk;
    hide HeaderOk;
    OnlyTable(m, seg, h, n);
    forall k ensures Fits(m, seg, h, next, k) ==> k == n && Even(next) + RegionSize(h, n) <= |m| {
      if Fits(m, seg, h, next, k) { assert TableOk(m, seg, h, k); }
    }
    assert Even(next) + RegionSize(h, n) <= |m| ==> Fits(m, seg, h, next, n);
  }

  lemma RawSame(a: Memory, b: Memory, relative: bool, functions: nat, i: nat, limit: nat)
    requires |a| == |b| && limit <= |a| && forall x | 0 <= x < limit :: a[x] == b[x]
    requires EntryAt(relative, functions, i) + EntrySize(relative) <= limit
    ensures Raw(a, relative, functions, i) == Raw(b, relative, functions, i)
  {
  }

  lemma TableBelow(m: Memory, seg: seq<Hunk>, h: AutoInit, n: nat, next: nat)
    requires Loaded(seg, next) && h.functions + 2 <= |m| && TableOk(m, seg, h, n)
    ensures forall i | 0 <= i < n ::
      EntryAt(Relative(m, h.functions), h.functions, i) + EntrySize(Relative(m, h.functions)) <= next
  {
    var relative := Relative(m, h.functions);
    forall i | 0 <= i < n ensures EntryAt(relative, h.functions, i) + EntrySize(relative) <= next {
      assert Listed(m, seg, relative, h.functions, i);
      SpanBelow(seg, next, EntryAt(relative, h.functions, i), EntrySize(relative), false);
    }
  }

  lemma OffsetIs(m: Memory, ip: nat)
    requires ip < |m| && ip + Header(m[ip]) <= |m|
    ensures Action(m[ip]) == 3 ==>
              Offset(m, ip) == m[ip + 1] as nat * 0x1_0000 + m[ip + 2] as nat * 0x100 + m[ip + 3] as nat
  {
  }
}
