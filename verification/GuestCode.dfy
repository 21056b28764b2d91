/**
 Loaded segments, guest bytes, and the InitStruct bytecode as functions on memory.

 Memory is a byte sequence indexed by guest address; `Put` is the only write.  `Interp`
 is the interpreter, one recursive call per command; `InterpConfined` says that whatever
 the stream holds it terminates and writes nothing outside the library's positive area.
 */
module GuestCode {
  import opened GuestMemory

  type Memory = seq<byte>

  datatype Hunk = Hunk(base: nat, size: nat, code: bool)

  predicate InHunk(h: Hunk, a: nat, n: nat, codeOnly: bool) {
    h.base <= a && a + n <= h.base + h.size && (codeOnly ==> h.code)
  }

  /** `segment_span`: the whole range lies in one hunk (of code, if asked). */
  ghost predicate Span(seg: seq<Hunk>, a: nat, n: nat, codeOnly: bool) {
    exists i :: 0 <= i < |seg| && InHunk(seg[i], a, n, codeOnly)
  }

  predicate Inside(h: Hunk, x: nat) { h.base <= x < h.base + h.size }

  /** All addresses of the range lie in hunk `h`, which is code if asked. */
  ghost predicate Holds(h: Hunk, a: nat, n: nat, codeOnly: bool) {
    (codeOnly ==> h.code) && forall x: nat | a <= x < a + n :: Inside(h, x)
  }

  /** A range spans exactly when every address of it lies in one and the same hunk. */
  lemma SpanMeans(seg: seq<Hunk>, a: nat, n: nat, codeOnly: bool)
    requires n > 0
    ensures Span(seg, a, n, codeOnly) <==> exists i :: 0 <= i < |seg| && Holds(seg[i], a, n, codeOnly)
  {
    if i :| 0 <= i < |seg| && Holds(seg[i], a, n, codeOnly) {
      assert Inside(seg[i], a) && Inside(seg[i], a + n - 1);
      assert InHunk(seg[i], a, n, codeOnly);
    }
    if i :| 0 <= i < |seg| && InHunk(seg[i], a, n, codeOnly) {
      assert Holds(seg[i], a, n, codeOnly);
    }
  }

  /** Every hunk was loaded below the bump cursor. */
  ghost predicate Loaded(seg: seq<Hunk>, next: nat) {
    forall i | 0 <= i < |seg| :: seg[i].base + seg[i].size <= next
  }

  lemma SpanBelow(seg: seq<Hunk>, next: nat, a: nat, n: nat, codeOnly: bool)
    requires Loaded(seg, next) && Span(seg, a, n, codeOnly)
    ensures a + n <= next
  {
    var i :| 0 <= i < |seg| && InHunk(seg[i], a, n, codeOnly);
  }

  function Even(a: nat): (r: nat)
    ensures a <= r <= a + 1 && r % 2 == 0
  {
    (a + 1) / 2 * 2
  }

  // ------------------------------------------------------------------- InitStruct

  const STEP_LIMIT: nat := 4096

  type Unit = w: nat | w == 1 || w == 2 || w == 4 || w == 8 witness 1

  /** `n * w` for the four widths there are. */
  function Times(n: nat, w: Unit): nat {
    if w == 1 then n else if w == 2 then 2 * n else if w == 4 then 4 * n else 8 * n
  }

  /** One command: `count` items of `width` bytes to `dst`, each from `src` (repeat) or in a row. */
  datatype Command = Command(repeat: bool, count: nat, width: Unit, dst: nat, src: nat) {
    function Bytes(): nat { Times(count, width) }
    function Source(): nat { if repeat then width else Times(count, width) }
  }

  function Action(op: byte): (a: nat) ensures a < 4 { op as nat / 64 }

  function Width(op: byte): Unit {
    var code := op as nat / 16 % 4;
    if code == 0 then 4 else if code == 1 then 2 else if code == 2 then 1 else 8
  }

  /** Bytes of the command header, counting its offset field. */
  function Header(op: byte): (n: nat)
    ensures 1 <= n <= 4
  {
    if Action(op) <= 1 then 1 else if Action(op) == 2 then 2 else 4
  }

  function Offset(m: Memory, ip: nat): (n: nat)
    requires ip < |m| && ip + Header(m[ip]) <= |m|
    ensures n < 0x100_0000
  {
    if Action(m[ip]) == 2 then m[ip + 1] as nat else if Action(m[ip]) == 3 then Rd32(m, ip) % 0x100_0000 else 0
  }

  function Decode(m: Memory, ip: nat, dst: nat, base: nat): Command
    requires ip < |m| && ip + Header(m[ip]) <= |m|
  {
    var op := m[ip];
    Command(Action(op) == 1, op as nat % 16 + 1, Width(op),
            if Action(op) >= 2 then base + Offset(m, ip) else Even(dst),
            Even(ip + Header(op)))
  }

  function Repeated(m: Memory, dst: nat, src: nat, width: Unit, count: nat): (r: Memory)
    requires dst + Times(count, width) <= |m| && src + width <= |m|
    ensures |r| == |m|
  {
    if count == 0 then m
    else
      var r := Repeated(m, dst, src, width, count - 1);
      Put(r, dst + Times(count - 1, width), r[src..src + width])
  }

  function Executed(m: Memory, c: Command): (r: Memory)
    requires c.dst + c.Bytes() <= |m| && c.src + c.Source() <= |m|
    ensures |r| == |m|
  {
    if c.repeat then Repeated(m, c.dst, c.src, c.width, c.count)
    else Put(m, c.dst, m[c.src..c.src + c.Bytes()])
  }

  /** A command touches only its target bytes. */
  lemma {:induction false} RepeatedFrame(m: Memory, dst: nat, src: nat, width: Unit, count: nat, x: nat)
    requires dst + Times(count, width) <= |m| && src + width <= |m| && x < |m|
    requires x < dst || dst + Times(count, width) <= x
    ensures Repeated(m, dst, src, width, count)[x] == m[x]
  {
    hide Put;
    if count > 0 { RepeatedFrame(m, dst, src, width, count - 1, x); }
  }

  lemma PutSlice(m: Memory, a: nat, src: nat, n: nat, j: nat)
    requires a + n <= |m| && src + n <= |m| && j < n
    ensures Put(m, a, m[src..src + n])[a + j] == m[src + j]
  {
    hide Put;
  }

  lemma RepeatedNone(m: Memory, dst: nat, src: nat, width: Unit)
    requires dst <= |m| && src + width <= |m|
    ensures Repeated(m, dst, src, width, 0) == m
  {
  }

  lemma RepeatedNext(m: Memory, dst: nat, src: nat, width: Unit, i: nat)
    requires dst + Times(i + 1, width) <= |m| && src + width <= dst
    ensures var r := Repeated(m, dst, src, width, i);
      Repeated(m, dst, src, width, i + 1) == Put(r, dst + Times(i, width), r[src..src + width])
  {
    hide Put;
  }

  lemma RepeatedLast(m: Memory, dst: nat, src: nat, width: Unit, i: nat, j: nat)
    requires dst + Times(i + 1, width) <= |m| && src + width <= dst && j < width
    ensures Repeated(m, dst, src, width, i + 1)[dst + Times(i, width) + j] == m[src + j]
  {
    hide Put;
    hide Repeated;
    RepeatedNext(m, dst, src, width, i);
    RepeatedFrame(m, dst, src, width, i, src + j);
    PutSlice(Repeated(m, dst, src, width, i), dst + Times(i, width), src, width, j);
  }

  /** Item `i` of a repeat is the source item, when the source lies below the target. */
  lemma {:induction false} RepeatedItem(m: Memory, dst: nat, src: nat, width: Unit, count: nat, i: nat, j: nat)
    requires dst + Times(count, width) <= |m| && src + width <= dst && i < count && j < width
    ensures Times(i, width) + j < Times(count, width)
    ensures Repeated(m, dst, src, width, count)[dst + Times(i, width) + j] == m[src + j]
  {
    hide Put;
    if i < count - 1 {
      RepeatedItem(m, dst, src, width, count - 1, i, j);
    } else {
      RepeatedLast(m, dst, src, width, i, j);
    }
  }

  lemma ExecutedFrame(m: Memory, c: Command, x: nat)
    requires c.dst + c.Bytes() <= |m| && c.src + c.Source() <= |m| && x < |m|
    requires x < c.dst || c.dst + c.Bytes() <= x
    ensures Executed(m, c)[x] == m[x]
  {
    hide Put;
    if c.repeat { RepeatedFrame(m, c.dst, c.src, c.width, c.count, x); }
  }

  /** The command at `ip` can be decoded and run inside the library area. */
  ghost predicate Runnable(m: Memory, seg: seq<Hunk>, ip: nat, dst: nat, base: nat, size: nat) {
    && ip < |m| && ip + Header(m[ip]) <= |m|
    && Span(seg, ip, 1, false)
    && (Header(m[ip]) > 1 ==> Span(seg, ip, Header(m[ip]), false))
    && (var c := Decode(m, ip, dst, base);
        && c.dst + c.Bytes() <= base + size
        && Span(seg, c.src, c.Source(), false))
  }

  /** `apply_initstruct` from a given point: success and the memory left behind. */
  ghost function Interp(m: Memory, seg: seq<Hunk>, ip: nat, dst: nat, base: nat, size: nat, steps: nat)
    : (r: (bool, Memory))
    requires Loaded(seg, |m|) && base + size <= |m|
    ensures |r.1| == |m|
    decreases STEP_LIMIT - steps
  {
    if steps >= STEP_LIMIT || !Span(seg, ip, 1, false) then (false, m)
    else
      SpanBelow(seg, |m|, ip, 1, false);
      if m[ip] == 0 then (true, m)
      else if !(ip + Header(m[ip]) <= |m|) || !Runnable(m, seg, ip, dst, base, size) then (false, m)
      else
        var c := Decode(m, ip, dst, base);
        SpanBelow(seg, |m|, c.src, c.Source(), false);
        Interp(Executed(m, c), seg, Even(c.src + c.Source()), c.dst + c.Bytes(), base, size, steps + 1)
  }

  /** The interpreter's recursion, one command at a time. */
  lemma InterpNext(m: Memory, seg: seq<Hunk>, ip: nat, dst: nat, base: nat, size: nat, steps: nat)
    requires Loaded(seg, |m|) && base + size <= |m|
    ensures var r := Interp(m, seg, ip, dst, base, size, steps);
      if steps >= STEP_LIMIT || !Span(seg, ip, 1, false) then r == (false, m)
      else if ip >= |m| then false
      else if m[ip] == 0 then r == (true, m)
      else if !(ip + Header(m[ip]) <= |m|) || !Runnable(m, seg, ip, dst, base, size) then r == (false, m)
      else
        var c := Decode(m, ip, dst, base);
        c.src + c.Source() <= |m|
        && r == Interp(Executed(m, c), seg, Even(c.src + c.Source()), c.dst + c.Bytes(), base, size, steps + 1)
  {
    hide Executed;
    if Span(seg, ip, 1, false) { SpanBelow(seg, |m|, ip, 1, false); }
    if ip < |m| && ip + Header(m[ip]) <= |m| && Runnable(m, seg, ip, dst, base, size) {
      SpanBelow(seg, |m|, Decode(m, ip, dst, base).src, Decode(m, ip, dst, base).Source(), false);
    }
  }

  lemma {:induction false} InterpConfined(m: Memory, seg: seq<Hunk>, ip: nat, dst: nat, base: nat, size: nat,
                                          steps: nat, x: nat)
    requires Loaded(seg, |m|) && base + size <= |m| && base <= dst && x < |m| && (x < base || base + size <= x)
    ensures Interp(m, seg, ip, dst, base, size, steps).1[x] == m[x]
    decreases STEP_LIMIT - steps
  {
    hide Executed;
    hide Span;
    if steps < STEP_LIMIT && Span(seg, ip, 1, false) {
      SpanBelow(seg, |m|, ip, 1, false);
      if m[ip] != 0 && ip + Header(m[ip]) <= |m| && Runnable(m, seg, ip, dst, base, size) {
        var c := Decode(m, ip, dst, base);
        SpanBelow(seg, |m|, c.src, c.Source(), false);
        ExecutedFrame(m, c, x);
        InterpConfined(Executed(m, c), seg, Even(c.src + c.Source()), c.dst + c.Bytes(), base, size, steps + 1, x);
      }
    }
  }
}
