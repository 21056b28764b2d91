/**
 What an InitStruct stream means: a list of stores, its bytes, and the memory it leaves.

 `Stream` assembles the list as the documentation of InitStruct lays it out, with no reference
 to the decoder.  `StreamStores` says that the interpreter on those bytes succeeds exactly when
 every store fits and there are fewer than 4096, and then has performed the stores in order;
 `StoredItem` says where each item ends up.
 */
module GuestStream {
  import opened GuestMemory
  import opened GuestCode

  /** Where a row of items goes: behind the last store, or at an offset of one byte or of three. */
  datatype Dest = Next | Near(offset: nat) | Far(offset: nat)

  datatype Store =
    | Row(dest: Dest, width: Unit, items: seq<seq<byte>>)
    | Repeat(width: Unit, item: seq<byte>, count: nat)

  function Count(c: Store): nat { if c.Row? then |c.items| else c.count }

  function Item(c: Store, j: nat): seq<byte>
    requires j < Count(c)
  {
    if c.Row? then c.items[j] else c.item
  }

  /** The stores there is a command for; one longword behind the last store would read as the end mark. */
  ghost predicate Encodable(c: Store) {
    && 1 <= Count(c) <= 16
    && (forall j | 0 <= j < Count(c) :: |Item(c, j)| == c.width)
    && (c.Row? && c.dest.Near? ==> c.dest.offset < 0x100)
    && (c.Row? && c.dest.Far? ==> c.dest.offset < 0x100_0000)
    && !(c.Row? && c.dest.Next? && c.width == 4 && |c.items| == 1)
  }

  /** The store left out has no command: its command byte would be zero. */
  lemma OneLongword(c: Store)
    requires c.Row? && c.dest.Next? && c.width == 4 && |c.items| == 1
    ensures ActionCode(c) + WidthCode(c.width) + Count(c) - 1 == 0
  {
  }

  // ---------------------------------------------------------------- the assembler

  /** Longword, word, byte, quadword. */
  function WidthCode(w: Unit): nat {
    match w as nat
    case 4 => 0x00
    case 2 => 0x10
    case 1 => 0x20
    case _ => 0x30
  }

  function ActionCode(c: Store): nat {
    match c
    case Repeat(_, _, _) => 0x40
    case Row(Next, _, _) => 0x00
    case Row(Near(_), _, _) => 0x80
    case Row(Far(_), _, _) => 0xc0
  }

  /** The command byte and the offset behind it. */
  function Head(c: Store): (h: seq<byte>)
    requires Encodable(c)
    ensures 1 <= |h| <= 4
  {
    var op := (ActionCode(c) + WidthCode(c.width) + Count(c) - 1) as byte;
    match c
    case Row(Near(o), _, _) => [op, o as byte]
    case Row(Far(o), _, _) => [op, (o / 0x1_0000) as byte, (o / 0x100 % 0x100) as byte, (o % 0x100) as byte]
    case _ => [op]
  }

  function Flat(items: seq<seq<byte>>): seq<byte> {
    if items == [] then [] else items[0] + Flat(items[1..])
  }

  /** The items in the stream: all of a row, one of a repeat. */
  function Data(c: Store): seq<byte> { if c.Row? then Flat(c.items) else c.item }

  /** Commands and their data begin at even addresses. */
  function Padding(a: nat): (p: seq<byte>)
    ensures a + |p| == Even(a)
  {
    if a % 2 == 0 then [] else [0]
  }

  function DataAt(ip: nat, c: Store): nat
    requires Encodable(c)
  {
    Even(ip + |Head(c)|)
  }

  function NextAt(ip: nat, c: Store): nat
    requires Encodable(c)
  {
    Even(DataAt(ip, c) + |Data(c)|)
  }

  /** The stream of a list of stores from address `ip` on, with a zero byte at the end. */
  function Stream(ip: nat, cs: seq<Store>): seq<byte>
    requires forall k | 0 <= k < |cs| :: Encodable(cs[k])
    decreases |cs|
  {
    if cs == [] then [0]
    else
      Head(cs[0]) + Padding(ip + |Head(cs[0])|) + Data(cs[0]) + Padding(DataAt(ip, cs[0]) + |Data(cs[0])|)
      + Stream(NextAt(ip, cs[0]), cs[1..])
  }

  /** The stream that stores the longword 0x12345678 at offset 32 and ends. */
  lemma StreamExample(ip: nat)
    requires ip % 2 == 0
    ensures var c := Row(Near(32), 4, [[0x12, 0x34, 0x56, 0x78]]);
      Encodable(c) && Stream(ip, [c]) == [0x80, 0x20, 0x12, 0x34, 0x56, 0x78, 0x00]
  {
    var c := Row(Near(32), 4, [[0x12, 0x34, 0x56, 0x78]]);
    assert Flat(c.items) == c.items[0] + Flat([]) == c.items[0];
    assert [c][1..] == [];
  }

  // --------------------------------------------------------------------- the meaning

  function Copies(item: seq<byte>, n: nat): (s: seq<seq<byte>>)
    ensures |s| == n && forall j | 0 <= j < n :: s[j] == item
  {
    seq(n, _ => item)
  }

  /** All the items a store leaves. */
  function Items(c: Store): seq<seq<byte>> { if c.Row? then c.items else Copies(c.item, c.count) }

  function Address(c: Store, base: nat, dst: nat): nat {
    match c
    case Row(Near(o), _, _) => base + o
    case Row(Far(o), _, _) => base + o
    case _ => Even(dst)
  }

  /** Where the store ends, and the next one without an offset begins. */
  function End(c: Store, base: nat, dst: nat): nat { Address(c, base, dst) + Times(Count(c), c.width) }

  ghost predicate AllFit(cs: seq<Store>, base: nat, dst: nat, size: nat) {
    cs == [] || (End(cs[0], base, dst) <= base + size && AllFit(cs[1..], base, End(cs[0], base, dst), size))
  }

  lemma {:induction false} FlatLength(items: seq<seq<byte>>, w: Unit)
    requires forall j | 0 <= j < |items| :: |items[j]| == w
    ensures |Flat(items)| == Times(|items|, w)
  {
    if items != [] { FlatLength(items[1..], w); }
  }

  lemma ItemsLength(c: Store)
    requires Encodable(c)
    ensures |Flat(Items(c))| == Times(Count(c), c.width)
    ensures |Data(c)| == if c.Row? then Times(Count(c), c.width) else c.width
  {
    forall j | 0 <= j < Count(c) ensures |Items(c)[j]| == c.width { assert Items(c)[j] == Item(c, j); }
    FlatLength(Items(c), c.width);
  }

  /** One store. */
  ghost function Stored(m: Memory, c: Store, base: nat, dst: nat): (r: Memory)
    requires Encodable(c) && End(c, base, dst) <= |m|
    ensures |r| == |m|
  {
    ItemsLength(c);
    Put(m, Address(c, base, dst), Flat(Items(c)))
  }

  /** All stores in order. */
  ghost function AllStored(m: Memory, cs: seq<Store>, base: nat, dst: nat, size: nat): (r: Memory)
    requires (forall k | 0 <= k < |cs| :: Encodable(cs[k])) && base + size <= |m| && AllFit(cs, base, dst, size)
    ensures |r| == |m|
    decreases |cs|
  {
    if cs == [] then m
    else AllStored(Stored(m, cs[0], base, dst), cs[1..], base, End(cs[0], base, dst), size)
  }

  // -------------------------------------------------------------- what is decoded

  /** `bytes` stand at `a`. */
  predicate Here(m: Memory, a: nat, bytes: seq<byte>) {
    a + |bytes| <= |m| && m[a..a + |bytes|] == bytes
  }

  lemma HereSplits(m: Memory, a: nat, x: seq<byte>, y: seq<byte>)
    requires Here(m, a, x + y)
    ensures Here(m, a, x) && Here(m, a + |x|, y)
  {
    var z := m[a..a + |x + y|];
    assert m[a..a + |x|] == z[..|x|] == x;
    assert m[a + |x|..a + |x| + |y|] == z[|x|..] == y;
  }

  lemma HereAt(m: Memory, a: nat, bytes: seq<byte>, j: nat)
    requires Here(m, a, bytes) && j < |bytes|
    ensures m[a + j] == bytes[j]
  {
    assert m[a..a + |bytes|][j] == m[a + j];
  }

  lemma HereKept(m: Memory, m': Memory, a: nat, bytes: seq<byte>, limit: nat)
    requires Here(m, a, bytes) && a + |bytes| <= limit <= |m| == |m'| && forall x | 0 <= x < limit :: m'[x] == m[x]
    ensures Here(m', a, bytes)
  {
    assert m'[a..a + |bytes|] == m[a..a + |bytes|];
  }

  lemma FiveParts(m: Memory, a: nat, h: seq<byte>, p: seq<byte>, d: seq<byte>, q: seq<byte>, r: seq<byte>)
    requires Here(m, a, h + p + d + q + r)
    ensures Here(m, a, h) && Here(m, a + |h| + |p|, d) && Here(m, a + |h| + |p| + |d| + |q|, r)
  {
    hide Here;
    HereSplits(m, a, h + p + d + q, r);
    HereSplits(m, a, h + p + d, q);
    HereSplits(m, a, h + p, d);
    HereSplits(m, a, h, p);
  }

  lemma PartsMeet(ip: nat, c: Store)
    requires Encodable(c)
    ensures DataAt(ip, c) == ip + |Head(c)| + |Padding(ip + |Head(c)|)|
    ensures NextAt(ip, c) == DataAt(ip, c) + |Data(c)| + |Padding(DataAt(ip, c) + |Data(c)|)|
  {
    hide Head;
    hide Data;
  }

  lemma StreamUnfolds(ip: nat, cs: seq<Store>)
    requires (forall k | 0 <= k < |cs| :: Encodable(cs[k])) && cs != []
    ensures var c := cs[0];
      Stream(ip, cs) == Head(c) + Padding(ip + |Head(c)|) + Data(c) + Padding(DataAt(ip, c) + |Data(c)|)
                        + Stream(NextAt(ip, c), cs[1..])
  {
    hide Encodable;
    hide Head;
    hide Data;
    hide Padding;
    hide DataAt;
    hide NextAt;
  }

  /** The parts of the first command's bytes. */
  lemma StreamParts(m: Memory, ip: nat, cs: seq<Store>)
    requires (forall k | 0 <= k < |cs| :: Encodable(cs[k])) && cs != [] && Here(m, ip, Stream(ip, cs))
    ensures var c := cs[0];
      && Here(m, ip, Head(c)) && Here(m, DataAt(ip, c), Data(c))
      && Here(m, NextAt(ip, c), Stream(NextAt(ip, c), cs[1..]))
      && NextAt(ip, c) + |Stream(NextAt(ip, c), cs[1..])| == ip + |Stream(ip, cs)|
  {
    hide *;
    var c := cs[0];
    StreamUnfolds(ip, cs);
    PartsMeet(ip, c);
    FiveParts(m, ip, Head(c), Padding(ip + |Head(c)|), Data(c), Padding(DataAt(ip, c) + |Data(c)|),
              Stream(NextAt(ip, c), cs[1..]));
  }

  /** The command byte taken apart again. */
  lemma OpDecodes(c: Store)
    requires Encodable(c)
    ensures var op := Head(c)[0];
      && op != 0
      && Width(op) == c.width && op as nat % 16 + 1 == Count(c)
      && Action(op) == ActionCode(c) / 0x40 && Header(op) == |Head(c)|
  {
    OpParts(ActionCode(c) / 0x40, WidthCode(c.width) / 0x10, Count(c) - 1);
    hide Item;
  }

  lemma OpParts(a: nat, w: nat, n: nat)
    requires a < 4 && w < 4 && n < 16
    ensures var op := 0x40 * a + 0x10 * w + n; op < 0x100 && op / 0x40 == a && op / 0x10 % 4 == w && op % 0x10 == n
  {
  }

  /** The decoder finds the store that was written. */
  lemma HeadDecodes(m: Memory, ip: nat, c: Store, dst: nat, base: nat)
    requires Encodable(c) && Here(m, ip, Head(c))
    ensures ip < |m| && m[ip] != 0 && Header(m[ip]) == |Head(c)| && ip + Header(m[ip]) <= |m|
    ensures Decode(m, ip, dst, base) == Command(c.Repeat?, Count(c), c.width, Address(c, base, dst), DataAt(ip, c))
  {
    OpDecodes(c);
    HereAt(m, ip, Head(c), 0);
    if c.Row? && c.dest.Near? {
      HereAt(m, ip, Head(c), 1);
    } else if c.Row? && c.dest.Far? {
      HereAt(m, ip, Head(c), 1);
      HereAt(m, ip, Head(c), 2);
      HereAt(m, ip, Head(c), 3);
      FarOffset(c.dest.offset, m[ip]);
    }
  }

  lemma FarOffset(o: nat, op: byte)
    requires o < 0x100_0000
    ensures BigEndian(op, (o / 0x1_0000) as byte, (o / 0x100 % 0x100) as byte, (o % 0x100) as byte) % 0x100_0000 == o
  {
    var h := o / 0x100;
    assert o == 0x100 * h + o % 0x100 && h == 0x100 * (h / 0x100) + h % 0x100 && o / 0x1_0000 == h / 0x100;
    TopByteFalls(op as nat, o);
  }

  lemma TopByteFalls(k: nat, o: nat)
    requires o < 0x100_0000
    ensures (k * 0x100_0000 + o) % 0x100_0000 == o
  {
  }

  // ----------------------------------------------------------- what is executed

  /** `Repeated` wrote `count` copies in a row. */
  ghost predicate Copied(m: Memory, dst: nat, src: nat, item: seq<byte>, width: Unit, count: nat)
    requires dst + Times(count, width) <= |m| && src + width <= dst
  {
    && |Flat(Copies(item, count))| == Times(count, width)
    && Repeated(m, dst, src, width, count) == Put(m, dst, Flat(Copies(item, count)))
  }

  lemma {:induction false} RepeatedIsFlat(m: Memory, dst: nat, src: nat, item: seq<byte>, width: Unit, count: nat)
    requires |item| == width && dst + Times(count, width) <= |m| && src + width <= dst && Here(m, src, item)
    ensures Copied(m, dst, src, item, width, count)
  {
    if count == 0 {
      NoCopies(m, dst, src, item, width);
    } else {
      TimesMore(count - 1, width);
      RepeatedIsFlat(m, dst, src, item, width, count - 1);
      RepeatedMore(m, dst, src, item, width, count - 1);
    }
  }

  lemma RepeatedMore(m: Memory, dst: nat, src: nat, item: seq<byte>, width: Unit, n: nat)
    requires |item| == width && dst + Times(n + 1, width) <= |m| && src + width <= dst && Here(m, src, item)
    requires dst + Times(n, width) <= |m| && Copied(m, dst, src, item, width, n)
    ensures Copied(m, dst, src, item, width, n + 1)
  {
    hide Repeated;
    hide Put;
    hide Flat;
    hide Here;
    hide Copies;
    hide Times;
    TimesMore(n, width);
    FlatMore(item, n);
    RepeatedNext(m, dst, src, width, n);
    OneMoreItem(m, Repeated(m, dst, src, width, n), dst, src, item, Flat(Copies(item, n)));
  }

  lemma TimesMore(n: nat, w: Unit)
    ensures Times(n + 1, w) == Times(n, w) + w
  {
  }

  lemma NoCopies(m: Memory, dst: nat, src: nat, item: seq<byte>, width: Unit)
    requires dst <= |m| && src + width <= dst
    ensures Times(0, width) == 0 && Flat(Copies(item, 0)) == []
    ensures Repeated(m, dst, src, width, 0) == m == Put(m, dst, [])
  {
    assert Copies(item, 0) == [];
  }

  lemma OneMoreItem(m: Memory, r: Memory, dst: nat, src: nat, item: seq<byte>, f: seq<byte>)
    requires dst + |f| + |item| <= |m| && src + |item| <= dst && Here(m, src, item) && r == Put(m, dst, f)
    ensures Put(r, dst + |f|, r[src..src + |item|]) == Put(m, dst, f + item)
  {
    hide Put;
    HereKept(m, r, src, item, dst);
    HereIs(r, src, item);
    PutTwice(m, dst, f, item);
  }

  lemma HereIs(m: Memory, a: nat, bytes: seq<byte>)
    requires Here(m, a, bytes)
    ensures a + |bytes| <= |m| && m[a..a + |bytes|] == bytes
  {
  }

  lemma PutTwice(m: Memory, a: nat, x: seq<byte>, y: seq<byte>)
    requires a + |x| + |y| <= |m|
    ensures Put(Put(m, a, x), a + |x|, y) == Put(m, a, x + y)
  {
    hide Put;
  }

  lemma {:induction false} FlatMore(item: seq<byte>, n: nat)
    ensures Flat(Copies(item, n + 1)) == Flat(Copies(item, n)) + item
  {
    var s, t := Copies(item, n + 1), Copies(item, n);
    assert s[1..] == t && s[0] == item;
    if n > 0 {
      assert t[1..] == Copies(item, n - 1) && t[0] == item;
      FlatMore(item, n - 1);
    } else {
      assert t == [] && Flat(s) == item + Flat(t) && Flat(t) == [];
    }
  }

  /** Executing the decoded command is the store. */
  lemma ExecutedIsStored(m: Memory, c: Store, base: nat, dst: nat, src: nat)
    requires Encodable(c) && End(c, base, dst) <= |m| && Here(m, src, Data(c))
    requires src + |Data(c)| <= Address(c, base, dst)
    ensures var k := Command(c.Repeat?, Count(c), c.width, Address(c, base, dst), src);
      && k.Source() == |Data(c)| && k.dst + k.Bytes() == End(c, base, dst)
      && Executed(m, k) == Stored(m, c, base, dst)
  {
    ItemsLength(c);
    if c.Repeat? {
      RepeatedIsFlat(m, Address(c, base, dst), src, c.item, c.width, c.count);
    } else {
      assert m[src..src + |Data(c)|] == Data(c);
    }
  }

  // --------------------------------------------------------------- the interpreter

  /** The `n` bytes at `ip` lie in hunk `i`, and all hunks below the library. */
  ghost predicate StandsIn(seg: seq<Hunk>, i: nat, base: nat, ip: nat, n: nat) {
    i < |seg| && Loaded(seg, base) && InHunk(seg[i], ip, n, false)
  }

  lemma ImageSpans(seg: seq<Hunk>, i: nat, base: nat, ip: nat, n: nat, a: nat, k: nat)
    requires StandsIn(seg, i, base, ip, n) && ip <= a && a + k <= ip + n
    ensures Span(seg, a, k, false) && ip + n <= base
  {
    assert InHunk(seg[i], a, k, false);
  }

  lemma StreamIsLong(ip: nat, cs: seq<Store>)
    requires (forall k | 0 <= k < |cs| :: Encodable(cs[k]))
    ensures |Stream(ip, cs)| >= 1
    decreases |cs|
  {
    if cs != [] { StreamIsLong(NextAt(ip, cs[0]), cs[1..]); }
  }

  /** The first command of a stream runs exactly when its store fits. */
  lemma FirstRuns(m: Memory, seg: seq<Hunk>, i: nat, ip: nat, cs: seq<Store>, base: nat, dst: nat, size: nat)
    requires (forall k | 0 <= k < |cs| :: Encodable(cs[k])) && cs != []
    requires StandsIn(seg, i, base, ip, |Stream(ip, cs)|) && Here(m, ip, Stream(ip, cs))
    ensures var c := cs[0];
      && Span(seg, ip, 1, false) && ip < |m| && m[ip] != 0 && ip + Header(m[ip]) <= |m|
      && Decode(m, ip, dst, base) == Command(c.Repeat?, Count(c), c.width, Address(c, base, dst), DataAt(ip, c))
      && Here(m, DataAt(ip, c), Data(c)) && DataAt(ip, c) + |Data(c)| <= base
      && (Runnable(m, seg, ip, dst, base, size) <==> End(c, base, dst) <= base + size)
  {
    var c, n := cs[0], |Stream(ip, cs)|;
    StreamParts(m, ip, cs);
    HeadDecodes(m, ip, c, dst, base);
    StreamIsLong(NextAt(ip, c), cs[1..]);
    ItemsLength(c);
    PartsMeet(ip, c);
    ImageSpans(seg, i, base, ip, n, ip, 1);
    ImageSpans(seg, i, base, ip, n, ip, |Head(c)|);
    ImageSpans(seg, i, base, ip, n, DataAt(ip, c), |Data(c)|);
    hide Stream;
    hide Head;
    hide Data;
    hide Here;
    hide Decode;
    hide Header;
    hide Span;
    hide StandsIn;
    hide Encodable;
    hide Address;
  }

  /** The interpreter at the first command of a stream: refused, or the store and on to the rest. */
  lemma FirstCommand(m: Memory, seg: seq<Hunk>, i: nat, ip: nat, cs: seq<Store>, base: nat, dst: nat, size: nat,
                     steps: nat)
    requires (forall k | 0 <= k < |cs| :: Encodable(cs[k])) && cs != [] && base <= dst && base + size <= |m|
    requires StandsIn(seg, i, base, ip, |Stream(ip, cs)|) && Here(m, ip, Stream(ip, cs)) && steps < 4096
    requires Loaded(seg, |m|)
    ensures var c := cs[0];
      var r := Interp(m, seg, ip, dst, base, size, steps);
      if End(c, base, dst) > base + size then r == (false, m)
      else r == Interp(Stored(m, c, base, dst), seg, NextAt(ip, c), End(c, base, dst), base, size, steps + 1)
  {
    hide Interp;
    hide Runnable;
    hide Stream;
    hide Here;
    hide Executed;
    hide Stored;
    hide Decode;
    hide Header;
    hide Span;
    hide Data;
    hide Address;
    hide Encodable;
    hide StandsIn;
    hide Loaded;
    hide Times;
    var c := cs[0];
    FirstRuns(m, seg, i, ip, cs, base, dst, size);
    InterpNext(m, seg, ip, dst, base, size, steps);
    AddressAbove(c, base, dst);
    if End(c, base, dst) <= base + size { ExecutedIsStored(m, c, base, dst, DataAt(ip, c)); }
  }

  lemma AddressAbove(c: Store, base: nat, dst: nat)
    requires base <= dst
    ensures base <= Address(c, base, dst) <= End(c, base, dst)
  {
  }

  /**
   The interpreter on an assembled stream, for every list of stores: it succeeds exactly when all
   fit in the positive area and the list is shorter than 4096, and leaves the stores performed.
   */
  lemma {:induction false} StreamStores(m: Memory, seg: seq<Hunk>, i: nat, ip: nat, cs: seq<Store>, base: nat, dst: nat,
                                        size: nat, steps: nat)
    requires (forall k | 0 <= k < |cs| :: Encodable(cs[k])) && base <= dst && base + size <= |m| && Loaded(seg, |m|)
    requires StandsIn(seg, i, base, ip, |Stream(ip, cs)|) && Here(m, ip, Stream(ip, cs)) && steps <= 4096
    ensures var r := Interp(m, seg, ip, dst, base, size, steps);
      && (r.0 <==> AllFit(cs, base, dst, size) && steps + |cs| < 4096)
      && (r.0 ==> r.1 == AllStored(m, cs, base, dst, size))
    decreases |cs|
  {
    hide Interp;
    hide Span;
    hide StandsIn;
    hide Here;
    hide Encodable;
    hide Stored;
    hide Address;
    hide Times;
    hide Loaded;
    hide NextAt;
    hide Runnable;
    hide Executed;
    hide Decode;
    hide Header;
    if cs == [] || steps == 4096 { EndOfStream(m, seg, i, ip, cs, base, dst, size, steps); }
    hide Stream;
    if steps < 4096 {
      if cs != [] {
        var c := cs[0];
        FirstCommand(m, seg, i, ip, cs, base, dst, size, steps);
        if End(c, base, dst) <= base + size {
          RestStands(m, seg, i, ip, cs, base, dst, size);
          var m', end := Stored(m, c, base, dst), End(c, base, dst);
          StreamStores(m', seg, i, NextAt(ip, c), cs[1..], base, end, size, steps + 1);
        }
      }
    }
  }

  lemma EndOfStream(m: Memory, seg: seq<Hunk>, i: nat, ip: nat, cs: seq<Store>, base: nat, dst: nat, size: nat,
                    steps: nat)
    requires (forall k | 0 <= k < |cs| :: Encodable(cs[k])) && base <= dst && base + size <= |m| && Loaded(seg, |m|)
    requires StandsIn(seg, i, base, ip, |Stream(ip, cs)|) && Here(m, ip, Stream(ip, cs))
    requires if cs == [] then steps <= 4096 else steps == 4096
    ensures Interp(m, seg, ip, dst, base, size, steps) == (steps < 4096, m)
  {
    hide Interp;
    hide Span;
    hide Runnable;
    InterpNext(m, seg, ip, dst, base, size, steps);
    if cs == [] {
      HereAt(m, ip, Stream(ip, cs), 0);
      ImageSpans(seg, i, base, ip, |Stream(ip, cs)|, ip, 1);
    }
  }

  /** A store leaves the rest of the stream as it was. */
  lemma RestStands(m: Memory, seg: seq<Hunk>, i: nat, ip: nat, cs: seq<Store>, base: nat, dst: nat, size: nat)
    requires (forall k | 0 <= k < |cs| :: Encodable(cs[k])) && cs != [] && base <= dst && base + size <= |m|
    requires StandsIn(seg, i, base, ip, |Stream(ip, cs)|) && Here(m, ip, Stream(ip, cs))
    requires End(cs[0], base, dst) <= base + size
    ensures var c := cs[0];
      && Here(Stored(m, c, base, dst), NextAt(ip, c), Stream(NextAt(ip, c), cs[1..]))
      && StandsIn(seg, i, base, NextAt(ip, c), |Stream(NextAt(ip, c), cs[1..])|)
      && base <= End(c, base, dst)
  {
    hide Stream;
    hide Head;
    hide Data;
    hide Here;
    hide Put;
    hide Flat;
    hide Address;
    hide Encodable;
    hide Span;
    hide Times;
    hide Padding;
    var c, r := cs[0], Stream(NextAt(ip, cs[0]), cs[1..]);
    StreamParts(m, ip, cs);
    PartsMeet(ip, c);
    AddressAbove(c, base, dst);
    ItemsLength(c);
    ImageSpans(seg, i, base, ip, |Stream(ip, cs)|, NextAt(ip, c), |r|);
    assert InHunk(seg[i], NextAt(ip, c), |r|, false);
    StoredKeeps(m, c, base, dst);
    HereKept(m, Stored(m, c, base, dst), NextAt(ip, c), r, base);
  }

  lemma StoredKeeps(m: Memory, c: Store, base: nat, dst: nat)
    requires Encodable(c) && End(c, base, dst) <= |m| && base <= dst
    ensures forall x | 0 <= x < base :: Stored(m, c, base, dst)[x] == m[x]
  {
    ItemsLength(c);
    AddressAbove(c, base, dst);
    hide Put;
  }

  // ------------------------------------------------------------------- where items end up

  lemma {:induction false} FlatAt(items: seq<seq<byte>>, w: Unit, j: nat, b: nat)
    requires (forall k | 0 <= k < |items| :: |items[k]| == w) && j < |items| && b < w
    ensures Times(j, w) + b < |Flat(items)| && Flat(items)[Times(j, w) + b] == items[j][b]
  {
    FlatLength(items, w);
    if j > 0 { FlatAt(items[1..], w, j - 1, b); }
  }

  /** After one store item `j` stands at its address plus `j` widths. */
  lemma StoredAt(m: Memory, c: Store, base: nat, dst: nat, j: nat, b: nat)
    requires Encodable(c) && End(c, base, dst) <= |m| && j < Count(c) && b < c.width
    ensures Address(c, base, dst) + Times(j, c.width) + b < End(c, base, dst)
    ensures Stored(m, c, base, dst)[Address(c, base, dst) + Times(j, c.width) + b] == Item(c, j)[b]
  {
    ItemsLength(c);
    forall k | 0 <= k < Count(c) ensures |Items(c)[k]| == c.width && Items(c)[k] == Item(c, k) {
      assert |Item(c, k)| == c.width;
    }
    hide Flat;
    hide Put;
    hide Times;
    hide Address;
    hide Items;
    hide Item;
    hide Encodable;
    FlatAt(Items(c), c.width, j, b);
  }

  /** Where the store before number `k` ended. */
  function Reached(cs: seq<Store>, base: nat, dst: nat, k: nat): nat
    requires k <= |cs|
  {
    if k == 0 then dst else Reached(cs[1..], base, End(cs[0], base, dst), k - 1)
  }

  /** Byte `x` is none of those the stores of `cs` write. */
  ghost predicate Untouched(cs: seq<Store>, base: nat, dst: nat, x: nat) {
    cs == [] || (!(Address(cs[0], base, dst) <= x < End(cs[0], base, dst))
                 && Untouched(cs[1..], base, End(cs[0], base, dst), x))
  }

  lemma {:induction false} UntouchedStays(m: Memory, cs: seq<Store>, base: nat, dst: nat, size: nat, x: nat)
    requires (forall k | 0 <= k < |cs| :: Encodable(cs[k])) && base + size <= |m| && AllFit(cs, base, dst, size)
    requires Untouched(cs, base, dst, x) && x < |m|
    ensures AllStored(m, cs, base, dst, size)[x] == m[x]
    decreases |cs|
  {
    if cs != [] {
      ItemsLength(cs[0]);
      UntouchedStays(Stored(m, cs[0], base, dst), cs[1..], base, End(cs[0], base, dst), size, x);
    }
  }

  /** The byte of an item is there at the end unless a later store wrote over it. */
  lemma {:induction false} StoredItem(m: Memory, cs: seq<Store>, base: nat, dst: nat, size: nat, k: nat, j: nat, b: nat)
    requires (forall n | 0 <= n < |cs| :: Encodable(cs[n])) && base + size <= |m| && AllFit(cs, base, dst, size)
    requires k < |cs| && j < Count(cs[k]) && b < cs[k].width
    requires var at := Reached(cs, base, dst, k);
      Untouched(cs[k + 1..], base, End(cs[k], base, at), Address(cs[k], base, at) + Times(j, cs[k].width) + b)
    ensures var x := Address(cs[k], base, Reached(cs, base, dst, k)) + Times(j, cs[k].width) + b;
      x < |m| && AllStored(m, cs, base, dst, size)[x] == Item(cs[k], j)[b]
    decreases k
  {
    if k == 0 {
      StoredAt(m, cs[0], base, dst, j, b);
      UntouchedStays(Stored(m, cs[0], base, dst), cs[1..], base, End(cs[0], base, dst), size,
                     Address(cs[0], base, dst) + Times(j, cs[0].width) + b);
    } else {
      assert cs[1..][k - 1 + 1..] == cs[k + 1..];
      StoredItem(Stored(m, cs[0], base, dst), cs[1..], base, End(cs[0], base, dst), size, k - 1, j, b);
    }
  }
}
