/**
 Guest memory: a flat big-endian byte array that stands for the addresses from
 `origin` on.

 `words` is the word view of the same bytes: for every address, aligned or not, the
 32-bit value a guest load would find there.  `Valid` keeps the two in step, so the
 structures built in guest memory can be specified on words while the byte frame of
 every write stays available.
 */
module GuestMemory {

  newtype byte = x: int | 0 <= x < 256

  type Words = map<int, nat>

  function BigEndian(b0: byte, b1: byte, b2: byte, b3: byte): (v: nat)
    ensures v < 0x1_0000_0000
  {
    b0 as nat * 0x100_0000 + b1 as nat * 0x1_0000 + b2 as nat * 0x100 + b3 as nat
  }

  /** The four bytes that `gwrite32` stores for `v`. */
  function Bytes32(v: nat): (byte, byte, byte, byte)
    requires v < 0x1_0000_0000
  {
    ((v / 0x100_0000) as byte, (v / 0x1_0000 % 0x100) as byte, (v / 0x100 % 0x100) as byte, (v % 0x100) as byte)
  }

  /** Storing a word and loading it gives the word back. */
  lemma WordRoundTrip(v: nat)
    requires v < 0x1_0000_0000
    ensures var (b0, b1, b2, b3) := Bytes32(v); BigEndian(b0, b1, b2, b3) == v
  {
    var a := v / 0x100;
    var b := a / 0x100;
    assert v == 0x100 * a + v % 0x100;
    assert v / 0x1_0000 == b && a == 0x100 * b + a % 0x100;
    assert v / 0x100_0000 == b / 0x100 && b == 0x100 * (b / 0x100) + b % 0x100;
  }

  function Rd16(m: seq<byte>, a: nat): (v: nat)
    requires a + 2 <= |m|
    ensures v < 0x1_0000
  {
    m[a] as nat * 0x100 + m[a + 1] as nat
  }

  function Rd32(m: seq<byte>, a: nat): (v: nat)
    requires a + 4 <= |m|
    ensures v < 0x1_0000_0000
  {
    BigEndian(m[a], m[a + 1], m[a + 2], m[a + 3])
  }

  function Word16(v: nat): (w: seq<byte>)
    requires v < 0x1_0000
    ensures |w| == 2
  {
    [(v / 0x100) as byte, (v % 0x100) as byte]
  }

  function Word32(v: nat): (w: seq<byte>)
    requires v < 0x1_0000_0000
    ensures |w| == 4
  {
    var (b0, b1, b2, b3) := Bytes32(v);
    [b0, b1, b2, b3]
  }

  /** The most significant byte comes first. */
  lemma WordOrder()
    ensures Word32(0x1234_5678) == [0x12, 0x34, 0x56, 0x78] && Rd32([0x12, 0x34, 0x56, 0x78], 0) == 0x1234_5678
    ensures Word16(0x1234) == [0x12, 0x34] && Rd16([0x12, 0x34], 0) == 0x1234
  {
  }

  /** `bytes` written at `a`. */
  function Put(m: seq<byte>, a: nat, bytes: seq<byte>): (r: seq<byte>)
    requires a + |bytes| <= |m|
    ensures |r| == |m|
    ensures forall x | 0 <= x < |m| :: r[x] == if a <= x < a + |bytes| then bytes[x - a] else m[x]
  {
    m[..a] + bytes + m[a + |bytes|..]
  }

  /** The word at `a`, zero outside the arena as `gread32` answers. */
  function At(w: Words, a: int): nat {
    if a in w then w[a] else 0
  }

  /** The effect of one word store on the word view: `a` holds `v`, and no word disjoint from it changes. */
  ghost predicate Stored(w: Words, w': Words, a: int, v: nat) {
    && w'.Keys == w.Keys
    && (a in w ==> w'[a] == v)
    && (forall b | b in w && (b + 4 <= a || a + 4 <= b) :: w'[b] == w[b])
    && (a !in w ==> w' == w)
  }

  /** A whole word at `a` lies in the arena. */
  ghost predicate InArena(a: int, origin: nat, size: nat) { origin <= a && a + 4 <= origin + size }

  /** `w` is the word view of the bytes. */
  ghost predicate Views(w: Words, bytes: seq<byte>, origin: nat) {
    && (forall a :: a in w <==> InArena(a, origin, |bytes|))
    && (forall a | InArena(a, origin, |bytes|) :: w[a] == Rd32(bytes, a - origin))
  }

  /** The bytes outside addresses `lo..hi` are as before. */
  ghost predicate KeptOutside(before: seq<byte>, after: seq<byte>, origin: nat, lo: nat, hi: nat) {
    |after| == |before| && forall i | 0 <= i < |before| && !(lo <= origin + i < hi) :: after[i] == before[i]
  }

  /** The words below `limit` are as before. */
  ghost predicate WordsKept(w: Words, w': Words, limit: nat) {
    forall a | a in w && a + 4 <= limit :: a in w' && w'[a] == w[a]
  }

  lemma BytesKeepWords(w: Words, w': Words, before: seq<byte>, after: seq<byte>, origin: nat, lo: nat, hi: nat)
    requires Views(w, before, origin) && Views(w', after, origin) && KeptOutside(before, after, origin, lo, hi)
    ensures WordsKept(w, w', lo)
  {
    hide BigEndian;
  }

  class Arena {
    const origin: nat
    const ram: array<byte>
    ghost var words: Words

    function Load(a: int): nat
      reads ram
      requires origin <= a && a + 4 <= origin + ram.Length
    {
      BigEndian(ram[a - origin], ram[a - origin + 1], ram[a - origin + 2], ram[a - origin + 3])
    }

    ghost predicate Valid()
      reads this, ram
    {
      && origin + ram.Length < 0x1_0000_0000
      && (forall a :: a in words <==> InArena(a, origin, ram.Length))
      && (forall a {:trigger Load(a)} :: InArena(a, origin, ram.Length) ==> words[a] == Load(a))
    }

    lemma ViewOfBytes()
      requires Valid()
      ensures Views(words, ram[..], origin)
    {
      forall a | InArena(a, origin, ram.Length)
        ensures words[a] == Rd32(ram[..], a - origin)
      {
        assert words[a] == Load(a);
      }
    }

    constructor (base: nat, size: nat)
      requires base + size < 0x1_0000_0000
      ensures Valid() && fresh(ram) && origin == base && ram.Length == size
      ensures forall i | 0 <= i < size :: ram[i] == 0
    {
      origin := base;
      ram := new byte[size](_ => 0);
      words := map a | base <= a <= base + size - 4 && InArena(a, base, size) :: 0;
    }

    /** `gread32`. */
    method Read32(a: nat) returns (v: nat)
      requires Valid()
      ensures v == At(words, a) && v < 0x1_0000_0000
      ensures a < origin || a + 4 > origin + ram.Length ==> v == 0
    {
      if a < origin || a + 4 > origin + ram.Length { return 0; }
      v := Load(a);
    }

    method StoreBytes(i: nat, v: nat)
      requires i + 4 <= ram.Length && v < 0x1_0000_0000
      modifies ram
      ensures ram[..] == Put(old(ram[..]), i, Word32(v))
    {
      var (b0, b1, b2, b3) := Bytes32(v);
      ram[i] := b0;
      ram[i + 1] := b1;
      ram[i + 2] := b2;
      ram[i + 3] := b3;
    }

    /** `gwrite32`. */
    method Write32(a: nat, v: nat)
      requires Valid() && v < 0x1_0000_0000
      modifies this`words, ram
      ensures Valid() && Stored(old(words), words, a, v)
      ensures forall i | 0 <= i < ram.Length && !(a <= origin + i < a + 4) :: ram[i] == old(ram[i])
    {
      if a < origin || a + 4 > origin + ram.Length { return; }
      ghost var before := ram[..];
      forall b | InArena(b, origin, |before|)
        ensures words[b] ==
                  BigEndian(before[b - origin], before[b - origin + 1], before[b - origin + 2], before[b - origin + 3])
      {
        assert words[b] == Load(b);
      }
      StoreBytes(a - origin, v);
      WordRoundTrip(v);
      Resync(a, v, before);
    }

    /** Bring the word view up to date after the word at `a` was stored. */
    ghost method Resync(a: int, v: nat, before: seq<byte>)
      requires origin + ram.Length < 0x1_0000_0000 && |before| == ram.Length
      requires forall b :: b in words <==> InArena(b, origin, ram.Length)
      requires forall b | InArena(b, origin, |before|) ::
        words[b] ==
        BigEndian(before[b - origin], before[b - origin + 1], before[b - origin + 2], before[b - origin + 3])
      requires forall j | 0 <= j < ram.Length && !(a <= origin + j < a + 4) :: ram[j] == before[j]
      requires InArena(a, origin, ram.Length) && Load(a) == v
      modifies this`words
      ensures Valid() && Stored(old(words), words, a, v)
    {
      var w := words;
      words := map b | b in w :: Load(b);
      assert forall b :: b in words <==> b in w;
    }
  }
}
