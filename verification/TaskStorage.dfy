/**
 The task-storage calls on the table of 128 entries, with snapshots in guest memory.

 Every method is tied to the functions of `TaskTable`; `SnapshotAt` is the layout a
 snapshot has in guest memory, written by `Save` and accepted by `Restore`.
 */
module TaskStorage {
  import opened TaskTable
  import opened GuestMemory

  const MAGIC: nat := 0x5453_4c53
  const ENTRIES: nat := 128

  /** The pair at index `i` of a snapshot. */
  ghost predicate PairAt(w: Words, p: int, pair: Pair) {
    At(w, p) == pair.slot && At(w, p + 4) == pair.value
  }

  /** Pairs `0..n` of `ps` stand at handle + 12 onwards. */
  ghost predicate PairsAt(w: Words, handle: int, ps: seq<Pair>, n: nat)
    requires n <= |ps|
  {
    forall i | 0 <= i < n :: PairAt(w, handle + 12 + 8 * i, ps[i])
  }

  ghost predicate SnapshotAt(w: Words, handle: int, task: nat, ps: seq<Pair>) {
    && At(w, handle) == MAGIC && At(w, handle + 4) == task && At(w, handle + 8) == |ps|
    && PairsAt(w, handle, ps, |ps|)
  }

  ghost predicate Words32(es: seq<Entry>) {
    forall i | 0 <= i < |es| :: es[i].slot < 0x1_0000_0000 && es[i].value < 0x1_0000_0000
  }

  lemma StoredKeeps(w: Words, w': Words, a: int, v: nat, handle: int, ps: seq<Pair>, n: nat)
    requires Stored(w, w', a, v) && n <= |ps| && PairsAt(w, handle, ps, n)
    requires a >= handle + 12 + 8 * n || a + 4 <= handle + 12
    ensures PairsAt(w', handle, ps, n)
  {
    forall i | 0 <= i < n ensures PairAt(w', handle + 12 + 8 * i, ps[i]) {
      assert PairAt(w, handle + 12 + 8 * i, ps[i]);
    }
  }

  lemma FirstUnique(es: seq<Entry>, task: nat, slot: nat, a: int, b: int)
    requires FirstAt(es, task, slot, a) && FirstAt(es, task, slot, b)
    ensures a == b
  {
    assert a >= 0 ==> Is(es[a], task, slot);
    assert b >= 0 ==> Is(es[b], task, slot);
  }

  lemma FreeUnique(es: seq<Entry>, a: int, b: int)
    requires FreeAt(es, a) && FreeAt(es, b)
    ensures a == b
  {
    assert a >= 0 ==> !es[a].live;
    assert b >= 0 ==> !es[b].live;
  }

  class Storage {
    const entries: array<Entry>
    const arena: Arena
    var heap: nat
    const heapEnd: nat

    /** The bump heap lies in the arena and never at address 0. */
    ghost predicate Valid()
      reads this, arena, arena.ram, entries
    {
      && entries.Length == ENTRIES && arena.Valid()
      && 0 < arena.origin <= heap <= heapEnd <= arena.origin + arena.ram.Length < 0xFF00_0000
      && Words32(entries[..]) && NoDup(entries[..])
    }

    /** A fresh run: no entry live. */
    constructor (memory: Arena, start: nat, end: nat)
      requires memory.Valid() && 0 < memory.origin <= start <= end <= memory.origin + memory.ram.Length < 0xFF00_0000
      ensures Valid() && fresh(entries) && arena == memory && heap == start && heapEnd == end
      ensures forall i | 0 <= i < ENTRIES :: !entries[i].live
    {
      entries := new Entry[ENTRIES](_ => Entry(false, 0, 0, 0));
      arena := memory;
      heap := start;
      heapEnd := end;
    }

    method FindLoop(task: nat, slot: nat) returns (i: int)
      ensures i == Find(entries[..], task, slot)
    {
      i := 0;
      while i < entries.Length && !Is(entries[i], task, slot)
        invariant 0 <= i <= entries.Length && forall j | 0 <= j < i :: !Is(entries[j], task, slot)
      {
        i := i + 1;
      }
      if i == entries.Length { i := -1; }
      FirstUnique(entries[..], task, slot, i, Find(entries[..], task, slot));
    }

    method FreeLoop() returns (i: int)
      ensures i == FindFree(entries[..])
    {
      i := 0;
      while i < entries.Length && entries[i].live
        invariant 0 <= i <= entries.Length && forall j | 0 <= j < i :: entries[j].live
      {
        i := i + 1;
      }
      if i == entries.Length { i := -1; }
      FreeUnique(entries[..], i, FindFree(entries[..]));
    }

    /** `storage_set`. */
    method SetEntry(task: nat, slot: nat, value: nat) returns (ok: bool)
      modifies entries
      ensures ok == (Target(old(entries[..]), task, slot) >= 0)
      ensures entries[..] == Set(old(entries[..]), task, slot, value)
    {
      var i := FindLoop(task, slot);
      if i < 0 {
        i := FreeLoop();
        if i < 0 { return false; }
        entries[i] := Entry(true, task, slot, entries[i].value);
      }
      entries[i] := entries[i].(value := value);
      return true;
    }

    /** SET_SLOT; slot 0 is refused. */
    method SetSlot(task: nat, slot: nat, value: nat) returns (ok: bool)
      requires Valid() && slot < 0x1_0000_0000 && value < 0x1_0000_0000
      modifies entries
      ensures Valid()
      ensures ok == (slot != 0 && Target(old(entries[..]), task, slot) >= 0)
      ensures entries[..] == if slot == 0 then old(entries[..]) else Set(old(entries[..]), task, slot, value)
    {
      if slot == 0 { return false; }
      SetKeepsNoDup(entries[..], task, slot, value);
      ok := SetEntry(task, slot, value);
    }

    /** GET_SLOT: 0 for a key that is not there. */
    method GetSlot(task: nat, slot: nat) returns (value: nat)
      requires Valid()
      ensures value == match Lookup(entries[..], task, slot) case None => 0 case Some(v) => v
    {
      var i := FindLoop(task, slot);
      value := if i >= 0 then entries[i].value else 0;
    }

    /** FREE_SLOT. */
    method FreeSlot(slot: nat)
      requires Valid()
      modifies entries
      ensures Valid() && entries[..] == Freed(old(entries[..]), slot)
    {
      ghost var was := entries[..];
      for i := 0 to entries.Length
        invariant forall j | 0 <= j < i :: entries[j] == Freed(was, slot)[j]
        invariant forall j | i <= j < entries.Length :: entries[j] == was[j]
      {
        if entries[i].live && entries[i].slot == slot { entries[i] := entries[i].(live := false); }
      }
      assert entries[..] == Freed(was, slot);
      FreedLookup(was, slot, 0, 0);
    }

    /** The clearing loop of RESTORE_STORAGE. */
    method ClearTask(task: nat)
      requires Valid()
      modifies entries
      ensures Valid() && entries[..] == Cleared(old(entries[..]), task)
    {
      ghost var was := entries[..];
      for i := 0 to entries.Length
        invariant forall j | 0 <= j < i :: entries[j] == Cleared(was, task)[j]
        invariant forall j | i <= j < entries.Length :: entries[j] == was[j]
      {
        if Of(entries[i], task) { entries[i] := entries[i].(live := false); }
      }
      assert entries[..] == Cleared(was, task);
      ClearedLookup(was, task, 0, 0);
    }

    method CountTask(task: nat) returns (count: nat)
      ensures count == |Saved(entries[..], task, entries.Length)|
    {
      count := 0;
      for i := 0 to entries.Length
        invariant count == |Saved(entries[..], task, i)|
      {
        if Of(entries[i], task) { count := count + 1; }
      }
    }

    /** The bump allocation of `guest_alloc`; 0 when it does not fit. */
    method Bump(size: nat) returns (a: nat)
      requires Valid() && 0 < size <= 0x1_0000
      modifies this`heap
      ensures Valid()
      ensures a == if old(heap) + Rounded(size) <= heapEnd then old(heap) else 0
      ensures heap == if a == 0 then old(heap) else old(heap) + Rounded(size)
    {
      var n := Rounded(size);
      if heap + n > heapEnd { return 0; }
      a := heap;
      heap := heap + n;
    }

    method WritePairs(task: nat, out: nat)
      requires Valid() && arena.origin <= out
      requires out + 12 + 8 * |Saved(entries[..], task, ENTRIES)| <= arena.origin + arena.ram.Length
      modifies arena`words, arena.ram
      ensures Valid()
      ensures PairsAt(arena.words, out, Saved(entries[..], task, ENTRIES), |Saved(entries[..], task, ENTRIES)|)
      ensures forall a | a in old(arena.words)
                && (a + 4 <= out + 12 || out + 12 + 8 * |Saved(entries[..], task, ENTRIES)| <= a) ::
        a in arena.words && arena.words[a] == old(arena.words[a])
      ensures KeptOutside(old(arena.ram[..]), arena.ram[..], arena.origin,
                          out + 12, out + 12 + 8 * |Saved(entries[..], task, ENTRIES)|)
    {
      ghost var ps := Saved(entries[..], task, ENTRIES);
      var p := out + 12;
      for i := 0 to entries.Length
        invariant Valid()
        invariant Saved(entries[..], task, i) <= ps
        invariant p == out + 12 + 8 * |Saved(entries[..], task, i)|
        invariant PairsAt(arena.words, out, ps, |Saved(entries[..], task, i)|)
        invariant forall a | a in old(arena.words) && (a + 4 <= out + 12 || out + 12 + 8 * |ps| <= a) ::
            a in arena.words && arena.words[a] == old(arena.words[a])
        invariant KeptOutside(old(arena.ram[..]), arena.ram[..], arena.origin, out + 12, out + 12 + 8 * |ps|)
      {
        if Of(entries[i], task) {
          SavedPrefix(entries[..], task, i + 1, entries.Length);
          WritePair(p, entries[i].slot, entries[i].value, out, ps, |Saved(entries[..], task, i)|);
          p := p + 8;
        }
      }
    }

    method WritePair(p: nat, slot: nat, value: nat, ghost out: nat, ghost ps: seq<Pair>, ghost n: nat)
      requires Valid() && slot < 0x1_0000_0000 && value < 0x1_0000_0000
      requires p == out + 12 + 8 * n && arena.origin <= p && p + 8 <= arena.origin + arena.ram.Length
      requires n < |ps| && ps[n] == Pair(slot, value) && PairsAt(arena.words, out, ps, n)
      modifies arena`words, arena.ram
      ensures Valid() && PairsAt(arena.words, out, ps, n + 1)
      ensures forall a | a in old(arena.words) && (a + 4 <= p || p + 8 <= a) ::
        a in arena.words && arena.words[a] == old(arena.words[a])
      ensures KeptOutside(old(arena.ram[..]), arena.ram[..], arena.origin, p, p + 8)
    {
      ghost var w0 := arena.words;
      arena.Write32(p, slot);
      ghost var w1 := arena.words;
      StoredKeeps(w0, w1, p, slot, out, ps, n);
      arena.Write32(p + 4, value);
      StoredKeeps(w1, arena.words, p + 4, value, out, ps, n);
      assert PairAt(arena.words, p, ps[n]);
    }

    /** The header and pairs of a snapshot, in a block already allocated. */
    method WriteSnapshot(task: nat, handle: nat, count: nat)
      requires Valid() && task < 0x1_0000_0000 && count == |Saved(entries[..], task, ENTRIES)| && arena.origin <= handle
      requires handle + 12 + 8 * count <= arena.origin + arena.ram.Length
      modifies arena`words, arena.ram
      ensures Valid() && SnapshotAt(arena.words, handle, task, Saved(entries[..], task, ENTRIES))
      ensures KeptOutside(old(arena.ram[..]), arena.ram[..], arena.origin, handle, handle + 12 + 8 * count)
    {
      arena.Write32(handle, MAGIC);
      arena.Write32(handle + 4, task);
      arena.Write32(handle + 8, count);
      WritePairs(task, handle);
    }

    /**
     SAVE_STORAGE: a handle, or 0 when the task has no entries or there is no memory; no byte
     below the cursor moves.
     */
    method Save(task: nat) returns (handle: nat)
      requires Valid() && task < 0x1_0000_0000
      modifies this`heap, arena`words, arena.ram
      ensures Valid()
      ensures handle == Handle(entries[..], task, old(heap), heapEnd)
      ensures var ps := Saved(entries[..], task, ENTRIES);
        && heap == (if handle == 0 then old(heap) else old(heap) + Rounded(12 + 8 * |ps|))
        && (handle != 0 ==> SnapshotAt(arena.words, handle, task, ps))
      ensures KeptOutside(old(arena.ram[..]), arena.ram[..], arena.origin, old(heap), heap)
    {
      var count := CountTask(task);
      if count == 0 { return 0; }
      handle := Bump(12 + count * 8);
      if handle == 0 { return; }
      WriteSnapshot(task, handle, count);
    }

    /** RESTORE_STORAGE: handle 0 is ignored; rc is 1 for a handle it rejects or a table that fills up. */
    method Restore(task: nat, handle: nat) returns (rc: nat)
      requires Valid()
      modifies entries
      ensures Valid()
      ensures handle == 0 ==> rc == 0 && entries[..] == old(entries[..])
      ensures handle != 0 && !Acceptable(arena.words, handle, arena.origin, arena.ram.Length) ==>
        rc == 1 && entries[..] == old(entries[..])
      ensures handle != 0 && Acceptable(arena.words, handle, arena.origin, arena.ram.Length) ==>
        (var (es, ok) := Restored(old(entries[..]), task, PairsIn(arena.words, handle, At(arena.words, handle + 8)));
         entries[..] == es && rc == if ok then 0 else 1)
    {
      if handle == 0 { return 0; }
      var limit := arena.origin + arena.ram.Length;
      if handle < arena.origin || handle + 12 > limit { return 1; }
      var magic := arena.Read32(handle);
      if magic != MAGIC { return 1; }
      var count := arena.Read32(handle + 8);
      if count > ENTRIES || handle + 12 + count * 8 > limit { return 1; }
      ClearTask(task);
      rc := SetLoop(task, handle, count);
    }

    /** One call of a program, by any task. */
    method Perform(c: Request)
      requires Valid() && RequestOk(c)
      modifies this`heap, entries, arena`words, arena.ram
      ensures Valid() && old(heap) <= heap
      ensures Follows(old(entries[..]), c, entries[..])
      ensures WordsKept(old(arena.words), arena.words, old(heap))
    {
      ghost var w, bytes := arena.words, arena.ram[..];
      arena.ViewOfBytes();
      match c {
        case AskSet(task, slot, value) => var ok := SetSlot(task, slot, value);
        case AskFree(slot) => FreeSlot(slot);
        case AskSave(task) =>
          var h := Save(task);
          arena.ViewOfBytes();
          BytesKeepWords(w, arena.words, bytes, arena.ram[..], arena.origin, old(heap), heap);
        case AskRestore(task, handle) => var rc := Restore(task, handle);
      }
    }

    /** Any sequence of calls; `trace` is the table before each and after the last. */
    method PerformAll(cs: seq<Request>) returns (ghost trace: seq<seq<Entry>>)
      requires Valid() && forall i | 0 <= i < |cs| :: RequestOk(cs[i])
      modifies this`heap, entries, arena`words, arena.ram
      ensures Valid() && old(heap) <= heap && WordsKept(old(arena.words), arena.words, old(heap))
      ensures Traces(trace, cs) && trace[0] == old(entries[..]) && trace[|cs|] == entries[..]
    {
      trace := [entries[..]];
      for i := 0 to |cs|
        invariant Valid() && old(heap) <= heap && WordsKept(old(arena.words), arena.words, old(heap))
        invariant |trace| == i + 1 && trace[0] == old(entries[..]) && trace[i] == entries[..]
        invariant forall k | 0 <= k < i :: Follows(trace[k], cs[k], trace[k + 1])
      {
        Perform(cs[i]);
        trace := trace + [entries[..]];
      }
    }

    /**
     SAVE_STORAGE, any calls of any tasks, RESTORE_STORAGE of the handle: the task's entries are
     back exactly when the save was written and there is room now, or the save was not written
     and the entries are the same now as then.
     */
    method SaveCallsRestore(task: nat, cs: seq<Request>) returns (handle: nat, rc: nat, ghost trace: seq<seq<Entry>>)
      requires Valid() && task < 0x1_0000_0000 && forall i | 0 <= i < |cs| :: RequestOk(cs[i])
      modifies this`heap, entries, arena`words, arena.ram
      ensures Valid()
      ensures Traces(trace, cs) && trace[0] == old(entries[..])
      ensures handle == Handle(old(entries[..]), task, old(heap), heapEnd)
      ensures var was, now := old(entries[..]), trace[|cs|]; var ps := Saved(was, task, |was|);
        && entries[..] == RestoredBy(now, task, ps, handle)
        && (handle != 0 ==> (rc == 0 <==> Room(now, task, ps)))
        && (SameFor(was, entries[..], task) <==>
              if Written(was, task, old(heap), heapEnd) then Room(now, task, ps) else SamePairs(was, now, task))
    {
      ghost var was, start := entries[..], heap;
      handle := Save(task);
      ghost var w, ps := arena.words, Saved(was, task, ENTRIES);
      trace := PerformAll(cs);
      ghost var now := entries[..];
      HandleRoundTripIff(was, now, task, start, heapEnd);
      RoundTrip(was, now, task);
      if handle != 0 {
        var end := start + Rounded(12 + 8 * |ps|);
        KeptIsReadBack(w, arena.words, handle, task, ps, arena.origin, arena.ram.Length, end);
      }
      rc := Restore(task, handle);
    }

    method SetLoop(task: nat, handle: nat, count: nat) returns (rc: nat)
      requires Valid()
      modifies entries
      ensures Valid() && entries[..] == SetAll(old(entries[..]), task, PairsIn(arena.words, handle, count)).0
      ensures rc == if SetAll(old(entries[..]), task, PairsIn(arena.words, handle, count)).1 then 0 else 1
    {
      ghost var ps := PairsIn(arena.words, handle, count);
      for i := 0 to count
        invariant Valid() && unchanged(arena) && unchanged(arena.ram)
        invariant SetAll(entries[..], task, ps[i..]) == SetAll(old(entries[..]), task, ps)
      {
        assert ps[i..][0] == ps[i] && ps[i..][1..] == ps[i + 1..];
        var ok := SetOne(task, handle + 12 + i * 8, ps[i]);
        if !ok { return 1; }
      }
      return 0;
    }

    method SetOne(task: nat, p: nat, ghost pair: Pair) returns (ok: bool)
      requires Valid() && pair == Pair(At(arena.words, p), At(arena.words, p + 4))
      modifies entries
      ensures Valid() && ok == (Target(old(entries[..]), task, pair.slot) >= 0)
      ensures entries[..] == Set(old(entries[..]), task, pair.slot, pair.value)
    {
      var slot := arena.Read32(p);
      var value := arena.Read32(p + 4);
      SetKeepsNoDup(entries[..], task, slot, value);
      ok := SetEntry(task, slot, value);
    }
  }

  /** The pairs a restore reads for a snapshot of `n`. */
  ghost function PairsIn(w: Words, handle: int, n: nat): seq<Pair> {
    seq(n, i requires 0 <= i < n => Pair(At(w, handle + 12 + i * 8), At(w, handle + 12 + i * 8 + 4)))
  }

  /** What a restore demands of a handle: header in the arena, magic, a count that fits. */
  ghost predicate Acceptable(w: Words, handle: nat, origin: nat, size: nat) {
    && origin <= handle && handle + 12 <= origin + size
    && At(w, handle) == MAGIC
    && At(w, handle + 8) <= ENTRIES && handle + 12 + At(w, handle + 8) * 8 <= origin + size
  }

  /** A snapshot left intact is accepted and read back as it was written. */
  lemma IntactIsReadBack(w: Words, handle: nat, task: nat, ps: seq<Pair>, origin: nat, size: nat)
    requires SnapshotAt(w, handle, task, ps) && |ps| <= ENTRIES
    requires origin <= handle && handle + 12 + 8 * |ps| <= origin + size
    ensures Acceptable(w, handle, origin, size)
    ensures PairsIn(w, handle, At(w, handle + 8)) == ps
  {
    forall i | 0 <= i < |ps| ensures PairsIn(w, handle, |ps|)[i] == ps[i] {
      assert PairAt(w, handle + 12 + 8 * i, ps[i]);
    }
  }

  /** Words below the cursor stay, and with them a snapshot written there. */
  lemma KeptIsReadBack(w: Words, w': Words, handle: nat, task: nat, ps: seq<Pair>, origin: nat, size: nat, limit: nat)
    requires SnapshotAt(w, handle, task, ps) && |ps| <= ENTRIES && WordsKept(w, w', limit)
    requires forall a :: a in w <==> InArena(a, origin, size)
    requires origin <= handle && handle + 12 + 8 * |ps| <= limit <= origin + size
    ensures Acceptable(w', handle, origin, size)
    ensures PairsIn(w', handle, At(w', handle + 8)) == ps
  {
    assert InArena(handle, origin, size) && InArena(handle + 4, origin, size) && InArena(handle + 8, origin, size);
    forall i | 0 <= i < |ps| ensures PairAt(w', handle + 12 + 8 * i, ps[i]) {
      assert PairAt(w, handle + 12 + 8 * i, ps[i]);
      assert InArena(handle + 12 + 8 * i, origin, size) && InArena(handle + 12 + 8 * i + 4, origin, size);
    }
    IntactIsReadBack(w', handle, task, ps, origin, size);
  }

  // --------------------------------------------------------------------- requests

  datatype Request =
    | AskSet(task: nat, slot: nat, value: nat)
    | AskFree(slot: nat)
    | AskSave(task: nat)
    | AskRestore(task: nat, handle: nat)

  /** Arguments are 32-bit registers. */
  predicate RequestOk(c: Request) {
    match c
    case AskSet(task, slot, value) => task < 0x1_0000_0000 && slot < 0x1_0000_0000 && value < 0x1_0000_0000
    case AskFree(slot) => slot < 0x1_0000_0000
    case AskSave(task) => task < 0x1_0000_0000
    case AskRestore(task, handle) => task < 0x1_0000_0000 && handle < 0x1_0000_0000
  }

  /** The table after one request; a restore takes whatever pairs its handle leads to, or none. */
  ghost predicate Follows(es: seq<Entry>, c: Request, es': seq<Entry>) {
    match c
    case AskSet(task, slot, value) => es' == if slot == 0 then es else Set(es, task, slot, value)
    case AskFree(slot) => es' == Freed(es, slot)
    case AskSave(_) => es' == es
    case AskRestore(task, _) => es' == es || exists ps :: es' == Restored(es, task, ps).0
  }

  ghost predicate Traces(trace: seq<seq<Entry>>, cs: seq<Request>) {
    |trace| == |cs| + 1 && forall k | 0 <= k < |cs| :: Follows(trace[k], cs[k], trace[k + 1])
  }

  lemma {:induction false} SavedPrefix(es: seq<Entry>, task: nat, i: nat, n: nat)
    requires i <= n <= |es|
    ensures Saved(es, task, i) <= Saved(es, task, n)
    decreases n
  {
    if i < n { SavedPrefix(es, task, i, n - 1); }
  }

  // ------------------------------------------------------------------------- runs

  datatype Call =
    | CallSet(task: nat, slot: nat, value: nat)
    | CallFree(slot: nat)
    | CallRestore(task: nat, ps: seq<Pair>)

  function Do(es: seq<Entry>, c: Call): seq<Entry> {
    match c
    case CallSet(task, slot, value) => if slot == 0 then es else Set(es, task, slot, value)
    case CallFree(slot) => Freed(es, slot)
    case CallRestore(task, ps) => Restored(es, task, ps).0
  }

  function DoAll(es: seq<Entry>, cs: seq<Call>): seq<Entry>
    decreases |cs|
  {
    if cs == [] then es else DoAll(Do(es, cs[0]), cs[1..])
  }

  lemma {:induction false} SetAllNoDup(es: seq<Entry>, task: nat, ps: seq<Pair>)
    requires NoDup(es)
    ensures NoDup(SetAll(es, task, ps).0)
    decreases |ps|
  {
    if ps != [] && Target(es, task, ps[0].slot) >= 0 {
      SetKeepsNoDup(es, task, ps[0].slot, ps[0].value);
      SetAllNoDup(Set(es, task, ps[0].slot, ps[0].value), task, ps[1..]);
    }
  }

  /** After any calls, even a restore of a forged snapshot that names a slot twice, no key has two entries. */
  lemma {:induction false} AlwaysAMap(es: seq<Entry>, cs: seq<Call>)
    requires NoDup(es)
    ensures NoDup(DoAll(es, cs))
    decreases |cs|
  {
    if cs != [] {
      match cs[0] {
        case CallSet(task, slot, value) => SetKeepsNoDup(es, task, slot, value);
        case CallFree(slot) => FreedLookup(es, slot, 0, 0);
        case CallRestore(task, ps) => ClearedLookup(es, task, 0, 0); SetAllNoDup(Cleared(es, task), task, ps);
      }
      AlwaysAMap(Do(es, cs[0]), cs[1..]);
    }
  }
}
