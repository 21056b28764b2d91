/**
 The per-task storage table as a finite map, and its save and restore.

 The table is a flat sequence of slots searched from the front.  `Lookup` reads it as a map
 from (task, slot) to value; `RoundTrip` and `HandleRoundTripIff` say when restoring what
 was saved brings a task's entries back whatever happened to the table in between.
 */
module TaskTable {
  datatype Entry = Entry(live: bool, task: nat, slot: nat, value: nat)

  datatype Option<T> = None | Some(value: T)

  datatype Pair = Pair(slot: nat, value: nat)

  predicate Is(e: Entry, task: nat, slot: nat) { e.live && e.task == task && e.slot == slot }

  predicate Of(e: Entry, task: nat) { e.live && e.task == task }

  ghost predicate FirstAt(es: seq<Entry>, task: nat, slot: nat, i: int) {
    && -1 <= i < |es|
    && (forall j | 0 <= j < (if i < 0 then |es| else i) :: !Is(es[j], task, slot))
    && (i >= 0 ==> Is(es[i], task, slot))
  }

  function Find(es: seq<Entry>, task: nat, slot: nat, from: nat := 0): (i: int)
    requires from <= |es| && forall j | 0 <= j < from :: !Is(es[j], task, slot)
    ensures FirstAt(es, task, slot, i)
    decreases |es| - from
  {
    if from == |es| then -1 else if Is(es[from], task, slot) then from else Find(es, task, slot, from + 1)
  }

  ghost predicate FreeAt(es: seq<Entry>, i: int) {
    && -1 <= i < |es|
    && (forall j | 0 <= j < (if i < 0 then |es| else i) :: es[j].live)
    && (i >= 0 ==> !es[i].live)
  }

  function FindFree(es: seq<Entry>, from: nat := 0): (i: int)
    requires from <= |es| && forall j | 0 <= j < from :: es[j].live
    ensures FreeAt(es, i)
    decreases |es| - from
  {
    if from == |es| then -1 else if !es[from].live then from else FindFree(es, from + 1)
  }

  /** The table never holds two live entries for one key. */
  ghost predicate NoDup(es: seq<Entry>) {
    forall i, j | 0 <= i < j < |es| && es[i].live && es[j].live :: es[i].task != es[j].task || es[i].slot != es[j].slot
  }

  function Lookup(es: seq<Entry>, task: nat, slot: nat): Option<nat> {
    var i := Find(es, task, slot);
    if i < 0 then None else Some(es[i].value)
  }

  /** Under NoDup any live entry for the key decides the lookup. */
  lemma LookupIs(es: seq<Entry>, task: nat, slot: nat, i: nat)
    requires NoDup(es) && i < |es| && Is(es[i], task, slot)
    ensures Find(es, task, slot) == i && Lookup(es, task, slot) == Some(es[i].value)
  {
    var j := Find(es, task, slot);
    assert !(j < i) ==> j == i;
  }

  lemma LookupNone(es: seq<Entry>, task: nat, slot: nat)
    requires forall i | 0 <= i < |es| :: !Is(es[i], task, slot)
    ensures Lookup(es, task, slot) == None
  {
  }

  // --------------------------------------------------------------------- set, free

  /** `storage_set`: the index it will write, or -1 for a full table. */
  function Target(es: seq<Entry>, task: nat, slot: nat): int {
    if Find(es, task, slot) >= 0 then Find(es, task, slot) else FindFree(es)
  }

  function Set(es: seq<Entry>, task: nat, slot: nat, value: nat): (r: seq<Entry>)
    ensures |r| == |es|
  {
    var i := Target(es, task, slot);
    if i < 0 then es else es[i := Entry(true, task, slot, value)]
  }

  lemma SetKeepsNoDup(es: seq<Entry>, task: nat, slot: nat, value: nat)
    requires NoDup(es)
    ensures NoDup(Set(es, task, slot, value))
  {
    assert Find(es, task, slot) < 0 ==> forall j | 0 <= j < |es| :: !Is(es[j], task, slot);
  }

  /** A successful set changes the map at that key and nowhere else. */
  lemma SetLookup(es: seq<Entry>, task: nat, slot: nat, value: nat, t: nat, s: nat)
    requires NoDup(es) && Target(es, task, slot) >= 0
    ensures Lookup(Set(es, task, slot, value), t, s) == if t == task && s == slot then Some(value) else Lookup(es, t, s)
  {
    var i, r := Target(es, task, slot), Set(es, task, slot, value);
    SetKeepsNoDup(es, task, slot, value);
    if t == task && s == slot {
      LookupIs(r, t, s, i);
    } else {
      var j := Find(es, t, s);
      if j >= 0 { LookupIs(r, t, s, j); } else { LookupNone(r, t, s); }
    }
  }

  function Count(es: seq<Entry>, n: nat): (c: nat)
    requires n <= |es|
    ensures c <= n
  {
    if n == 0 then 0 else Count(es, n - 1) + if es[n - 1].live then 1 else 0
  }

  lemma {:induction false} CountUpdate(es: seq<Entry>, n: nat, i: nat, e: Entry)
    requires n <= |es| && i < |es| && e.live
    ensures Count(es[i := e], n) == Count(es, n) + if i < n && !es[i].live then 1 else 0
  {
    if n > 0 { CountUpdate(es, n - 1, i, e); }
  }

  lemma {:induction false} CountFull(es: seq<Entry>, n: nat)
    requires n <= |es|
    ensures Count(es, n) == n <==> forall i | 0 <= i < n :: es[i].live
  {
    if n > 0 { CountFull(es, n - 1); }
  }

  /** A set fails exactly for a new key in a full table, and otherwise uses at most one more entry. */
  lemma SetFailsIff(es: seq<Entry>, task: nat, slot: nat, value: nat)
    ensures Target(es, task, slot) < 0 <==> Lookup(es, task, slot).None? && Count(es, |es|) == |es|
    ensures Target(es, task, slot) >= 0 ==>
      Count(Set(es, task, slot, value), |es|) == Count(es, |es|) + if Lookup(es, task, slot).None? then 1 else 0
  {
    CountFull(es, |es|);
    var i := Target(es, task, slot);
    if i >= 0 { CountUpdate(es, |es|, i, Entry(true, task, slot, value)); }
  }

  /** `FREE_SLOT`: the slot of every task. */
  function Freed(es: seq<Entry>, slot: nat): seq<Entry> {
    seq(|es|, i requires 0 <= i < |es| => if es[i].live && es[i].slot == slot then es[i].(live := false) else es[i])
  }

  lemma FreedLookup(es: seq<Entry>, slot: nat, t: nat, s: nat)
    requires NoDup(es)
    ensures NoDup(Freed(es, slot))
    ensures Lookup(Freed(es, slot), t, s) == if s == slot then None else Lookup(es, t, s)
  {
    var j := Find(es, t, s);
    if s == slot { LookupNone(Freed(es, slot), t, s); }
    else if j >= 0 { LookupIs(Freed(es, slot), t, s, j); }
    else { LookupNone(Freed(es, slot), t, s); }
  }

  // ------------------------------------------------------------- save and restore

  /** What `SAVE_STORAGE` writes: the task's entries in table order. */
  function Saved(es: seq<Entry>, task: nat, n: nat): (ps: seq<Pair>)
    requires n <= |es|
    ensures |ps| <= n
  {
    if n == 0 then []
    else if Of(es[n - 1], task) then Saved(es, task, n - 1) + [Pair(es[n - 1].slot, es[n - 1].value)]
    else Saved(es, task, n - 1)
  }

  ghost predicate DistinctSlots(ps: seq<Pair>) {
    forall i, j | 0 <= i < j < |ps| :: ps[i].slot != ps[j].slot
  }

  lemma {:induction false} SavedFrom(es: seq<Entry>, task: nat, n: nat, k: nat) returns (i: nat)
    requires n <= |es| && k < |Saved(es, task, n)|
    ensures i < n && Of(es[i], task) && Saved(es, task, n)[k] == Pair(es[i].slot, es[i].value)
  {
    if Of(es[n - 1], task) && k == |Saved(es, task, n - 1)| { i := n - 1; }
    else { i := SavedFrom(es, task, n - 1, k); }
  }

  lemma {:induction false} SavedHas(es: seq<Entry>, task: nat, n: nat, i: nat)
    requires i < n <= |es| && Of(es[i], task)
    ensures Pair(es[i].slot, es[i].value) in Saved(es, task, n)
  {
    if i < n - 1 { SavedHas(es, task, n - 1, i); }
  }

  lemma {:induction false} SavedDistinct(es: seq<Entry>, task: nat, n: nat)
    requires n <= |es| && NoDup(es)
    ensures DistinctSlots(Saved(es, task, n))
  {
    if n > 0 {
      SavedDistinct(es, task, n - 1);
      var ps := Saved(es, task, n - 1);
      forall k | 0 <= k < |ps| && Of(es[n - 1], task) ensures ps[k].slot != es[n - 1].slot {
        var i := SavedFrom(es, task, n - 1, k);
      }
    }
  }

  /** The snapshot is the map restricted to the task. */
  lemma SavedIsLookup(es: seq<Entry>, task: nat, p: Pair)
    requires NoDup(es)
    ensures p in Saved(es, task, |es|) <==> Lookup(es, task, p.slot) == Some(p.value)
  {
    var ps := Saved(es, task, |es|);
    if p in ps {
      var k :| 0 <= k < |ps| && ps[k] == p;
      var i := SavedFrom(es, task, |es|, k);
      LookupIs(es, task, p.slot, i);
    }
    if Lookup(es, task, p.slot) == Some(p.value) {
      SavedHas(es, task, |es|, Find(es, task, p.slot));
    }
  }

  function Cleared(es: seq<Entry>, task: nat): seq<Entry> {
    seq(|es|, i requires 0 <= i < |es| => if Of(es[i], task) then es[i].(live := false) else es[i])
  }

  lemma ClearedLookup(es: seq<Entry>, task: nat, t: nat, s: nat)
    requires NoDup(es)
    ensures NoDup(Cleared(es, task))
    ensures Lookup(Cleared(es, task), t, s) == if t == task then None else Lookup(es, t, s)
  {
    var j := Find(es, t, s);
    if t == task { LookupNone(Cleared(es, task), t, s); }
    else if j >= 0 { LookupIs(Cleared(es, task), t, s, j); }
    else { LookupNone(Cleared(es, task), t, s); }
  }

  /** The loop of `RESTORE_STORAGE`: sets in order, stopping at the first that fails. */
  function SetAll(es: seq<Entry>, task: nat, ps: seq<Pair>): (seq<Entry>, bool)
    decreases |ps|
  {
    if ps == [] then (es, true)
    else if Target(es, task, ps[0].slot) < 0 then (es, false)
    else SetAll(Set(es, task, ps[0].slot, ps[0].value), task, ps[1..])
  }

  ghost predicate Absent(es: seq<Entry>, task: nat, ps: seq<Pair>) {
    forall i | 0 <= i < |ps| :: Lookup(es, task, ps[i].slot).None?
  }

  lemma AbsentAfterSet(es: seq<Entry>, task: nat, ps: seq<Pair>)
    requires NoDup(es) && ps != [] && DistinctSlots(ps) && Absent(es, task, ps) && Target(es, task, ps[0].slot) >= 0
    ensures Absent(Set(es, task, ps[0].slot, ps[0].value), task, ps[1..])
  {
    forall i | 0 <= i < |ps| - 1 ensures Lookup(Set(es, task, ps[0].slot, ps[0].value), task, ps[1..][i].slot).None? {
      SetLookup(es, task, ps[0].slot, ps[0].value, task, ps[i + 1].slot);
    }
  }

  lemma {:induction false} SetAllRoom(es: seq<Entry>, task: nat, ps: seq<Pair>)
    requires NoDup(es) && DistinctSlots(ps) && Absent(es, task, ps)
    ensures SetAll(es, task, ps).1 <==> Count(es, |es|) + |ps| <= |es|
    ensures |SetAll(es, task, ps).0| == |es|
    decreases |ps|
  {
    if ps != [] {
      SetFailsIff(es, task, ps[0].slot, ps[0].value);
      if Target(es, task, ps[0].slot) >= 0 {
        SetKeepsNoDup(es, task, ps[0].slot, ps[0].value);
        AbsentAfterSet(es, task, ps);
        SetAllRoom(Set(es, task, ps[0].slot, ps[0].value), task, ps[1..]);
      }
    }
  }

  /** After the loop each pair it reached is in the map, and no other key moved; if it stopped, one pair is missing. */
  lemma {:induction false} SetAllLookup(es: seq<Entry>, task: nat, ps: seq<Pair>, t: nat, s: nat)
    requires NoDup(es) && DistinctSlots(ps)
    ensures NoDup(SetAll(es, task, ps).0)
    ensures SetAll(es, task, ps).1 ==> forall i | 0 <= i < |ps| && t == task && ps[i].slot == s ::
        Lookup(SetAll(es, task, ps).0, t, s) == Some(ps[i].value)
    ensures (t != task || forall i | 0 <= i < |ps| :: ps[i].slot != s) ==>
              Lookup(SetAll(es, task, ps).0, t, s) == Lookup(es, t, s)
    decreases |ps|
  {
    if ps != [] && Target(es, task, ps[0].slot) >= 0 {
      var n := Set(es, task, ps[0].slot, ps[0].value);
      SetKeepsNoDup(es, task, ps[0].slot, ps[0].value);
      SetAllLookup(n, task, ps[1..], t, s);
      SetLookup(es, task, ps[0].slot, ps[0].value, t, s);
      assert forall i | 0 <= i < |ps| - 1 :: ps[1..][i] == ps[i + 1];
    }
  }

  lemma {:induction false} SetAllMissing(es: seq<Entry>, task: nat, ps: seq<Pair>) returns (k: nat)
    requires NoDup(es) && DistinctSlots(ps) && Absent(es, task, ps) && !SetAll(es, task, ps).1
    ensures k < |ps| && Lookup(SetAll(es, task, ps).0, task, ps[k].slot).None?
    decreases |ps|
  {
    if Target(es, task, ps[0].slot) < 0 {
      k := 0;
    } else {
      SetKeepsNoDup(es, task, ps[0].slot, ps[0].value);
      AbsentAfterSet(es, task, ps);
      k := SetAllMissing(Set(es, task, ps[0].slot, ps[0].value), task, ps[1..]);
      k := k + 1;
    }
  }

  function Restored(es: seq<Entry>, task: nat, ps: seq<Pair>): (seq<Entry>, bool) {
    SetAll(Cleared(es, task), task, ps)
  }

  /** `b` holds for the task what `a` did. */
  ghost predicate SameFor(a: seq<Entry>, b: seq<Entry>, task: nat) {
    forall s: nat :: Lookup(b, task, s) == Lookup(a, task, s)
  }

  ghost predicate SameForOthers(a: seq<Entry>, b: seq<Entry>, task: nat) {
    forall t: nat, s: nat :: t != task ==> Lookup(b, t, s) == Lookup(a, t, s)
  }

  /** Entries of other tasks plus the snapshot fit in the table. */
  predicate Room(es: seq<Entry>, task: nat, ps: seq<Pair>) {
    Count(Cleared(es, task), |es|) + |ps| <= |es|
  }

  /**
   Restoring the snapshot of `was` into any later table: it succeeds exactly when there is
   room, then the task's entries are those saved, and in every case other tasks keep theirs.
   */
  lemma RoundTrip(was: seq<Entry>, now: seq<Entry>, task: nat)
    requires NoDup(was) && NoDup(now)
    ensures var ps := Saved(was, task, |was|); var (r, ok) := Restored(now, task, ps);
      && NoDup(r) && SameForOthers(now, r, task)
      && (ok <==> Room(now, task, ps))
      && (ok <==> SameFor(was, r, task))
  {
    var ps, c := Saved(was, task, |was|), Cleared(now, task);
    var (r, ok) := Restored(now, task, ps);
    SavedDistinct(was, task, |was|);
    ClearedLookup(now, task, 0, 0);
    forall s: nat ensures Lookup(c, task, s).None? { ClearedLookup(now, task, task, s); }
    SetAllRoom(c, task, ps);
    SetAllLookup(c, task, ps, 0, 0);
    forall t: nat, s: nat | t != task ensures Lookup(r, t, s) == Lookup(now, t, s) {
      SetAllLookup(c, task, ps, t, s);
      ClearedLookup(now, task, t, s);
    }
    if ok {
      forall s: nat ensures Lookup(r, task, s) == Lookup(was, task, s) { RestoredLookup(was, c, task, s); }
    } else {
      var k := SetAllMissing(c, task, ps);
      SavedIsLookup(was, task, ps[k]);
    }
  }

  lemma RestoredLookup(was: seq<Entry>, c: seq<Entry>, task: nat, s: nat)
    requires NoDup(was) && NoDup(c) && DistinctSlots(Saved(was, task, |was|)) && Lookup(c, task, s).None?
    requires SetAll(c, task, Saved(was, task, |was|)).1
    ensures Lookup(SetAll(c, task, Saved(was, task, |was|)).0, task, s) == Lookup(was, task, s)
  {
    var ps := Saved(was, task, |was|);
    SetAllLookup(c, task, ps, task, s);
    forall v: nat ensures Pair(s, v) in ps <==> Lookup(was, task, s) == Some(v) {
      SavedIsLookup(was, task, Pair(s, v));
    }
    if Lookup(was, task, s).Some? {
      assert Pair(s, Lookup(was, task, s).value) in ps;
    } else {
      forall i | 0 <= i < |ps| ensures ps[i].slot != s { SavedIsLookup(was, task, ps[i]); }
    }
  }

  /** What `guest_alloc` takes for a request. */
  function Rounded(size: nat): (n: nat)
    ensures size <= n <= size + 7 && n % 8 == 0
  {
    (size + 7) / 8 * 8
  }

  /** The task has entries, and a snapshot of them fits between the cursor and the end of the heap. */
  predicate Written(es: seq<Entry>, task: nat, heap: nat, heapEnd: nat) {
    var n := |Saved(es, task, |es|)|;
    n > 0 && heap + Rounded(12 + 8 * n) <= heapEnd
  }

  /** What `SAVE_STORAGE` answers: the cursor, or 0 when it wrote nothing. */
  function Handle(es: seq<Entry>, task: nat, heap: nat, heapEnd: nat): nat {
    if Written(es, task, heap, heapEnd) then heap else 0
  }

  /** A restore through a handle to an intact snapshot; handle 0 is ignored. */
  function RestoredBy(es: seq<Entry>, task: nat, ps: seq<Pair>, handle: nat): seq<Entry> {
    if handle == 0 then es else Restored(es, task, ps).0
  }

  /** Two snapshots of the task would hold the same pairs. */
  ghost predicate SamePairs(a: seq<Entry>, b: seq<Entry>, task: nat) {
    forall p :: p in Saved(a, task, |a|) <==> p in Saved(b, task, |b|)
  }

  lemma SamePairsIsSameFor(a: seq<Entry>, b: seq<Entry>, task: nat)
    requires NoDup(a) && NoDup(b)
    ensures SamePairs(a, b, task) <==> SameFor(a, b, task)
  {
    hide Lookup;
    hide Saved;
    forall p: Pair
      ensures p in Saved(a, task, |a|) <==> Lookup(a, task, p.slot) == Some(p.value)
      ensures p in Saved(b, task, |b|) <==> Lookup(b, task, p.slot) == Some(p.value)
    {
      SavedIsLookup(a, task, p);
      SavedIsLookup(b, task, p);
    }
    if SamePairs(a, b, task) {
      forall s: nat ensures Lookup(b, task, s) == Lookup(a, task, s) {
        assert forall v: nat :: Lookup(a, task, s) == Some(v) <==> Pair(s, v) in Saved(a, task, |a|);
        assert forall v: nat :: Lookup(b, task, s) == Some(v) <==> Pair(s, v) in Saved(b, task, |b|);
      }
    }
  }

  /**
   Save, whatever else, restore: the task's entries come back exactly when the snapshot was
   written and there is room for it, or nothing was written and the entries never changed.
   Nothing is written for a task without entries and when guest memory has run out; both
   answer handle 0, which a later restore ignores.
   */
  lemma HandleRoundTripIff(was: seq<Entry>, now: seq<Entry>, task: nat, heap: nat, heapEnd: nat)
    requires NoDup(was) && NoDup(now) && 0 < heap
    ensures var ps := Saved(was, task, |was|);
      SameFor(was, RestoredBy(now, task, ps, Handle(was, task, heap, heapEnd)), task) <==>
        if Written(was, task, heap, heapEnd) then Room(now, task, ps) else SamePairs(was, now, task)
  {
    RoundTrip(was, now, task);
    SamePairsIsSameFor(was, now, task);
  }

  /** The failing case on a concrete table: nothing saved, one entry added, restore leaves it. */
  lemma EmptySaveExample()
    ensures var was := [Entry(false, 0, 0, 0)];
      var now := Set(was, 7, 1, 5);
      && Handle(was, 7, 0x1000, 0x2000) == 0
      && Lookup(RestoredBy(now, 7, [], 0), 7, 1) == Some(5) && Lookup(was, 7, 1) == None
  {
    var was := [Entry(false, 0, 0, 0)];
    assert Saved(was, 7, 1) == [];
    assert Find(was, 7, 1) == -1 && FindFree(was) == 0;
    LookupIs(Set(was, 7, 1, 5), 7, 1, 0);
  }

  /** The other failing case: guest memory is full, so the save of an entry is not written and its change stays. */
  lemma FullMemoryExample()
    ensures var was := [Entry(true, 7, 1, 5)];
      var now := Set(was, 7, 1, 6);
      && Saved(was, 7, 1) == [Pair(1, 5)] && Handle(was, 7, 0x2000, 0x2000) == 0 && Room(now, 7, Saved(was, 7, 1))
      && Lookup(RestoredBy(now, 7, Saved(was, 7, 1), 0), 7, 1) == Some(6) && Lookup(was, 7, 1) == Some(5)
  {
    var was := [Entry(true, 7, 1, 5)];
    var now := Set(was, 7, 1, 6);
    assert Saved(was, 7, 1) == Saved(was, 7, 0) + [Pair(1, 5)];
    LookupIs(was, 7, 1, 0);
    assert now == [Entry(true, 7, 1, 6)];
    LookupIs(now, 7, 1, 0);
    assert Cleared(now, 7) == [Entry(false, 7, 1, 6)];
    assert Count(Cleared(now, 7), 1) == Count(Cleared(now, 7), 0);
  }
}
