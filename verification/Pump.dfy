/**
 The pump's registration table and the kernel event filters that must agree with it.

 `Table` is the flat array of slots behind `reg_mtx`, changed in place by scanning loops;
 `Kq` is the filter set of the kqueue.  `Agrees` says that the enabled filters are exactly
 those wanted by the live slots, each with its own slot as user data, and that no fd has
 two slots; it survives every sequence of calls, accepted or rejected.
 */
module Pump {
  datatype Dir = Read | Write

  /** `sig` names a wake target; 0 is the null pointer. */
  datatype Reg = Reg(fd: int, want: set<Dir>, ready: set<Dir>, sig: nat, inUse: bool)

  const EMPTY: Reg := Reg(0, {}, {}, 0, false)

  /** User data of the control pipe's own filter. */
  const CONTROL: int := -1

  datatype Key = Key(fd: int, dir: Dir)

  type Filters = map<Key, int>

  datatype Tables = Tables(regs: seq<Reg>, filters: Filters)

  // ------------------------------------------------------------------ specification

  predicate Mine(r: Reg, fd: int, sig: nat) { r.inUse && r.fd == fd && r.sig == sig }

  predicate Owned(r: Reg, fd: int) { r.inUse && r.fd == fd }

  ghost predicate First(regs: seq<Reg>, p: Reg -> bool, i: int) {
    && -1 <= i < |regs|
    && (forall j | 0 <= j < (if i < 0 then |regs| else i) :: !p(regs[j]))
    && (i >= 0 ==> p(regs[i]))
  }

  ghost function Search(regs: seq<Reg>, p: Reg -> bool, from: nat): (i: int)
    requires from <= |regs| && forall j | 0 <= j < from :: !p(regs[j])
    ensures First(regs, p, i)
    decreases |regs| - from
  {
    if from == |regs| then -1 else if p(regs[from]) then from else Search(regs, p, from + 1)
  }

  ghost function FindReg(regs: seq<Reg>, fd: int, sig: nat): int { Search(regs, r => Mine(r, fd, sig), 0) }

  ghost function FindOwner(regs: seq<Reg>, fd: int): int { Search(regs, r => Owned(r, fd), 0) }

  ghost function FindFree(regs: seq<Reg>): int { Search(regs, (r: Reg) => !r.inUse, 0) }

  /** EV_ADD|EV_ENABLE replaces the user data of a filter already there; EV_DELETE of none is harmless. */
  function SetFilter(f: Filters, fd: int, dir: Dir, on: bool, slot: int): Filters {
    if on then f[Key(fd, dir) := slot] else f - {Key(fd, dir)}
  }

  function Apply(f: Filters, fd: int, want: set<Dir>, slot: int): Filters {
    SetFilter(SetFilter(f, fd, Read, Read in want, slot), fd, Write, Write in want, slot)
  }

  /** The slot a registration will use: the caller's own, else a free one if nobody owns the fd. */
  ghost function Slot(regs: seq<Reg>, fd: int, sig: nat): int {
    if FindReg(regs, fd, sig) >= 0 then FindReg(regs, fd, sig)
    else if FindOwner(regs, fd) >= 0 then -1
    else FindFree(regs)
  }

  ghost function Registered(t: Tables, fd: int, want: set<Dir>, sig: nat): Tables {
    var i := Slot(t.regs, fd, sig);
    if sig == 0 || i < 0 then t
    else
      var r := if FindReg(t.regs, fd, sig) >= 0 then t.regs[i].(want := want) else Reg(fd, want, {}, sig, true);
      Tables(t.regs[i := r], Apply(t.filters, fd, want, i))
  }

  ghost function Unregistered(t: Tables, fd: int, sig: nat): Tables {
    var i := FindReg(t.regs, fd, sig);
    if i < 0 then t else Tables(t.regs[i := EMPTY], Apply(t.filters, fd, {}, i))
  }

  predicate Ready(r: Reg, sig: nat) { r.inUse && r.sig == sig && r.ready != {} }

  /** The slots `pump_drain` reports: the first `max` ready ones of `sig`, in slot order. */
  function Reported(regs: seq<Reg>, sig: nat, max: nat, n: nat): (q: seq<nat>)
    requires n <= |regs|
    ensures |q| <= max && forall k | 0 <= k < |q| :: q[k] < n && Ready(regs[q[k]], sig)
  {
    if n == 0 then []
    else
      var q := Reported(regs, sig, max, n - 1);
      if |q| < max && Ready(regs[n - 1], sig) then q + [n - 1] else q
  }

  function Emptied(regs: seq<Reg>, slots: seq<nat>): seq<Reg> {
    seq(|regs|, i requires 0 <= i < |regs| => if i in slots then regs[i].(ready := {}) else regs[i])
  }

  /** The pump's stash for one event, validated under the lock. */
  function Stashed(t: Tables, fd: int, dir: Dir, slot: int): Tables {
    if 0 <= slot < |t.regs| && Owned(t.regs[slot], fd) && dir in t.regs[slot].want then
      t.(regs := t.regs[slot := t.regs[slot].(ready := t.regs[slot].ready + {dir})])
    else t
  }

  /** The started pump: no registration, and the filter on its own control pipe. */
  function Fresh(slots: nat, control: int): Tables {
    Tables(seq(slots, i => EMPTY), map[Key(control, Read) := CONTROL])
  }

  // --------------------------------------------------------------------- the class

  class Table {
    var regs: array<Reg>
    var filters: Filters
    var running: bool

    ghost function T(): Tables
      reads this, regs
    {
      Tables(regs[..], filters)
    }

    constructor (slots: nat, control: int)
      ensures fresh(regs) && running && T() == Fresh(slots, control)
    {
      regs := new Reg[slots](_ => EMPTY);
      filters := map[Key(control, Read) := CONTROL];
      running := true;
    }

    method FindRegLoop(fd: int, sig: nat) returns (i: int)
      ensures i == FindReg(regs[..], fd, sig)
    {
      i := 0;
      while i < regs.Length && !Mine(regs[i], fd, sig)
        invariant 0 <= i <= regs.Length && forall j | 0 <= j < i :: !Mine(regs[j], fd, sig)
      {
        i := i + 1;
      }
      if i == regs.Length { i := -1; }
      FirstUnique(regs[..], r => Mine(r, fd, sig), i, FindReg(regs[..], fd, sig));
    }

    method FindOwnerLoop(fd: int) returns (i: int)
      ensures i == FindOwner(regs[..], fd)
    {
      i := 0;
      while i < regs.Length && !Owned(regs[i], fd)
        invariant 0 <= i <= regs.Length && forall j | 0 <= j < i :: !Owned(regs[j], fd)
      {
        i := i + 1;
      }
      if i == regs.Length { i := -1; }
      FirstUnique(regs[..], r => Owned(r, fd), i, FindOwner(regs[..], fd));
    }

    method FindFreeLoop() returns (i: int)
      ensures i == FindFree(regs[..])
    {
      i := 0;
      while i < regs.Length && regs[i].inUse
        invariant 0 <= i <= regs.Length && forall j | 0 <= j < i :: regs[j].inUse
      {
        i := i + 1;
      }
      if i == regs.Length { i := -1; }
      FirstUnique(regs[..], (r: Reg) => !r.inUse, i, FindFree(regs[..]));
    }

    /** `pump_register`: 0, or -1 with nothing changed. */
    method Register(fd: int, want: set<Dir>, sig: nat) returns (rc: int)
      modifies this`filters, regs
      ensures regs == old(regs)
      ensures T() == if old(running) then Registered(old(T()), fd, want, sig) else old(T())
      ensures rc == if old(running) && sig != 0 && Slot(old(regs[..]), fd, sig) >= 0 then 0 else -1
    {
      if sig == 0 || !running { return -1; }
      var i := FindRegLoop(fd, sig);
      if i < 0 {
        var owner := FindOwnerLoop(fd);
        if owner >= 0 { return -1; }
        i := FindFreeLoop();
        if i < 0 { return -1; }
        regs[i] := Reg(fd, want, {}, sig, true);
      } else {
        regs[i] := regs[i].(want := want);
      }
      filters := Apply(filters, fd, want, i);
      return 0;
    }

    method Unregister(fd: int, sig: nat) returns (rc: int)
      modifies this`filters, regs
      ensures regs == old(regs)
      ensures T() == if old(running) then Unregistered(old(T()), fd, sig) else old(T())
      ensures rc == if old(running) then 0 else -1
    {
      if !running { return -1; }
      var i := FindRegLoop(fd, sig);
      if i >= 0 {
        filters := Apply(filters, fd, {}, i);
        regs[i] := EMPTY;
      }
      return 0;
    }

    /** `pump_drain`: the slots reported and what each had stashed; those stashes are consumed. */
    method Drain(sig: nat, max: nat) returns (slots: seq<nat>, out: seq<(int, set<Dir>)>)
      requires sig != 0
      modifies regs
      ensures regs == old(regs) && slots == Reported(old(regs[..]), sig, max, regs.Length)
      ensures T() == old(T()).(regs := Emptied(old(regs[..]), slots))
      ensures |out| == |slots| && forall k | 0 <= k < |out| ::
        out[k] == (old(regs[..])[slots[k]].fd, old(regs[..])[slots[k]].ready)
    {
      ghost var was := regs[..];
      slots, out := [], [];
      var i := 0;
      while i < regs.Length && |out| < max
        invariant 0 <= i <= regs.Length && slots == Reported(was, sig, max, i) && |out| == |slots|
        invariant forall k | 0 <= k < |out| :: out[k] == (was[slots[k]].fd, was[slots[k]].ready)
        invariant regs[..] == Emptied(was, slots)
      {
        assert regs[..][i] == was[i];
        if Ready(regs[i], sig) {
          EmptiedNext(was, slots, i);
          out := out + [(regs[i].fd, regs[i].ready)];
          slots := slots + [i];
          regs[i] := regs[i].(ready := {});
        }
        i := i + 1;
      }
      ReportedFull(was, sig, max, i, regs.Length);
    }
  }

  lemma EmptiedNext(regs: seq<Reg>, slots: seq<nat>, i: nat)
    requires i < |regs|
    ensures Emptied(regs, slots + [i]) == Emptied(regs, slots)[i := regs[i].(ready := {})]
  {
  }

  lemma FirstUnique(regs: seq<Reg>, p: Reg -> bool, a: int, b: int)
    requires First(regs, p, a) && First(regs, p, b)
    ensures a == b
  {
    assert a >= 0 ==> p(regs[a]);
    assert b >= 0 ==> p(regs[b]);
  }

  lemma {:induction false} ReportedFull(regs: seq<Reg>, sig: nat, max: nat, i: nat, n: nat)
    requires i <= n <= |regs| && (|Reported(regs, sig, max, i)| == max || i == n)
    ensures Reported(regs, sig, max, n) == Reported(regs, sig, max, i)
    decreases n
  {
    if i < n { ReportedFull(regs, sig, max, i, n - 1); }
  }

  // --------------------------------------------------------------------- agreement

  /** Slot `i` is live, watches `fd`, and wants direction `dir`. */
  predicate Wants(regs: seq<Reg>, i: int, fd: int, dir: Dir) {
    0 <= i < |regs| && Owned(regs[i], fd) && dir in regs[i].want
  }

  ghost predicate OneSlotPerFd(regs: seq<Reg>) {
    forall i, j | 0 <= i < |regs| && 0 <= j < |regs| && regs[i].inUse && regs[j].inUse && regs[i].fd == regs[j].fd ::
      i == j
  }

  /** Filters and table say the same, apart from the control pipe's read filter. */
  ghost predicate Agrees(t: Tables, control: int) {
    && OneSlotPerFd(t.regs)
    && (forall i | 0 <= i < |t.regs| && t.regs[i].inUse :: t.regs[i].fd != control)
    && (forall k | k in t.filters :: if k.fd == control then k.dir == Read && t.filters[k] == CONTROL
                                     else Wants(t.regs, t.filters[k], k.fd, k.dir))
    && (forall i, fd, dir | Wants(t.regs, i, fd, dir) :: Key(fd, dir) in t.filters && t.filters[Key(fd, dir)] == i)
    && Key(control, Read) in t.filters
  }

  lemma ApplyIs(f: Filters, fd: int, want: set<Dir>, slot: int, k: Key)
    ensures k.fd != fd ==> (k in Apply(f, fd, want, slot) <==> k in f)
    ensures k.fd != fd && k in f ==> Apply(f, fd, want, slot)[k] == f[k]
    ensures k.fd == fd ==> (k in Apply(f, fd, want, slot) <==> k.dir in want)
    ensures k.fd == fd && k.dir in want ==> Apply(f, fd, want, slot)[k] == slot
  {
    assert k == Key(k.fd, if k.dir.Read? then Read else Write);
  }

  /** A slot rewritten for an fd that only it may hold, with the filters applied to match. */
  lemma RewriteAgrees(t: Tables, control: int, i: nat, r: Reg, fd: int, want: set<Dir>)
    requires Agrees(t, control) && i < |t.regs| && fd != control
    requires r.inUse ==> r.fd == fd && r.want == want
    requires !r.inUse ==> want == {}
    requires t.regs[i].inUse ==> t.regs[i].fd == fd
    requires forall j | 0 <= j < |t.regs| && j != i :: !Owned(t.regs[j], fd)
    ensures Agrees(Tables(t.regs[i := r], Apply(t.filters, fd, want, i)), control)
  {
    var n := Tables(t.regs[i := r], Apply(t.filters, fd, want, i));
    forall k: Key ensures k.fd != fd ==> (k in n.filters <==> k in t.filters) { ApplyIs(t.filters, fd, want, i, k); }
    forall k | k in n.filters
      ensures if k.fd == control then k.dir == Read && n.filters[k] == CONTROL
              else Wants(n.regs, n.filters[k], k.fd, k.dir)
    {
      ApplyIs(t.filters, fd, want, i, k);
    }
    forall j, g, dir | Wants(n.regs, j, g, dir) ensures Key(g, dir) in n.filters && n.filters[Key(g, dir)] == j {
      ApplyIs(t.filters, fd, want, i, Key(g, dir));
      assert j != i ==> Wants(t.regs, j, g, dir);
    }
    ApplyIs(t.filters, fd, want, i, Key(control, Read));
  }

  lemma RegisterAgrees(t: Tables, control: int, fd: int, want: set<Dir>, sig: nat)
    requires Agrees(t, control) && fd != control
    ensures Agrees(Registered(t, fd, want, sig), control)
  {
    var i := Slot(t.regs, fd, sig);
    var own := FindReg(t.regs, fd, sig);
    if sig != 0 && i >= 0 {
      var r := if own >= 0 then t.regs[i].(want := want) else Reg(fd, want, {}, sig, true);
      forall j | 0 <= j < |t.regs| && j != i ensures !Owned(t.regs[j], fd) {
        if own < 0 { assert First(t.regs, (q: Reg) => Owned(q, fd), FindOwner(t.regs, fd)); }
      }
      RewriteAgrees(t, control, i, r, fd, want);
    }
  }

  lemma UnregisterAgrees(t: Tables, control: int, fd: int, sig: nat)
    requires Agrees(t, control) && fd != control
    ensures Agrees(Unregistered(t, fd, sig), control)
  {
    var i := FindReg(t.regs, fd, sig);
    if i >= 0 { RewriteAgrees(t, control, i, EMPTY, fd, {}); }
  }

  /** Stashing and draining touch neither the filters nor what is wanted. */
  lemma ReadyOnlyAgrees(t: Tables, control: int, regs: seq<Reg>)
    requires Agrees(t, control) && |regs| == |t.regs|
    requires forall i | 0 <= i < |regs| :: regs[i] == t.regs[i].(ready := regs[i].ready)
    ensures Agrees(t.(regs := regs), control)
  {
    forall i, fd, dir | Wants(regs, i, fd, dir) ensures Wants(t.regs, i, fd, dir) {}
  }

  datatype Call =
    | DoRegister(fd: int, want: set<Dir>, sig: nat)
    | DoUnregister(fd: int, sig: nat)
    | DoDrain(sig: nat, max: nat)
    | DoStash(fd: int, dir: Dir, slot: int)

  /** Callers never pass the pump's private control descriptor. */
  ghost function Do(t: Tables, c: Call): (r: Tables)
    ensures |r.regs| == |t.regs|
  {
    match c
    case DoRegister(fd, want, sig) => Registered(t, fd, want, sig)
    case DoUnregister(fd, sig) => Unregistered(t, fd, sig)
    case DoDrain(sig, max) => t.(regs := Emptied(t.regs, Reported(t.regs, sig, max, |t.regs|)))
    case DoStash(fd, dir, slot) => Stashed(t, fd, dir, slot)
  }

  ghost function DoAll(t: Tables, cs: seq<Call>): Tables
    decreases |cs|
  {
    if cs == [] then t else DoAll(Do(t, cs[0]), cs[1..])
  }

  /** After any sequence of calls, accepted or rejected, table and filters agree. */
  lemma {:induction false} CallsAgree(t: Tables, control: int, cs: seq<Call>)
    requires Agrees(t, control)
    requires forall i | 0 <= i < |cs| :: (cs[i].DoRegister? || cs[i].DoUnregister?) ==> cs[i].fd != control
    ensures Agrees(DoAll(t, cs), control)
    decreases |cs|
  {
    if cs != [] {
      match cs[0] {
        case DoRegister(fd, want, sig) => RegisterAgrees(t, control, fd, want, sig);
        case DoUnregister(fd, sig) => UnregisterAgrees(t, control, fd, sig);
        case DoDrain(_, _) => ReadyOnlyAgrees(t, control, Do(t, cs[0]).regs);
        case DoStash(_, _, _) => ReadyOnlyAgrees(t, control, Do(t, cs[0]).regs);
      }
      CallsAgree(Do(t, cs[0]), control, cs[1..]);
    }
  }

  /** The same from the table the constructor makes: every table the pump can ever have. */
  lemma ReachableAgree(slots: nat, control: int, cs: seq<Call>)
    requires forall i | 0 <= i < |cs| :: (cs[i].DoRegister? || cs[i].DoUnregister?) ==> cs[i].fd != control
    ensures Agrees(DoAll(Fresh(slots, control), cs), control)
  {
    CallsAgree(Fresh(slots, control), control, cs);
  }

  /** `a` and `b` agree on every slot but `i`. */
  ghost predicate OtherSlotsKept(a: seq<Reg>, b: seq<Reg>, i: int) {
    |a| == |b| && forall j | 0 <= j < |a| && j != i :: b[j] == a[j]
  }

  /** The filters of other fds are as before. */
  ghost predicate OtherFiltersKept(a: Filters, b: Filters, fd: int) {
    forall k: Key | k.fd != fd :: (k in b <==> k in a) && (k in a ==> b[k] == a[k])
  }

  /**
   A registration that finds a slot: that slot wants what was asked for, for this fd and target,
   and exactly those filters of the fd are enabled, with the slot as user data; a slot of the
   caller's own keeps its stash, a new one starts with none, and nothing else changes.
   */
  lemma RegisterStores(t: Tables, control: int, fd: int, want: set<Dir>, sig: nat, dir: Dir)
    requires Agrees(t, control) && fd != control && sig != 0 && Slot(t.regs, fd, sig) >= 0
    ensures var i, r := Slot(t.regs, fd, sig), Registered(t, fd, want, sig);
      && i < |t.regs| && |r.regs| == |t.regs|
      && r.regs[i].inUse && r.regs[i].fd == fd && r.regs[i].sig == sig && r.regs[i].want == want
      && r.regs[i].ready == (if t.regs[i].inUse then t.regs[i].ready else {})
      && (t.regs[i].inUse ==> t.regs[i].fd == fd && t.regs[i].sig == sig)
      && (Key(fd, dir) in r.filters <==> dir in want)
      && (dir in want ==> r.filters[Key(fd, dir)] == i)
      && OtherSlotsKept(t.regs, r.regs, i) && OtherFiltersKept(t.filters, r.filters, fd)
  {
    var i, own := Slot(t.regs, fd, sig), FindReg(t.regs, fd, sig);
    if own >= 0 { assert Mine(t.regs[own], fd, sig); } else { assert i == FindFree(t.regs) && !t.regs[i].inUse; }
    ApplyIs(t.filters, fd, want, i, Key(fd, dir));
    forall k: Key | k.fd != fd
      ensures (k in Apply(t.filters, fd, want, i) <==> k in t.filters)
      ensures k in t.filters ==> Apply(t.filters, fd, want, i)[k] == t.filters[k]
    {
      ApplyIs(t.filters, fd, want, i, k);
    }
  }

  /** Unregistering: the caller's slot of this fd is free, no filter of the fd is left, and nothing else changes. */
  lemma UnregisterClears(t: Tables, control: int, fd: int, sig: nat, dir: Dir)
    requires Agrees(t, control) && fd != control && FindReg(t.regs, fd, sig) >= 0
    ensures var i, r := FindReg(t.regs, fd, sig), Unregistered(t, fd, sig);
      && i < |t.regs| && |r.regs| == |t.regs| && Mine(t.regs[i], fd, sig)
      && !r.regs[i].inUse && r.regs[i].ready == {} && FindReg(r.regs, fd, sig) < 0
      && Key(fd, dir) !in r.filters
      && OtherSlotsKept(t.regs, r.regs, i) && OtherFiltersKept(t.filters, r.filters, fd)
  {
    var i := FindReg(t.regs, fd, sig);
    assert Mine(t.regs[i], fd, sig);
    ApplyIs(t.filters, fd, {}, i, Key(fd, dir));
    forall k: Key | k.fd != fd
      ensures (k in Apply(t.filters, fd, {}, i) <==> k in t.filters)
      ensures k in t.filters ==> Apply(t.filters, fd, {}, i)[k] == t.filters[k]
    {
      ApplyIs(t.filters, fd, {}, i, k);
    }
    var r, j := Unregistered(t, fd, sig), FindReg(Unregistered(t, fd, sig).regs, fd, sig);
    assert j >= 0 ==> Mine(r.regs[j], fd, sig);
  }

  /** A delivered event adds its direction to the stash of the slot it names, if that still wants it. */
  lemma StashStores(t: Tables, control: int, fd: int, dir: Dir)
    requires Agrees(t, control) && fd != control
    ensures Key(fd, dir) in t.filters ==>
              var i, r := t.filters[Key(fd, dir)], Stashed(t, fd, dir, t.filters[Key(fd, dir)]);
              && 0 <= i < |t.regs| == |r.regs|
              && r.regs[i] == t.regs[i].(ready := r.regs[i].ready) && r.filters == t.filters
              && (forall d: Dir :: d in r.regs[i].ready <==> d in t.regs[i].ready || d == dir)
              && OtherSlotsKept(t.regs, r.regs, i)
    ensures forall slot :: !Wants(t.regs, slot, fd, dir) ==> Stashed(t, fd, dir, slot) == t
  {
    assert Key(fd, dir) in t.filters ==> Wants(t.regs, t.filters[Key(fd, dir)], fd, dir);
  }

  /** Slot `i` was passed over: the drain was full with lower slots. */
  ghost predicate PassedOver(q: seq<nat>, max: nat, i: nat) {
    i !in q ==> |q| == max && forall a | 0 <= a < |q| :: q[a] < i
  }

  ghost predicate InSlotOrder(q: seq<nat>) { forall a, b | 0 <= a < b < |q| :: q[a] < q[b] }

  /** A drain reports in slot order, and passes over a ready slot only when it is full with lower ones. */
  lemma {:induction false} DrainInOrder(regs: seq<Reg>, sig: nat, max: nat, n: nat)
    requires n <= |regs|
    ensures InSlotOrder(Reported(regs, sig, max, n))
    ensures forall i: nat | i < n && Ready(regs[i], sig) :: PassedOver(Reported(regs, sig, max, n), max, i)
  {
    if n > 0 {
      var p := Reported(regs, sig, max, n - 1);
      DrainInOrder(regs, sig, max, n - 1);
      if |p| < max && Ready(regs[n - 1], sig) {
        forall i: nat | i < n && Ready(regs[i], sig) ensures PassedOver(p + [n - 1], max, i) {
          assert (p + [n - 1])[|p|] == n - 1;
          assert i < n - 1 ==> PassedOver(p, max, i);
        }
      }
    }
  }

  /** Registration is refused exactly when another target owns the fd, or the table is full. */
  lemma RefusedIff(t: Tables, control: int, fd: int, sig: nat)
    requires Agrees(t, control) && sig != 0
    ensures Slot(t.regs, fd, sig) < 0 <==>
      (exists i | 0 <= i < |t.regs| :: Owned(t.regs[i], fd) && t.regs[i].sig != sig)
      || (forall i | 0 <= i < |t.regs| :: t.regs[i].inUse && t.regs[i].fd != fd)
  {
    var own, owner, free := FindReg(t.regs, fd, sig), FindOwner(t.regs, fd), FindFree(t.regs);
    assert own >= 0 ==> Mine(t.regs[own], fd, sig);
    assert own < 0 && owner >= 0 ==> Owned(t.regs[owner], fd) && !Mine(t.regs[owner], fd, sig);
    assert free >= 0 ==> !t.regs[free].inUse;
  }

  /** Calls with a target that does not own the fd leave everything, filters included, as it was. */
  lemma WrongOwnerIsNoOp(t: Tables, control: int, fd: int, want: set<Dir>, sig: nat, i: nat)
    requires Agrees(t, control) && i < |t.regs| && Owned(t.regs[i], fd) && t.regs[i].sig != sig
    ensures Unregistered(t, fd, sig) == t
    ensures Registered(t, fd, want, sig) == t
  {
    assert FindReg(t.regs, fd, sig) >= 0 ==> Mine(t.regs[FindReg(t.regs, fd, sig)], fd, sig);
    assert FindOwner(t.regs, fd) >= 0;
  }

  /** A drain that reports fewer than `max` leaves nothing stashed for its target. */
  lemma {:induction false} ShortDrainIsFull(regs: seq<Reg>, sig: nat, max: nat, n: nat)
    requires n <= |regs| && |Reported(regs, sig, max, n)| < max
    ensures forall i | 0 <= i < n :: Ready(regs[i], sig) <==> i in Reported(regs, sig, max, n)
  {
    if n > 0 { ShortDrainIsFull(regs, sig, max, n - 1); }
  }
}
