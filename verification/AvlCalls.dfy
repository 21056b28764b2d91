/**
 The AVL calls of exec.library, on the in-order sequence.

 With a node callback that is a total order, adding keeps a sorted sequence without
 duplicates: it inserts at the sorted place or answers with the equal node.  A keyed call
 brings its own callback, which compares a node with a plain key; all it needs is to split
 the sequence for that key into below, at most one equal, and above.  Then removing by key
 deletes the one equal node and the keyed searches agree with a scan of every node.
 */
module AvlCalls {
  import opened GuestMemory
  import opened Tree
  import opened GuestAvl

  // ------------------------------------------------------------- keyed operations

  /** A comparison callback: negative when its first argument sorts before the second. */
  type Compare = (nat, nat) -> int

  ghost predicate Mirrored(cmp: Compare, a: nat, b: nat) { cmp(a, b) < 0 <==> cmp(b, a) > 0 }

  ghost predicate Transitive(cmp: Compare, a: nat, b: nat, c: nat) {
    cmp(a, b) <= 0 && cmp(b, c) <= 0 ==> cmp(a, c) <= 0
  }

  ghost predicate TotalOrder(cmp: Compare) {
    && (forall a, b :: Mirrored(cmp, a, b))
    && (forall a, b, c :: Transitive(cmp, a, b, c))
  }

  lemma MoreAfter(cmp: Compare, a: nat, b: nat, key: nat)
    requires TotalOrder(cmp) && cmp(b, a) < 0 && cmp(b, key) >= 0
    ensures cmp(a, key) > 0
  {
    assert Mirrored(cmp, b, a) && Mirrored(cmp, b, key) && Mirrored(cmp, key, b);
    assert Transitive(cmp, a, key, b);
  }

  ghost predicate Sorted(cmp: Compare, s: seq<nat>) {
    forall i, j | 0 <= i < j < |s| :: cmp(s[i], s[j]) < 0
  }

  /** The first position whose node is not below `key`. */
  function LowerBound(cmp: Compare, s: seq<nat>, key: nat): (r: nat)
    ensures r <= |s|
    ensures forall i | 0 <= i < r :: cmp(s[i], key) < 0
    ensures r < |s| ==> cmp(s[r], key) >= 0
  {
    if s == [] || cmp(s[0], key) >= 0 then 0 else 1 + LowerBound(cmp, s[1..], key)
  }

  lemma LowerBoundUnique(cmp: Compare, s: seq<nat>, key: nat, r: nat)
    requires r <= |s|
    requires forall i | 0 <= i < r :: cmp(s[i], key) < 0
    requires r < |s| ==> cmp(s[r], key) >= 0
    ensures LowerBound(cmp, s, key) == r
  {
    assert forall i | 0 <= i < LowerBound(cmp, s, key) :: cmp(s[i], key) < 0;
  }

  /** Along the sequence the callback for `key` is negative, then zero at most once, then positive. */
  ghost predicate Splits(cmp: Compare, s: seq<nat>, key: nat) {
    forall i, j | 0 <= i < j < |s| && cmp(s[i], key) >= 0 :: cmp(s[j], key) > 0
  }

  /** A node callback splits the sequence it sorts, for every node. */
  lemma SortedSplits(cmp: Compare, s: seq<nat>, key: nat)
    requires TotalOrder(cmp) && Sorted(cmp, s)
    ensures Splits(cmp, s, key)
  {
    forall i, j | 0 <= i < j < |s| && cmp(s[i], key) >= 0 ensures cmp(s[j], key) > 0 {
      assert cmp(s[i], s[j]) < 0;
      MoreAfter(cmp, s[j], s[i], key);
    }
  }

  /** A word as the `int32_t` it is cast to. */
  function Signed32(x: int): (r: int)
    ensures -0x8000_0000 <= r < 0x8000_0000 && (r - x) % 0x1_0000_0000 == 0
  {
    if TwosComplement(x) < 0x8000_0000 then TwosComplement(x) else TwosComplement(x) - 0x1_0000_0000
  }

  /** A key callback that subtracts the key from a field of the node, in 32 bits. */
  function KeyCallback(field: nat -> nat): Compare { (node: nat, key: nat) => Signed32(field(node) - key) }

  ghost predicate Ascending(field: nat -> nat, s: seq<nat>) {
    && (forall i | 0 <= i < |s| :: field(s[i]) < 0x1_0000_0000)
    && (forall i, j | 0 <= i < j < |s| :: field(s[i]) < field(s[j]))
  }

  /** The difference of the field and the key fits in 31 bits and a sign. */
  predicate Near(field: nat -> nat, node: nat, key: nat) {
    -0x8000_0000 <= field(node) - key < 0x8000_0000
  }

  lemma CallbackSign(d: int)
    requires -0x1_0000_0000 < d < 0x1_0000_0000
    ensures Signed32(d) ==
              if d < -0x8000_0000 then d + 0x1_0000_0000 else if d < 0x8000_0000 then d else d - 0x1_0000_0000
  {
  }

  /**
   Along ascending fields the callback splits the sequence exactly when every difference fits,
   or the wrap puts every node on the same side of the key.
   */
  lemma KeyCallbackSplits(field: nat -> nat, s: seq<nat>, key: nat)
    requires Ascending(field, s) && key < 0x1_0000_0000
    ensures Splits(KeyCallback(field), s, key) <==>
              || (forall i | 0 <= i < |s| :: Near(field, s[i], key))
              || (forall i | 0 <= i < |s| :: KeyCallback(field)(s[i], key) > 0)
              || (forall i | 0 <= i < |s| :: KeyCallback(field)(s[i], key) < 0)
  {
    hide Signed32;
    var cmp := KeyCallback(field);
    forall i | 0 <= i < |s|
      ensures var d := field(s[i]) - key;
        cmp(s[i], key) ==
          if d < -0x8000_0000 then d + 0x1_0000_0000 else if d < 0x8000_0000 then d else d - 0x1_0000_0000
    {
      CallbackSign(field(s[i]) - key);
    }
    if Splits(cmp, s, key) && exists i :: 0 <= i < |s| && !Near(field, s[i], key) {
      var i :| 0 <= i < |s| && !Near(field, s[i], key);
      forall j | 0 <= j < |s| ensures cmp(s[j], key) > 0 <==> field(s[i]) < key {
        assert j < i ==> field(s[j]) < field(s[i]);
        assert i < j ==> field(s[i]) < field(s[j]);
      }
    }
  }

  /** Fields 0 and 2^31 - 1 against the key 2^32 - 1: positive and then negative. */
  lemma FarKeyExample(field: nat -> nat)
    requires field(64) == 0 && field(80) == 0x7fff_ffff
    ensures Ascending(field, [64, 80]) && !Splits(KeyCallback(field), [64, 80], 0xffff_ffff)
  {
    assert [64, 80][0] == 64 && [64, 80][1] == 80;
    CallbackSign(-0xffff_ffff);
    CallbackSign(0x7fff_ffff - 0xffff_ffff);
  }

  /** The node equal to `key`, 0 when there is none. */
  function Equal(cmp: Compare, s: seq<nat>, key: nat): nat {
    var r := LowerBound(cmp, s, key);
    if r < |s| && cmp(s[r], key) == 0 then s[r] else 0
  }

  /** The answer agrees with looking at every node, and no other node is equal to the key. */
  lemma EqualIsLinearScan(cmp: Compare, s: seq<nat>, key: nat)
    requires Splits(cmp, s, key) && 0 !in s
    ensures Equal(cmp, s, key) != 0 <==> exists i :: 0 <= i < |s| && cmp(s[i], key) == 0
    ensures forall i | 0 <= i < |s| && cmp(s[i], key) == 0 :: i == LowerBound(cmp, s, key) && Equal(cmp, s, key) == s[i]
  {
    var r := LowerBound(cmp, s, key);
    assert r < |s| ==> s[r] in s;
    forall i | 0 <= i < |s| && cmp(s[i], key) == 0 ensures i == r { assert cmp(s[r], key) >= 0; }
  }

  /** The sequence after `AVL_AddNode`. */
  function Added(cmp: Compare, s: seq<nat>, node: nat): seq<nat> {
    var r := LowerBound(cmp, s, node);
    if r < |s| && cmp(s[r], node) == 0 then s else s[..r] + [node] + s[r..]
  }

  lemma InsertSorted(cmp: Compare, s: seq<nat>, r: nat, node: nat)
    requires Sorted(cmp, s) && r <= |s|
    requires forall i | 0 <= i < r :: cmp(s[i], node) < 0
    requires forall i | r <= i < |s| :: cmp(node, s[i]) < 0
    ensures Sorted(cmp, s[..r] + [node] + s[r..])
  {
    var q := s[..r] + [node] + s[r..];
    forall i, j | 0 <= i < j < |q| ensures cmp(q[i], q[j]) < 0 {
      if i < r {
        if j < r { assert cmp(s[i], s[j]) < 0; } else if j > r { assert cmp(s[i], s[j - 1]) < 0; }
      } else if i > r {
        assert cmp(s[i - 1], s[j - 1]) < 0;
      }
    }
  }

  /** A node with no equal in the sequence is below everything from its lower bound on. */
  lemma BelowRest(cmp: Compare, s: seq<nat>, node: nat)
    requires TotalOrder(cmp) && Sorted(cmp, s) && Equal(cmp, s, node) == 0 && 0 !in s
    ensures forall i | LowerBound(cmp, s, node) <= i < |s| :: cmp(node, s[i]) < 0
  {
    var r := LowerBound(cmp, s, node);
    SortedSplits(cmp, s, node);
    assert r < |s| ==> s[r] in s;
    forall i | r <= i < |s| ensures cmp(node, s[i]) < 0 {
      assert r < i ==> cmp(s[i], node) > 0;
      assert Mirrored(cmp, node, s[i]);
    }
  }

  /** Adding keeps the sequence sorted and free of duplicates, and adds exactly the new node. */
  lemma AddedSorted(cmp: Compare, s: seq<nat>, node: nat)
    requires TotalOrder(cmp) && Sorted(cmp, s) && Equal(cmp, s, node) == 0 && 0 !in s
    ensures Sorted(cmp, Added(cmp, s, node))
    ensures multiset(Added(cmp, s, node)) == multiset(s) + multiset{node}
  {
    var r := LowerBound(cmp, s, node);
    BelowRest(cmp, s, node);
    InsertSorted(cmp, s, r, node);
    InsertMultiset(s, r, node);
  }

  lemma InsertMultiset(s: seq<nat>, r: nat, node: nat)
    requires r <= |s|
    ensures multiset(s[..r] + [node] + s[r..]) == multiset(s) + multiset{node}
  {
    assert s == s[..r] + s[r..];
  }

  function Without(s: seq<nat>, k: nat): seq<nat>
    requires k < |s|
  {
    s[..k] + s[k + 1..]
  }

  lemma WithoutSorted(cmp: Compare, s: seq<nat>, k: nat)
    requires Sorted(cmp, s) && k < |s|
    ensures Sorted(cmp, Without(s, k))
  {
    var q := Without(s, k);
    forall i, j | 0 <= i < j < |q| ensures cmp(q[i], q[j]) < 0 {
      assert q[i] == s[if i < k then i else i + 1] && q[j] == s[if j < k then j else j + 1];
    }
  }

  /** Removing what was added restores the sequence. */
  lemma RemoveUndoesAdd(cmp: Compare, s: seq<nat>, node: nat)
    requires TotalOrder(cmp) && Sorted(cmp, s) && Equal(cmp, s, node) == 0 && 0 !in s
    ensures var q := Added(cmp, s, node);
      LowerBound(cmp, q, node) < |q| && Without(q, LowerBound(cmp, q, node)) == s
  {
    var r := LowerBound(cmp, s, node);
    SelfEqual(cmp, node);
    AddedBound(cmp, s, node, r);
  }

  lemma SelfEqual(cmp: Compare, node: nat)
    requires TotalOrder(cmp)
    ensures cmp(node, node) == 0
  {
    assert Mirrored(cmp, node, node);
  }

  lemma AddedBound(cmp: Compare, s: seq<nat>, node: nat, r: nat)
    requires r == LowerBound(cmp, s, node) && cmp(node, node) == 0 && Equal(cmp, s, node) == 0 && 0 !in s
    ensures var q := Added(cmp, s, node); LowerBound(cmp, q, node) == r < |q| && Without(q, r) == s
  {
    var q := Added(cmp, s, node);
    forall i | 0 <= i < r ensures cmp(q[i], node) < 0 { assert q[i] == s[i]; }
    LowerBoundUnique(cmp, q, node, r);
  }

  // ------------------------------------------------------------------- the calls

  /** The root word at `rootp` leads to `t`, and is none of its nodes' words. */
  ghost predicate TreeAt(w: Words, rootp: nat, t: Tree) {
    rootp in w && w[rootp] == Root(t) && TreeIn(w, t) && Outside(InOrder(t), rootp)
  }

  /** Nothing but the nodes of `s` and the root word changed. */
  ghost predicate OnlyTree(w: Words, w': Words, s: seq<nat>, rootp: nat) {
    && w.Keys == w'.Keys
    && forall b | b in w && Outside(s, b) && (b + 4 <= rootp || rootp + 4 <= b) :: w'[b] == w[b]
  }

  lemma RebuiltTree(w0: Words, w1: Words, w2: Words, nodes: seq<nat>, t: Tree, rootp: nat)
    requires Nodes(w0, nodes) && rootp in w0 && Outside(nodes, rootp)
    requires Rebuilt(w0, w1, nodes, t, 0) && Stored(w1, w2, rootp, Root(t))
    ensures TreeAt(w2, rootp, t) && Balanced(w2, t) && OnlyTree(w0, w2, nodes, rootp)
  {
    NodesStay(w0, w1, nodes);
    forall i | 0 <= i < |nodes| ensures SameNode(w1, w2, nodes[i]) {
      assert NodeIn(w1, nodes[i]) && OutsideNode(nodes[i], rootp);
    }
    LinkedKept(w1, w2, t, 0);
    NodesStay(w1, w2, nodes);
  }

  /** `avl_rebuild`. */
  method RebuildAll(m: Arena, rootp: nat, nodes: seq<nat>) returns (ghost t: Tree)
    requires m.Valid() && Nodes(m.words, nodes) && rootp in m.words && Outside(nodes, rootp)
    modifies m`words, m.ram
    ensures m.Valid() && t == Build(nodes, 0, |nodes|) && InOrder(t) == nodes
    ensures TreeAt(m.words, rootp, t) && Balanced(m.words, t)
    ensures OnlyTree(old(m.words), m.words, nodes, rootp)
  {
    assert nodes[0..|nodes|] == nodes;
    var root, height, u := RebuildRange(m, nodes, 0, |nodes|, 0);
    ghost var w1 := m.words;
    m.Write32(rootp, root);
    t := u;
    RebuiltTree(old(m.words), w1, m.words, nodes, t, rootp);
  }

  /** A node that may be added: in the arena, clear of the tree and of the root word. */
  ghost predicate Spare(w: Words, node: nat, s: seq<nat>, rootp: nat) {
    && NodeIn(w, node) && OutsideNode(node, rootp)
    && forall i | 0 <= i < |s| :: s[i] + 16 <= node || node + 16 <= s[i]
  }

  /** A rebuild followed by the collect of the next call: the list comes back. */
  method RebuildThenCollect(m: Arena, rootp: nat, nodes: seq<nat>) returns (again: seq<nat>)
    requires m.Valid() && Nodes(m.words, nodes) && rootp in m.words && Outside(nodes, rootp) && |nodes| <= 65536
    modifies m`words, m.ram
    ensures m.Valid() && again == nodes
  {
    ghost var t := RebuildAll(m, rootp, nodes);
    var root := m.Read32(rootp);
    var ok;
    ok, again := Collect(m, root, t);
  }

  lemma SpareInserted(w: Words, s: seq<nat>, r: nat, node: nat, rootp: nat)
    requires Nodes(w, s) && Outside(s, rootp) && Spare(w, node, s, rootp) && r <= |s|
    ensures Nodes(w, s[..r] + [node] + s[r..]) && Outside(s[..r] + [node] + s[r..], rootp)
  {
    var q := s[..r] + [node] + s[r..];
    forall i | 0 <= i < |q| ensures NodeIn(w, q[i]) && OutsideNode(q[i], rootp) {
      assert q[i] == if i < r then s[i] else if i == r then node else s[i - 1];
    }
    forall i, j | 0 <= i < j < |q| ensures q[i] + 16 <= q[j] || q[j] + 16 <= q[i] {
      var a, b := if i < r then i else i - 1, if j < r then j else j - 1;
      assert i == r || q[i] == s[a];
      assert j == r || q[j] == s[b];
    }
  }

  lemma WithoutNodes(w: Words, s: seq<nat>, k: nat, rootp: nat)
    requires Nodes(w, s) && Outside(s, rootp) && k < |s|
    ensures Nodes(w, Without(s, k)) && Outside(Without(s, k), rootp)
    ensures forall i | 0 <= i < |s| - 1 :: Without(s, k)[i] + 16 <= s[k] || s[k] + 16 <= Without(s, k)[i]
  {
    var q := Without(s, k);
    forall i | 0 <= i < |q|
      ensures NodeIn(w, q[i]) && OutsideNode(q[i], rootp) && (q[i] + 16 <= s[k] || s[k] + 16 <= q[i])
    {
      assert q[i] == s[if i < k then i else i + 1];
    }
    forall i, j | 0 <= i < j < |q| ensures q[i] + 16 <= q[j] || q[j] + 16 <= q[i] {
      assert q[i] == s[if i < k then i else i + 1] && q[j] == s[if j < k then j else j + 1];
    }
  }

  /** The scan of `AVL_AddNode` and `AVL_RemNodeByKey`: stops at the first node not below the key. */
  method Scan(nodes: seq<nat>, key: nat, cmp: Compare) returns (at: nat, equal: bool)
    ensures at == LowerBound(cmp, nodes, key)
    ensures equal <==> at < |nodes| && cmp(nodes[at], key) == 0
  {
    at := 0;
    while at < |nodes|
      invariant at <= |nodes| && forall i | 0 <= i < at :: cmp(nodes[i], key) < 0
    {
      var c := cmp(nodes[at], key);
      if c == 0 {
        LowerBoundUnique(cmp, nodes, key, at);
        return at, true;
      }
      if c > 0 { break; }
      at := at + 1;
    }
    LowerBoundUnique(cmp, nodes, key, at);
    equal := false;
  }

  /** `AVL_AddNode`. */
  method AddNode(m: Arena, rootp: nat, node: nat, cmp: Compare, ghost t: Tree)
    returns (err: bool, d0: nat, ghost t': Tree)
    requires m.Valid() && TreeAt(m.words, rootp, t)
    requires TotalOrder(cmp) && Sorted(cmp, InOrder(t))
    requires node in InOrder(t) || Spare(m.words, node, InOrder(t), rootp)
    modifies m`words, m.ram
    ensures m.Valid()
    ensures err <==> |InOrder(t)| > 65536
    ensures !err ==> d0 == Equal(cmp, InOrder(t), node)
    ensures err || d0 != 0 ==> m.words == old(m.words) && t' == t
    ensures !err ==> TreeAt(m.words, rootp, t') && InOrder(t') == Added(cmp, InOrder(t), node)
    ensures !err && d0 == 0 ==> t' == Build(InOrder(t'), 0, |InOrder(t')|) && Balanced(m.words, t')
    ensures OnlyTree(old(m.words), m.words, InOrder(t'), rootp)
  {
    t' := t;
    ghost var s := InOrder(t);
    var root := m.Read32(rootp);
    var ok, nodes := Collect(m, root, t);
    if !ok { return true, 0, t; }
    var at, equal := Scan(nodes, node, cmp);
    if equal {
      assert NodeIn(m.words, s[at]);
      return false, nodes[at], t;
    }
    AbsentIsSpare(cmp, s, node);
    SpareInserted(m.words, s, at, node, rootp);
    t' := RebuildAll(m, rootp, nodes[..at] + [node] + nodes[at..]);
    err, d0 := false, 0;
  }

  /** A node with no equal in the tree is not in the tree. */
  lemma AbsentIsSpare(cmp: Compare, s: seq<nat>, node: nat)
    requires TotalOrder(cmp) && Sorted(cmp, s)
    requires var r := LowerBound(cmp, s, node); r == |s| || cmp(s[r], node) != 0
    ensures node !in s
  {
    var r := LowerBound(cmp, s, node);
    SelfEqual(cmp, node);
    SortedSplits(cmp, s, node);
    forall i | 0 <= i < |s| ensures s[i] != node { assert r < |s| ==> cmp(s[r], node) > 0; }
  }

  // ---------------------------------------------------------------------- removal

  /** The removed node's words are zeroed after the rebuild; the tree does not notice. */
  lemma ZeroedApart(w1: Words, w2: Words, a: nat, t: Tree, rootp: nat)
    requires TreeAt(w1, rootp, t) && Balanced(w1, t) && NodeWritten(w1, w2, a, 0, 0, 0, 0) && OutsideNode(a, rootp)
    requires forall i | 0 <= i < |InOrder(t)| :: InOrder(t)[i] + 16 <= a || a + 16 <= InOrder(t)[i]
    ensures TreeAt(w2, rootp, t) && Balanced(w2, t)
  {
    var s := InOrder(t);
    forall i | 0 <= i < |s| ensures SameNode(w1, w2, s[i]) { assert NodeIn(w1, s[i]); }
    LinkedKept(w1, w2, t, 0);
    NodesStay(w1, w2, s);
  }

  /** The rebuild without node `k`, and the four zero words in it. */
  method Delete(m: Arena, rootp: nat, nodes: seq<nat>, k: nat, ghost t: Tree) returns (ghost t': Tree)
    requires m.Valid() && TreeAt(m.words, rootp, t) && nodes == InOrder(t) && k < |nodes|
    modifies m`words, m.ram
    ensures m.Valid() && TreeAt(m.words, rootp, t') && Balanced(m.words, t')
    ensures InOrder(t') == Without(nodes, k) && t' == Build(InOrder(t'), 0, |InOrder(t')|)
    ensures At(m.words, nodes[k]) == 0 && At(m.words, nodes[k] + 4) == 0
    ensures At(m.words, nodes[k] + 8) == 0 && At(m.words, nodes[k] + 12) == 0
    ensures OnlyTree(old(m.words), m.words, nodes, rootp)
  {
    ghost var w0 := m.words;
    WithoutNodes(w0, nodes, k, rootp);
    assert NodeIn(w0, nodes[k]) && OutsideNode(nodes[k], rootp);
    t' := RebuildAll(m, rootp, nodes[..k] + nodes[k + 1..]);
    ghost var w1 := m.words;
    WriteNode(m, nodes[k], 0, 0, 0, 0);
    ZeroedApart(w1, m.words, nodes[k], t', rootp);
    DeleteFrame(w0, w1, m.words, nodes, k, rootp);
  }

  lemma DeleteFrame(w0: Words, w1: Words, w2: Words, s: seq<nat>, k: nat, rootp: nat)
    requires k < |s| && OnlyTree(w0, w1, Without(s, k), rootp) && NodeWritten(w1, w2, s[k], 0, 0, 0, 0)
    ensures OnlyTree(w0, w2, s, rootp)
  {
    var q := Without(s, k);
    forall b | b in w0 && Outside(s, b) && (b + 4 <= rootp || rootp + 4 <= b) ensures w2[b] == w0[b] {
      forall i | 0 <= i < |q| ensures OutsideNode(q[i], b) { assert q[i] == s[if i < k then i else i + 1]; }
      assert OutsideNode(s[k], b);
    }
  }

  /** `AVL_RemNodeByKey`: deletes the node equal to the key, if there is one. */
  method RemoveByKey(m: Arena, rootp: nat, key: nat, cmp: Compare, ghost t: Tree)
    returns (err: bool, removed: nat, ghost t': Tree)
    requires m.Valid() && TreeAt(m.words, rootp, t)
    modifies m`words, m.ram
    ensures m.Valid()
    ensures err <==> |InOrder(t)| > 65536
    ensures !err ==> removed == Equal(cmp, InOrder(t), key) && TreeAt(m.words, rootp, t')
    ensures err || removed == 0 ==> m.words == old(m.words) && t' == t
    ensures !err && removed != 0 ==>
              InOrder(t') == Without(InOrder(t), LowerBound(cmp, InOrder(t), key)) && Balanced(m.words, t')
    ensures OnlyTree(old(m.words), m.words, InOrder(t), rootp)
  {
    t' := t;
    var root := m.Read32(rootp);
    var ok, nodes := Collect(m, root, t);
    if !ok { return true, 0, t; }
    var at, equal := Scan(nodes, key, cmp);
    if !equal { return false, 0, t; }
    assert NodeIn(m.words, nodes[at]);
    t' := Delete(m, rootp, nodes, at, t);
    err, removed := false, nodes[at];
  }

  /** The added node is equal to itself, so a removal by it finds it. */
  lemma AddedIsFound(cmp: Compare, s: seq<nat>, node: nat)
    requires TotalOrder(cmp) && Sorted(cmp, s) && Equal(cmp, s, node) == 0 && 0 !in s && node != 0
    ensures var q := Added(cmp, s, node);
      |q| == |s| + 1 && Equal(cmp, q, node) == node && Without(q, LowerBound(cmp, q, node)) == s
  {
    SelfEqual(cmp, node);
    AddedBound(cmp, s, node, LowerBound(cmp, s, node));
  }

  lemma NodesPositive(w: Words, s: seq<nat>)
    requires Nodes(w, s)
    ensures 0 !in s
  {
    forall i | 0 <= i < |s| ensures s[i] != 0 { assert NodeIn(w, s[i]); }
  }

  /**
   Adding a new node and removing it again gives the tree's sequence back, except on a tree of
   exactly 65536 nodes: the add leaves one node more than any later call will collect.
   */
  method AddThenRemove(m: Arena, rootp: nat, node: nat, cmp: Compare, ghost t: Tree) returns (err: bool, ghost t': Tree)
    requires m.Valid() && TreeAt(m.words, rootp, t) && |InOrder(t)| <= 65536
    requires TotalOrder(cmp) && Sorted(cmp, InOrder(t)) && Equal(cmp, InOrder(t), node) == 0
    requires Spare(m.words, node, InOrder(t), rootp)
    modifies m`words, m.ram
    ensures m.Valid() && TreeAt(m.words, rootp, t')
    ensures err <==> |InOrder(t)| == 65536
    ensures InOrder(t') == if err then Added(cmp, InOrder(t), node) else InOrder(t)
  {
    NodesPositive(m.words, InOrder(t));
    AddedIsFound(cmp, InOrder(t), node);
    ghost var added;
    var d0, removed;
    err, d0, added := AddNode(m, rootp, node, cmp, t);
    err, removed, t' := RemoveByKey(m, rootp, node, cmp, added);
  }

  /** The first `n` nodes of a row, one after the other from address 64. */
  function InARow(n: nat): (s: seq<nat>)
    ensures |s| == n && forall i | 0 <= i < n :: s[i] == 64 + 16 * i
  {
    seq(n, i => 64 + 16 * i)
  }

  const BY_ADDRESS: Compare := (a, b) => a - b

  lemma ByAddress(n: nat)
    ensures TotalOrder(BY_ADDRESS) && Sorted(BY_ADDRESS, InARow(n))
    ensures Equal(BY_ADDRESS, InARow(n), 64 + 16 * n) == 0
  {
    hide LowerBound;
  }

  lemma RowFits(w: Words, n: nat)
    requires forall a | InArena(a, 0, 80 + 16 * n) :: a in w
    ensures Nodes(w, InARow(n)) && Outside(InARow(n), 4) && Spare(w, 64 + 16 * n, InARow(n), 4)
  {
  }

  /** A row of nodes sorted by address: one more goes in and comes out again, unless there are 65536. */
  method AddThenRemoveExample(n: nat) returns (err: bool)
    requires n <= 65536
    ensures err <==> n == 65536
  {
    var m := new Arena(0, 80 + 16 * n);
    RowFits(m.words, n);
    ByAddress(n);
    ghost var t := RebuildAll(m, 4, InARow(n));
    ghost var t';
    err, t' := AddThenRemove(m, 4, 64 + 16 * n, BY_ADDRESS, t);
  }

  /** `AVL_RemNodeByAddress`: deletes that very node, if it is in the tree. */
  method RemoveByAddress(m: Arena, rootp: nat, wanted: nat, ghost t: Tree)
    returns (err: bool, removed: nat, ghost t': Tree)
    requires m.Valid() && TreeAt(m.words, rootp, t)
    modifies m`words, m.ram
    ensures m.Valid()
    ensures err <==> |InOrder(t)| > 65536
    ensures !err ==> removed == (if wanted in InOrder(t) then wanted else 0) && TreeAt(m.words, rootp, t')
    ensures err || removed == 0 ==> m.words == old(m.words) && t' == t
    ensures !err && removed != 0 ==> Balanced(m.words, t')
    ensures !err && removed != 0 ==>
      exists k :: 0 <= k < |InOrder(t)| && InOrder(t)[k] == wanted && InOrder(t') == Without(InOrder(t), k)
    ensures OnlyTree(old(m.words), m.words, InOrder(t), rootp)
  {
    t' := t;
    var root := m.Read32(rootp);
    var ok, nodes := Collect(m, root, t);
    if !ok { return true, 0, t; }
    var at := 0;
    while at < |nodes|
      invariant at <= |nodes| && wanted !in nodes[..at]
    {
      if nodes[at] == wanted { break; }
      at := at + 1;
    }
    if at == |nodes| {
      assert nodes[..at] == nodes;
      return false, 0, t;
    }
    assert NodeIn(m.words, nodes[at]);
    t' := Delete(m, rootp, nodes, at, t);
    err, removed := false, wanted;
  }

  // --------------------------------------------------------------- keyed searches

  datatype Search = Exact | Previous | Next

  /** What each search answers: the equal node, else nothing, the greatest below, or the least above. */
  function Found(cmp: Compare, s: seq<nat>, key: nat, mode: Search): nat {
    var r := LowerBound(cmp, s, key);
    if r < |s| && cmp(s[r], key) == 0 then s[r]
    else match mode
      case Exact => 0
      case Previous => if r > 0 then s[r - 1] else 0
      case Next => if r < |s| then s[r] else 0
  }

  /** Position `k` is the last one not above the key. */
  ghost predicate LastNotAbove(cmp: Compare, s: seq<nat>, key: nat, k: int) {
    && -1 <= k < |s|
    && (forall i | 0 <= i <= k :: cmp(s[i], key) <= 0)
    && (forall i | k < i < |s| :: cmp(s[i], key) > 0)
  }

  /** Position `k` is the first one not below the key. */
  ghost predicate FirstNotBelow(cmp: Compare, s: seq<nat>, key: nat, k: int) {
    && 0 <= k <= |s|
    && (forall i | 0 <= i < k :: cmp(s[i], key) < 0)
    && (forall i | k <= i < |s| :: cmp(s[i], key) >= 0)
  }

  /** FindPrev is the greatest node not above the key, FindNext the least node not below it. */
  lemma FoundIsBound(cmp: Compare, s: seq<nat>, key: nat) returns (p: int, n: int)
    requires Splits(cmp, s, key)
    ensures LastNotAbove(cmp, s, key, p) && Found(cmp, s, key, Previous) == if p < 0 then 0 else s[p]
    ensures FirstNotBelow(cmp, s, key, n) && Found(cmp, s, key, Next) == if n == |s| then 0 else s[n]
  {
    n := LowerBound(cmp, s, key);
    p := if n < |s| && cmp(s[n], key) == 0 then n else n - 1;
    forall i | n < i < |s| ensures cmp(s[i], key) > 0 { assert cmp(s[n], key) >= 0; }
  }

  /** Everything left of the walk is below the key, everything right of it above. */
  ghost predicate Bracket(cmp: Compare, c: Context, key: nat) {
    && (forall x | x in Before(c) :: cmp(x, key) < 0)
    && (forall x | x in After(c) :: cmp(x, key) > 0)
  }

  /** The best answer seen so far on the way down. */
  function Candidate(c: Context, mode: Search): nat {
    match mode
    case Exact => 0
    case Previous => LastOr0(Before(c))
    case Next => HeadOr0(After(c))
  }

  /** What lies left of a node not above the key is below it, what lies right of one not below it is above. */
  lemma AroundNode(cmp: Compare, a: seq<nat>, x: nat, b: seq<nat>, key: nat)
    requires Splits(cmp, a + ([x] + b), key)
    ensures cmp(x, key) <= 0 ==> forall y | y in a :: cmp(y, key) < 0
    ensures cmp(x, key) >= 0 ==> forall y | y in b :: cmp(y, key) > 0
  {
    var s := a + ([x] + b);
    assert s[|a|] == x;
    forall y | y in a && cmp(x, key) <= 0 ensures cmp(y, key) < 0 {
      var i :| 0 <= i < |a| && a[i] == y;
      assert s[i] == y;
    }
    forall y | y in b && cmp(x, key) >= 0 ensures cmp(y, key) > 0 {
      var i :| 0 <= i < |b| && b[i] == y;
      assert s[|a| + 1 + i] == y;
    }
  }

  lemma SubtreeAround(cmp: Compare, c: Context, u: Tree, key: nat)
    requires Splits(cmp, InOrder(Plug(c, u)), key) && u.Node?
    ensures cmp(u.addr, key) <= 0 ==> forall y | y in InOrder(u.left) :: cmp(y, key) < 0
    ensures cmp(u.addr, key) >= 0 ==> forall y | y in InOrder(u.right) :: cmp(y, key) > 0
  {
    SplitAt(c, u);
    var a, b := Before(c) + InOrder(u.left), InOrder(u.right) + After(c);
    AroundNode(cmp, a, u.addr, b, key);
    hide Splits;
    assert forall y | y in InOrder(u.left) :: y in a;
    assert forall y | y in InOrder(u.right) :: y in b;
  }

  lemma StepBracket(cmp: Compare, c: Context, u: Tree, key: nat)
    requires Splits(cmp, InOrder(Plug(c, u)), key) && u.Node? && Bracket(cmp, c, key)
    ensures cmp(u.addr, key) < 0 ==> Bracket(cmp, InRight(u.left, u.addr, c), key)
    ensures cmp(u.addr, key) > 0 ==> Bracket(cmp, InLeft(u.addr, u.right, c), key)
  {
    SubtreeAround(cmp, c, u, key);
  }

  lemma BoundAt(cmp: Compare, a: seq<nat>, b: seq<nat>, key: nat)
    requires forall x | x in a :: cmp(x, key) < 0
    requires b != [] ==> cmp(b[0], key) >= 0
    ensures LowerBound(cmp, a + b, key) == |a|
  {
    LowerBoundUnique(cmp, a + b, key, |a|);
  }

  lemma HitFound(cmp: Compare, a: seq<nat>, x: nat, b: seq<nat>, key: nat, mode: Search)
    requires cmp(x, key) == 0 && forall y | y in a :: cmp(y, key) < 0
    ensures Found(cmp, a + ([x] + b), key, mode) == x
  {
    BoundAt(cmp, a, [x] + b, key);
    assert (a + ([x] + b))[|a|] == x;
  }

  /** The walk's position splits the sequence at the node it stands on. */
  lemma SplitAt(c: Context, u: Tree)
    requires u.Node?
    ensures InOrder(Plug(c, u)) == (Before(c) + InOrder(u.left)) + ([u.addr] + (InOrder(u.right) + After(c)))
  {
    PlugInOrder(c, u);
    Regroup(Before(c), InOrder(u.left), u.addr, InOrder(u.right), After(c));
  }

  lemma Regroup(a: seq<nat>, b: seq<nat>, x: nat, c: seq<nat>, d: seq<nat>)
    ensures a + (b + [x] + c) + d == (a + b) + ([x] + (c + d))
  {
  }

  lemma HitIsBound(cmp: Compare, c: Context, u: Tree, key: nat, mode: Search)
    requires Splits(cmp, InOrder(Plug(c, u)), key) && u.Node? && Bracket(cmp, c, key) && cmp(u.addr, key) == 0
    ensures Found(cmp, InOrder(Plug(c, u)), key, mode) == u.addr
  {
    SubtreeAround(cmp, c, u, key);
    SplitAt(c, u);
    hide Splits;
    hide Found;
    hide InOrder;
    HitFound(cmp, Before(c) + InOrder(u.left), u.addr, InOrder(u.right) + After(c), key, mode);
  }

  lemma AtLeaf(c: Context)
    ensures InOrder(Plug(c, Leaf)) == Before(c) + After(c)
  {
    PlugInOrder(c, Leaf);
  }

  lemma MissIsBound(cmp: Compare, c: Context, s: seq<nat>, key: nat, mode: Search)
    requires Bracket(cmp, c, key) && s == Before(c) + After(c)
    ensures Found(cmp, s, key, mode) == Candidate(c, mode)
  {
    BoundAt(cmp, Before(c), After(c), key);
  }

  /** `AVL_FindNode`, `AVL_FindPrevNodeByKey`, `AVL_FindNextNodeByKey`: one walk down the tree. */
  method Find(m: Arena, root: nat, key: nat, cmp: Compare, mode: Search, ghost t: Tree) returns (err: bool, found: nat)
    requires m.Valid() && TreeIn(m.words, t) && root == Root(t)
    requires Splits(cmp, InOrder(t), key)
    ensures !err ==> found == Found(cmp, InOrder(t), key, mode)
    ensures err ==> |InOrder(t)| > 65536
  {
    var node, candidate, guard := root, 0, 0;
    ghost var c, u := Top, t;
    HeightAtMostSize(t);
    err, found := true, 0;
    assert Bracket(cmp, c, key);
    hide Bracket;
    hide Splits;
    hide Found;
    hide InOrder;
    while node != 0
      invariant err && found == 0
      invariant Plug(c, u) == t && node == Root(u) && Linked(m.words, u, ParentOf(c))
      invariant guard <= 65536 && guard + Height(u) <= Height(t)
      invariant Bracket(cmp, c, key)
      invariant candidate == Candidate(c, mode)
      decreases u
    {
      var ok := SpanOk(m, node);
      if !ok { return; }
      var order := cmp(node, key);
      if order == 0 {
        HitIsBound(cmp, c, u, key, mode);
        return false, node;
      }
      var next := m.Read32(if order < 0 then node + 4 else node);
      candidate := if (mode == Previous && order < 0) || (mode == Next && order > 0) then node else candidate;
      StepBracket(cmp, c, u, key);
      c := if order < 0 then InRight(u.left, u.addr, c) else InLeft(u.addr, u.right, c);
      u := if order < 0 then u.right else u.left;
      node := next;
      guard := guard + 1;
      if guard > 65536 { return; }
    }
    AtLeaf(c);
    MissIsBound(cmp, c, InOrder(t), key, mode);
    return false, candidate;
  }
}
