/**
 Exec's doubly linked lists in guest memory.

 The list header is three words, `lh_Head`, `lh_Tail` and `lh_TailPred`, read as two
 overlapping sentinel nodes: one at the header (its successor is `lh_Head`, its predecessor
 the constant zero in `lh_Tail`) and one four bytes on (its successor is that same zero, its
 predecessor `lh_TailPred`).  A list with contents `nodes` is the chain
 `[list] + nodes + [list + 4]`, and every list call is an insertion into or a removal from
 that chain.
 */
module GuestList {
  import opened GuestMemory

  /** The chain of node addresses with both sentinels. */
  function Chain(list: nat, nodes: seq<nat>): seq<nat> {
    [list] + nodes + [list + 4]
  }

  /** Position `i` of the chain points forward to `i + 1`, which points back. */
  ghost predicate PairOk(w: Words, f: seq<nat>, i: nat)
    requires i + 1 < |f|
  {
    At(w, f[i]) == f[i + 1] && At(w, f[i + 1] + 4) == f[i]
  }

  /** A node of `size` bytes lies in the arena, clear of the header. */
  ghost predicate NodeFits(w: Words, list: nat, node: nat, size: nat) {
    && 0 < node && node in w && node + size - 4 in w && node + 4 in w
    && (node + size <= list || list + 12 <= node)
  }

  ghost predicate Clear(a: nat, b: nat, size: nat) { a + size <= b || b + size <= a }

  ghost predicate Shape(w: Words, list: nat, nodes: seq<nat>, size: nat) {
    && 8 <= size && 0 < list && list in w && list + 4 in w && list + 8 in w
    && (forall i | 0 <= i < |nodes| :: NodeFits(w, list, nodes[i], size))
    && (forall i, j | 0 <= i < j < |nodes| :: Clear(nodes[i], nodes[j], size))
  }

  /** The words at `list` and in the nodes spell out the list with contents `nodes`. */
  ghost predicate IsList(w: Words, list: nat, nodes: seq<nat>, size: nat) {
    && Shape(w, list, nodes, size)
    && At(w, list + 4) == 0
    && forall i: nat | i + 1 < |nodes| + 2 :: PairOk(w, Chain(list, nodes), i)
  }

  ghost predicate WordsApart(a: int, b: int) { a + 4 <= b || b + 4 <= a }

  /** The forward links are distinct words, so are the backward links, and no word is both. */
  lemma LinksApart(w: Words, list: nat, nodes: seq<nat>, size: nat, i: nat, j: nat)
    requires Shape(w, list, nodes, size) && i <= |nodes| && 1 <= j <= |nodes| + 1
    ensures var f := Chain(list, nodes);
      && WordsApart(f[i], f[j] + 4)
      && (j <= |nodes| && i != j ==> WordsApart(f[i], f[j]))
      && (1 <= i && i != j ==> WordsApart(f[i] + 4, f[j] + 4))
      && WordsApart(f[i], list + 4) && WordsApart(f[j] + 4, list + 4)
  {
    var f := Chain(list, nodes);
    assert i == 0 || (f[i] == nodes[i - 1] && NodeFits(w, list, nodes[i - 1], size));
    assert j == |nodes| + 1 || (f[j] == nodes[j - 1] && NodeFits(w, list, nodes[j - 1], size));
    if 1 <= i && j <= |nodes| && i != j {
      assert if i < j then Clear(nodes[i - 1], nodes[j - 1], size) else Clear(nodes[j - 1], nodes[i - 1], size);
    }
  }

  /** A new node's two link words are clear of every link word in the list. */
  lemma NewApart(w: Words, list: nat, nodes: seq<nat>, size: nat, node: nat, i: nat)
    requires Shape(w, list, nodes, size) && NodeFits(w, list, node, size) && i <= |nodes| + 1
    requires forall j | 0 <= j < |nodes| :: Clear(node, nodes[j], size)
    ensures var f := Chain(list, nodes);
      && WordsApart(node, f[i]) && WordsApart(node + 4, f[i])
      && WordsApart(node, f[i] + 4) && WordsApart(node + 4, f[i] + 4)
  {
    var f := Chain(list, nodes);
    assert i == 0 || i == |nodes| + 1 || (f[i] == nodes[i - 1] && Clear(node, nodes[i - 1], size));
  }

  function Insert(nodes: seq<nat>, k: nat, node: nat): seq<nat>
    requires k <= |nodes|
  {
    nodes[..k] + [node] + nodes[k..]
  }

  function Delete(nodes: seq<nat>, k: nat): seq<nat>
    requires k < |nodes|
  {
    nodes[..k] + nodes[k + 1..]
  }

  /** Every word disjoint from the listed ones is unchanged. */
  ghost predicate OnlyAt(w: Words, w': Words, touched: set<int>) {
    && w.Keys == w'.Keys
    && forall b | b in w && ApartFrom(touched, b) :: w'[b] == w[b]
  }

  ghost predicate ApartFrom(touched: set<int>, b: int) {
    forall t | t in touched :: WordsApart(t, b)
  }

  /** The four stores of an insertion between chain positions `k` and `k + 1`. */
  ghost predicate Inserted(w: Words, w': Words, list: nat, nodes: seq<nat>, k: nat, node: nat)
    requires k <= |nodes|
  {
    var p, s := Chain(list, nodes)[k], Chain(list, nodes)[k + 1];
    && At(w', node) == s && At(w', node + 4) == p && At(w', p) == node && At(w', s + 4) == node
    && OnlyAt(w, w', {node, node + 4, p, s + 4})
  }

  /** Link `i` of the new list. */
  lemma InsertPair(w: Words, w': Words, list: nat, nodes: seq<nat>, size: nat, k: nat, node: nat, i: nat)
    requires IsList(w, list, nodes, size) && NodeFits(w, list, node, size) && k <= |nodes| && i <= |nodes| + 1
    requires forall j | 0 <= j < |nodes| :: Clear(node, nodes[j], size)
    requires Inserted(w, w', list, nodes, k, node)
    ensures PairOk(w', Chain(list, Insert(nodes, k, node)), i)
  {
    var f, g := Chain(list, nodes), Chain(list, Insert(nodes, k, node));
    if i == k {
      assert g[i] == f[k] && g[i + 1] == node;
    } else if i == k + 1 {
      assert g[i] == node && g[i + 1] == f[k + 1];
    } else {
      var j := if i < k then i else i - 1;
      assert g[i] == f[j] && g[i + 1] == f[j + 1];
      PairKept(w, w', list, nodes, size, k, node, j);
    }
  }

  lemma InsertRefines(w: Words, w': Words, list: nat, nodes: seq<nat>, size: nat, k: nat, node: nat)
    requires IsList(w, list, nodes, size) && NodeFits(w, list, node, size) && k <= |nodes|
    requires forall j | 0 <= j < |nodes| :: Clear(node, nodes[j], size)
    requires Inserted(w, w', list, nodes, k, node)
    ensures IsList(w', list, Insert(nodes, k, node), size)
  {
    InsertShape(w, w', list, nodes, size, k, node);
    var f := Chain(list, nodes);
    NewApart(w, list, nodes, size, node, 0);
    LinksApart(w, list, nodes, size, k, k + 1);
    assert ApartFrom({node, node + 4, f[k], f[k + 1] + 4}, list + 4);
    assert list + 4 in w;
    hide Shape;
    hide PairOk;
    forall i: nat | i <= |nodes| + 1 ensures PairOk(w', Chain(list, Insert(nodes, k, node)), i) {
      InsertPair(w, w', list, nodes, size, k, node, i);
    }
  }

  lemma InsertShape(w: Words, w': Words, list: nat, nodes: seq<nat>, size: nat, k: nat, node: nat)
    requires Shape(w, list, nodes, size) && NodeFits(w, list, node, size) && k <= |nodes| && w.Keys == w'.Keys
    requires forall j | 0 <= j < |nodes| :: Clear(node, nodes[j], size)
    ensures Shape(w', list, Insert(nodes, k, node), size)
  {
    var r := Insert(nodes, k, node);
    forall i | 0 <= i < |r| ensures NodeFits(w', list, r[i], size) {
      assert r[i] == if i < k then nodes[i] else if i == k then node else nodes[i - 1];
    }
    forall i, j | 0 <= i < j < |r| ensures Clear(r[i], r[j], size) {
      var a, b := if i < k then i else i - 1, if j < k then j else j - 1;
      assert i == k || r[i] == nodes[a];
      assert j == k || r[j] == nodes[b];
    }
  }

  /** The two words of chain link `j` are clear of the words of every other link. */
  lemma OtherLinkApart(w: Words, list: nat, nodes: seq<nat>, size: nat, k: nat, j: nat)
    requires Shape(w, list, nodes, size) && k <= |nodes| && j <= |nodes| && j != k
    ensures var f := Chain(list, nodes);
      && WordsApart(f[k], f[j]) && WordsApart(f[k], f[j + 1] + 4)
      && WordsApart(f[k + 1] + 4, f[j]) && WordsApart(f[k + 1] + 4, f[j + 1] + 4)
  {
    LinksApart(w, list, nodes, size, j, k + 1);
    LinksApart(w, list, nodes, size, k, j + 1);
    if k > 0 { LinksApart(w, list, nodes, size, j, k); } else { LinksApart(w, list, nodes, size, k, j); }
    if k < |nodes| {
      LinksApart(w, list, nodes, size, k + 1, j + 1);
    } else {
      LinksApart(w, list, nodes, size, j + 1, k + 1);
    }
  }

  lemma LinkInWords(w: Words, list: nat, nodes: seq<nat>, size: nat, j: nat)
    requires Shape(w, list, nodes, size) && j <= |nodes|
    ensures Chain(list, nodes)[j] in w && Chain(list, nodes)[j + 1] + 4 in w
  {
    assert j == 0 || NodeFits(w, list, nodes[j - 1], size);
    assert j == |nodes| || NodeFits(w, list, nodes[j], size);
  }

  lemma PairKept(w: Words, w': Words, list: nat, nodes: seq<nat>, size: nat, k: nat, node: nat, j: nat)
    requires IsList(w, list, nodes, size) && NodeFits(w, list, node, size) && k <= |nodes|
    requires forall j | 0 <= j < |nodes| :: Clear(node, nodes[j], size)
    requires Inserted(w, w', list, nodes, k, node) && j <= |nodes| && j != k
    ensures PairOk(w', Chain(list, nodes), j)
  {
    var f := Chain(list, nodes);
    var a, b, p, s := f[j], f[j + 1] + 4, f[k], f[k + 1] + 4;
    assert PairOk(w, f, j);
    OtherLinkApart(w, list, nodes, size, k, j);
    NewApart(w, list, nodes, size, node, j);
    NewApart(w, list, nodes, size, node, j + 1);
    LinkInWords(w, list, nodes, size, j);
    assert ApartFrom({node, node + 4, p, s}, a) && ApartFrom({node, node + 4, p, s}, b);
  }

  /** The two stores that unlink `nodes[k]`. */
  ghost predicate Removed(w: Words, w': Words, list: nat, nodes: seq<nat>, k: nat)
    requires k < |nodes|
  {
    var p, s := Chain(list, nodes)[k], Chain(list, nodes)[k + 2];
    At(w', p) == s && At(w', s + 4) == p && OnlyAt(w, w', {p, s + 4})
  }

  lemma DeleteShape(w: Words, w': Words, list: nat, nodes: seq<nat>, size: nat, k: nat)
    requires Shape(w, list, nodes, size) && k < |nodes| && w.Keys == w'.Keys
    ensures Shape(w', list, Delete(nodes, k), size)
  {
    var r := Delete(nodes, k);
    forall i | 0 <= i < |r| ensures NodeFits(w', list, r[i], size) {
      assert r[i] == nodes[if i < k then i else i + 1];
    }
    forall i, j | 0 <= i < j < |r| ensures Clear(r[i], r[j], size) {
      var a, b := if i < k then i else i + 1, if j < k then j else j + 1;
      assert r[i] == nodes[a] && r[j] == nodes[b];
    }
  }

  lemma RemovePairKept(w: Words, w': Words, list: nat, nodes: seq<nat>, size: nat, k: nat, j: nat)
    requires IsList(w, list, nodes, size) && k < |nodes| && Removed(w, w', list, nodes, k)
    requires j <= |nodes| && j != k && j != k + 1
    ensures PairOk(w', Chain(list, nodes), j)
  {
    var f := Chain(list, nodes);
    var a, b, p, s := f[j], f[j + 1] + 4, f[k], f[k + 2] + 4;
    assert PairOk(w, f, j);
    OtherLinkApart(w, list, nodes, size, k, j);
    OtherLinkApart(w, list, nodes, size, k + 1, j);
    LinkInWords(w, list, nodes, size, j);
    assert ApartFrom({p, s}, a) && ApartFrom({p, s}, b);
  }

  lemma RemoveRefines(w: Words, w': Words, list: nat, nodes: seq<nat>, size: nat, k: nat)
    requires IsList(w, list, nodes, size) && k < |nodes| && Removed(w, w', list, nodes, k)
    ensures IsList(w', list, Delete(nodes, k), size)
  {
    DeleteShape(w, w', list, nodes, size, k);
    var r := Delete(nodes, k);
    var f, g := Chain(list, nodes), Chain(list, r);
    LinksApart(w, list, nodes, size, k, k + 2);
    assert ApartFrom({f[k], f[k + 2] + 4}, list + 4);
    forall i: nat | i + 1 < |g| ensures PairOk(w', g, i) {
      if i == k {
        assert g[i] == f[k] && g[i + 1] == f[k + 2];
      } else {
        var j := if i < k then i else i + 1;
        assert g[i] == f[j] && g[i + 1] == f[j + 1];
        RemovePairKept(w, w', list, nodes, size, k, j);
      }
    }
  }

  /** A well-formed chain determines its contents: no other sequence fits the same memory. */
  lemma {:induction false} ContentsUnique(w: Words, list: nat, a: seq<nat>, b: seq<nat>, size: nat, i: nat)
    requires IsList(w, list, a, size) && IsList(w, list, b, size) && i <= |a| && i <= |b| && a[..i] == b[..i]
    ensures a == b
    decreases |a| - i
  {
    var f, g := Chain(list, a), Chain(list, b);
    assert PairOk(w, f, i) && PairOk(w, g, i);
    assert i == 0 || (f[i] == a[..i][i - 1] && g[i] == b[..i][i - 1]);
    assert f[i + 1] == g[i + 1];
    if i < |a| { assert NodeFits(w, list, a[i], size) && f[i + 1] == a[i]; }
    if i < |b| { assert NodeFits(w, list, b[i], size) && g[i + 1] == b[i]; }
    if i < |a| && i < |b| {
      assert a[..i + 1] == a[..i] + [a[i]] && b[..i + 1] == b[..i] + [b[i]];
      ContentsUnique(w, list, a, b, size, i + 1);
    }
  }

  /** Before an insertion at `k`: what the loads return, and that the four stores do not interfere. */
  lemma InsertFacts(w: Words, list: nat, nodes: seq<nat>, size: nat, k: nat, node: nat)
    requires IsList(w, list, nodes, size) && NodeFits(w, list, node, size) && k <= |nodes|
    requires forall j | 0 <= j < |nodes| :: Clear(node, nodes[j], size)
    ensures var p, s := Chain(list, nodes)[k], Chain(list, nodes)[k + 1];
      && At(w, p) == s && At(w, s + 4) == p && p in w && s + 4 in w
      && WordsApart(node, p) && WordsApart(node, s + 4) && WordsApart(node + 4, p) && WordsApart(node + 4, s + 4)
      && WordsApart(p, s + 4)
  {
    var f := Chain(list, nodes);
    assert PairOk(w, f, k);
    NewApart(w, list, nodes, size, node, k);
    NewApart(w, list, nodes, size, node, k + 1);
    LinksApart(w, list, nodes, size, k, k + 1);
    assert k == 0 || NodeFits(w, list, nodes[k - 1], size);
    assert k == |nodes| || NodeFits(w, list, nodes[k], size);
  }

  // -------------------------------------------------------------- the list calls

  ghost predicate SameElsewhere(before: seq<byte>, after: seq<byte>, origin: nat, touched: set<int>) {
    && |before| == |after|
    && forall i | 0 <= i < |before| && (forall t | t in touched :: !(t <= origin + i < t + 4)) :: after[i] == before[i]
  }

  /** `NewMinList` / NEWLIST: an empty list. */
  method NewMinList(m: Arena, list: nat)
    requires m.Valid() && (list == 0 || (list in m.words && list + 4 in m.words && list + 8 in m.words))
    modifies m`words, m.ram
    ensures m.Valid()
    ensures list != 0 ==> IsList(m.words, list, [], 8)
    ensures SameElsewhere(old(m.ram[..]), m.ram[..], m.origin, if list == 0 then {} else {list, list + 4, list + 8})
  {
    if list == 0 { return; }
    m.Write32(list, list + 4);
    m.Write32(list + 4, 0);
    m.Write32(list + 8, list);
    assert forall i: nat | i + 1 < 2 :: PairOk(m.words, Chain(list, []), i);
  }

  /** The four link words of a new node between `pred` and `succ`, in the order of AddTail and Enqueue. */
  method Stitch(m: Arena, node: nat, succ: nat, pred: nat)
    requires m.Valid() && node in m.words && node + 4 in m.words && pred in m.words && succ + 4 in m.words
    requires WordsApart(node, pred) && WordsApart(node, succ + 4) && WordsApart(node + 4, pred)
    requires WordsApart(node + 4, succ + 4)
    requires WordsApart(pred, succ + 4)
    modifies m`words, m.ram
    ensures m.Valid() && Stitched(old(m.words), m.words, node, succ, pred)
    ensures SameElsewhere(old(m.ram[..]), m.ram[..], m.origin, {node, node + 4, pred, succ + 4})
  {
    m.Write32(node, succ);
    m.Write32(node + 4, pred);
    m.Write32(pred, node);
    m.Write32(succ + 4, node);
  }

  /** The same four words, in the order of AddHead and Insert. */
  method StitchAfter(m: Arena, node: nat, succ: nat, pred: nat)
    requires m.Valid() && node in m.words && node + 4 in m.words && pred in m.words && succ + 4 in m.words
    requires WordsApart(node, pred) && WordsApart(node, succ + 4) && WordsApart(node + 4, pred)
    requires WordsApart(node + 4, succ + 4)
    requires WordsApart(pred, succ + 4)
    modifies m`words, m.ram
    ensures m.Valid() && Stitched(old(m.words), m.words, node, succ, pred)
    ensures SameElsewhere(old(m.ram[..]), m.ram[..], m.origin, {node, node + 4, pred, succ + 4})
  {
    m.Write32(node, succ);
    m.Write32(node + 4, pred);
    m.Write32(succ + 4, node);
    m.Write32(pred, node);
  }

  ghost predicate Stitched(w: Words, w': Words, node: int, succ: int, pred: int) {
    && At(w', node) == succ && At(w', node + 4) == pred && At(w', pred) == node && At(w', succ + 4) == node
    && OnlyAt(w, w', {node, node + 4, pred, succ + 4})
  }

  /** AddHead. */
  method AddHead(m: Arena, list: nat, node: nat, ghost nodes: seq<nat>, ghost size: nat)
    requires m.Valid() && IsList(m.words, list, nodes, size) && NodeFits(m.words, list, node, size)
    requires forall j | 0 <= j < |nodes| :: Clear(node, nodes[j], size)
    modifies m`words, m.ram
    ensures m.Valid() && IsList(m.words, list, [node] + nodes, size)
    ensures SameElsewhere(old(m.ram[..]), m.ram[..], m.origin, {node, node + 4, list, Chain(list, nodes)[1] + 4})
  {
    ghost var w := m.words;
    InsertFacts(w, list, nodes, size, 0, node);
    var head := m.Read32(list);
    StitchAfter(m, node, head, list);
    InsertRefines(w, m.words, list, nodes, size, 0, node);
    assert Insert(nodes, 0, node) == [node] + nodes;
  }

  /** AddTail. */
  method AddTail(m: Arena, list: nat, node: nat, ghost nodes: seq<nat>, ghost size: nat)
    requires m.Valid() && IsList(m.words, list, nodes, size) && NodeFits(m.words, list, node, size)
    requires forall j | 0 <= j < |nodes| :: Clear(node, nodes[j], size)
    modifies m`words, m.ram
    ensures m.Valid() && IsList(m.words, list, nodes + [node], size)
    ensures SameElsewhere(old(m.ram[..]), m.ram[..], m.origin, {node, node + 4, Chain(list, nodes)[|nodes|], list + 8})
  {
    ghost var w := m.words;
    InsertFacts(w, list, nodes, size, |nodes|, node);
    var tailpred := m.Read32(list + 8);
    Stitch(m, node, list + 4, tailpred);
    InsertRefines(w, m.words, list, nodes, size, |nodes|, node);
    assert Insert(nodes, |nodes|, node) == nodes + [node];
  }

  /** Insert after `pred`; NULL or the header as `pred` means at the head. */
  method InsertAfter(m: Arena, list: nat, node: nat, pred: nat, ghost nodes: seq<nat>, ghost size: nat, ghost k: nat)
    requires m.Valid() && IsList(m.words, list, nodes, size) && NodeFits(m.words, list, node, size)
    requires forall j | 0 <= j < |nodes| :: Clear(node, nodes[j], size)
    requires k <= |nodes| && (if k == 0 then pred == 0 || pred == list else pred == nodes[k - 1])
    modifies m`words, m.ram
    ensures m.Valid() && IsList(m.words, list, Insert(nodes, k, node), size)
    ensures SameElsewhere(old(m.ram[..]), m.ram[..], m.origin,
                          {node, node + 4, Chain(list, nodes)[k], Chain(list, nodes)[k + 1] + 4})
  {
    if k > 0 { assert NodeFits(m.words, list, nodes[k - 1], size); }
    if pred == 0 || pred == list {
      AddHead(m, list, node, nodes, size);
      assert Insert(nodes, 0, node) == [node] + nodes;
    } else {
      LinkAfter(m, list, node, pred, nodes, size, k);
    }
  }

  method LinkAfter(m: Arena, list: nat, node: nat, pred: nat, ghost nodes: seq<nat>, ghost size: nat, ghost k: nat)
    requires m.Valid() && IsList(m.words, list, nodes, size) && NodeFits(m.words, list, node, size)
    requires forall j | 0 <= j < |nodes| :: Clear(node, nodes[j], size)
    requires k <= |nodes| && pred == Chain(list, nodes)[k]
    modifies m`words, m.ram
    ensures m.Valid() && IsList(m.words, list, Insert(nodes, k, node), size)
    ensures SameElsewhere(old(m.ram[..]), m.ram[..], m.origin,
                          {node, node + 4, Chain(list, nodes)[k], Chain(list, nodes)[k + 1] + 4})
  {
    ghost var w := m.words;
    InsertFacts(w, list, nodes, size, k, node);
    var succ := m.Read32(pred);
    StitchAfter(m, node, succ, pred);
    InsertRefines(w, m.words, list, nodes, size, k, node);
  }

  lemma RemoveFacts(w: Words, list: nat, nodes: seq<nat>, size: nat, k: nat)
    requires IsList(w, list, nodes, size) && k < |nodes|
    ensures var f := Chain(list, nodes);
      && f[k + 1] == nodes[k] && At(w, f[k]) == nodes[k] && At(w, f[k + 2] + 4) == nodes[k]
      && At(w, nodes[k]) == f[k + 2] && At(w, nodes[k] + 4) == f[k]
      && f[k] in w && f[k + 2] + 4 in w && WordsApart(f[k], f[k + 2] + 4)
      && 0 < f[k] && 0 < f[k + 2]
  {
    var f := Chain(list, nodes);
    assert PairOk(w, f, k) && PairOk(w, f, k + 1);
    LinksApart(w, list, nodes, size, k, k + 2);
    LinkInWords(w, list, nodes, size, k);
    LinkInWords(w, list, nodes, size, k + 1);
    assert k == 0 || NodeFits(w, list, nodes[k - 1], size);
    assert k + 1 == |nodes| || NodeFits(w, list, nodes[k + 1], size);
  }

  /** Remove: the node is wherever it is in some list. */
  method Remove(m: Arena, node: nat, ghost list: nat, ghost nodes: seq<nat>, ghost size: nat, ghost k: nat)
    requires m.Valid() && IsList(m.words, list, nodes, size) && k < |nodes| && nodes[k] == node
    modifies m`words, m.ram
    ensures m.Valid() && IsList(m.words, list, Delete(nodes, k), size)
    ensures SameElsewhere(old(m.ram[..]), m.ram[..], m.origin, {Chain(list, nodes)[k], Chain(list, nodes)[k + 2] + 4})
  {
    ghost var w := m.words;
    RemoveFacts(w, list, nodes, size, k);
    var succ := m.Read32(node);
    var pred := m.Read32(node + 4);
    m.Write32(pred, succ);
    m.Write32(succ + 4, pred);
    RemoveRefines(w, m.words, list, nodes, size, k);
  }

  /** What an empty list's sentinels hold. */
  lemma EmptyFacts(w: Words, list: nat, nodes: seq<nat>, size: nat)
    requires IsList(w, list, nodes, size)
    ensures At(w, list) == Chain(list, nodes)[1] && At(w, list + 8) == Chain(list, nodes)[|nodes|]
    ensures At(w, list) != list
    ensures nodes == [] ==> At(w, list) == list + 4 && At(w, list + 8) == list && At(w, list + 4) == 0
  {
    assert PairOk(w, Chain(list, nodes), 0) && PairOk(w, Chain(list, nodes), |nodes|);
    if nodes != [] { assert NodeFits(w, list, nodes[0], size); }
  }

  /** RemHead: the first node, NULL when there is none, and an error for a header that points at itself. */
  method RemHead(m: Arena, list: nat, ghost nodes: seq<nat>, ghost size: nat) returns (corrupt: bool, node: nat)
    requires m.Valid() && (At(m.words, list) == list || IsList(m.words, list, nodes, size))
    modifies m`words, m.ram
    ensures m.Valid()
    ensures corrupt <==> At(old(m.words), list) == list
    ensures corrupt || nodes == [] ==> m.words == old(m.words) && m.ram[..] == old(m.ram[..]) && node == 0
    ensures !corrupt && nodes != [] ==> node == nodes[0] && IsList(m.words, list, nodes[1..], size)
    ensures !corrupt && nodes != [] ==>
              SameElsewhere(old(m.ram[..]), m.ram[..], m.origin, {list, Chain(list, nodes)[2] + 4})
  {
    node := m.Read32(list);
    if node == list { return true, 0; }
    EmptyFacts(m.words, list, nodes, size);
    corrupt := false;
    NextFacts(m.words, list, nodes, size, 0);
    var succ := m.Read32(node);
    if succ == 0 { node := 0; return; }
    UnlinkFirst(m, list, succ, nodes, size);
  }

  method UnlinkFirst(m: Arena, list: nat, succ: nat, ghost nodes: seq<nat>, ghost size: nat)
    requires m.Valid() && IsList(m.words, list, nodes, size) && nodes != [] && succ == At(m.words, nodes[0])
    modifies m`words, m.ram
    ensures m.Valid() && IsList(m.words, list, nodes[1..], size)
    ensures SameElsewhere(old(m.ram[..]), m.ram[..], m.origin, {list, Chain(list, nodes)[2] + 4})
  {
    ghost var w := m.words;
    RemoveFacts(w, list, nodes, size, 0);
    m.Write32(list, succ);
    m.Write32(succ + 4, list);
    RemoveRefines(w, m.words, list, nodes, size, 0);
    assert Delete(nodes, 0) == nodes[1..];
  }

  /** RemTail: the last node, NULL when there is none. */
  method RemTail(m: Arena, list: nat, ghost nodes: seq<nat>, ghost size: nat) returns (node: nat)
    requires m.Valid() && IsList(m.words, list, nodes, size)
    modifies m`words, m.ram
    ensures m.Valid()
    ensures nodes == [] ==> m.words == old(m.words) && m.ram[..] == old(m.ram[..]) && node == 0
    ensures nodes != [] ==> node == nodes[|nodes| - 1] && IsList(m.words, list, nodes[..|nodes| - 1], size)
    ensures nodes != [] ==>
              SameElsewhere(old(m.ram[..]), m.ram[..], m.origin, {list + 8, Chain(list, nodes)[|nodes| - 1]})
  {
    EmptyFacts(m.words, list, nodes, size);
    if nodes != [] { RemoveFacts(m.words, list, nodes, size, |nodes| - 1); }
    node := m.Read32(list + 8);
    var pred := m.Read32(node + 4);
    if pred == 0 { node := 0; return; }
    UnlinkLast(m, list, pred, nodes, size);
  }

  method UnlinkLast(m: Arena, list: nat, pred: nat, ghost nodes: seq<nat>, ghost size: nat)
    requires m.Valid() && IsList(m.words, list, nodes, size) && nodes != []
    requires pred == At(m.words, nodes[|nodes| - 1] + 4)
    modifies m`words, m.ram
    ensures m.Valid() && IsList(m.words, list, nodes[..|nodes| - 1], size)
    ensures SameElsewhere(old(m.ram[..]), m.ram[..], m.origin, {list + 8, Chain(list, nodes)[|nodes| - 1]})
  {
    ghost var w := m.words;
    RemoveFacts(w, list, nodes, size, |nodes| - 1);
    m.Write32(list + 8, pred);
    m.Write32(pred, list + 4);
    RemoveRefines(w, m.words, list, nodes, size, |nodes| - 1);
    assert Delete(nodes, |nodes| - 1) == nodes[..|nodes| - 1];
  }

  // ---------------------------------------------------------- priority insertion

  /** A byte as the `int8_t` it is cast to. */
  function Signed(b: byte): (p: int)
    ensures -128 <= p < 128 && (p - b as int) % 256 == 0
  {
    if b < 128 then b as int else b as int - 256
  }

  /** The order of priority bytes: 0x80..0xFF below 0x00..0x7F, and within each half by value. */
  predicate Below(a: byte, b: byte) {
    if (a < 0x80) == (b < 0x80) then a < b else b < 0x80
  }

  lemma SignedOrder(a: byte, b: byte)
    ensures Signed(a) < Signed(b) <==> Below(a, b)
  {
  }

  /** `ln_Pri`, the signed byte at offset 9. */
  function Priority(ram: seq<byte>, origin: nat, node: nat): int {
    if origin <= node + 9 < origin + |ram| then Signed(ram[node + 9 - origin]) else 0
  }

  function PriorityByte(ram: seq<byte>, origin: nat, node: nat): byte {
    if origin <= node + 9 < origin + |ram| then ram[node + 9 - origin] else 0
  }

  /**
   Where `Enqueue` puts a node, on the bytes: behind every byte that is not below its own, in
   front of one that is.
   */
  ghost predicate EnqueueAtByte(ram: seq<byte>, origin: nat, nodes: seq<nat>, node: nat, k: nat) {
    && k <= |nodes|
    && (forall i | 0 <= i < k :: !Below(PriorityByte(ram, origin, nodes[i]), PriorityByte(ram, origin, node)))
    && (k < |nodes| ==> Below(PriorityByte(ram, origin, nodes[k]), PriorityByte(ram, origin, node)))
  }

  lemma EnqueueOnBytes(ram: seq<byte>, origin: nat, nodes: seq<nat>, node: nat, k: nat)
    requires EnqueueAt(Priorities(ram, origin, nodes), Priority(ram, origin, node), k)
    ensures EnqueueAtByte(ram, origin, nodes, node, k)
  {
    forall i | 0 <= i < |nodes|
      ensures Priority(ram, origin, nodes[i]) < Priority(ram, origin, node)
              <==> Below(PriorityByte(ram, origin, nodes[i]), PriorityByte(ram, origin, node))
    {
      SignedOrder(PriorityByte(ram, origin, nodes[i]), PriorityByte(ram, origin, node));
    }
  }

  /** Where `Enqueue` puts a node of priority `pri`: in front of the first strictly lower one. */
  ghost predicate EnqueueAt(pris: seq<int>, pri: int, k: nat) {
    && k <= |pris|
    && (forall i | 0 <= i < k :: pri <= pris[i])
    && (k < |pris| ==> pris[k] < pri)
  }

  ghost predicate Descending(pris: seq<int>) {
    forall i, j | 0 <= i < j < |pris| :: pris[i] >= pris[j]
  }

  /**
   On a descending list the insertion is stable: the result is descending, every node of the
   same priority comes before the new one and every node after it has a lower priority.
   */
  lemma EnqueueIsStable(pris: seq<int>, pri: int, k: nat)
    requires Descending(pris) && EnqueueAt(pris, pri, k)
    ensures Descending(pris[..k] + [pri] + pris[k..])
    ensures forall i | 0 <= i < |pris| :: pri <= pris[i] <==> i < k
  {
    var r := pris[..k] + [pri] + pris[k..];
    forall i | k <= i < |pris| ensures pris[i] < pri { assert pris[i] <= pris[k]; }
    forall i, j | 0 <= i < j < |r| ensures r[i] >= r[j] {
      var a, b := if i < k then i else i - 1, if j < k then j else j - 1;
      assert i == k || r[i] == pris[a];
      assert j == k || r[j] == pris[b];
    }
  }

  function Priorities(ram: seq<byte>, origin: nat, nodes: seq<nat>): (p: seq<int>)
    ensures |p| == |nodes|
    ensures forall i | 0 <= i < |nodes| :: p[i] == Priority(ram, origin, nodes[i])
  {
    seq(|nodes|, i requires 0 <= i < |nodes| => Priority(ram, origin, nodes[i]))
  }

  /** The priority byte of a listed or new node is in none of the four words an insertion stores. */
  lemma PriorityKept(w: Words, list: nat, nodes: seq<nat>, size: nat, k: nat, node: nat, n: nat, ram: seq<byte>,
                     ram': seq<byte>, origin: nat)
    requires IsList(w, list, nodes, size) && NodeFits(w, list, node, size) && 10 <= size && k <= |nodes|
    requires forall j | 0 <= j < |nodes| :: Clear(node, nodes[j], size)
    requires SameElsewhere(ram, ram', origin, {node, node + 4, Chain(list, nodes)[k], Chain(list, nodes)[k + 1] + 4})
    requires n == node || n in nodes
    ensures Priority(ram', origin, n) == Priority(ram, origin, n)
  {
    var p, s := Chain(list, nodes)[k], Chain(list, nodes)[k + 1];
    assert NodeFits(w, list, n, size);
    if k > 0 { assert p == nodes[k - 1] && NodeFits(w, list, p, size); }
    if k < |nodes| { assert s == nodes[k] && NodeFits(w, list, s, size); }
    if n != node {
      var i :| 0 <= i < |nodes| && nodes[i] == n;
      assert k > 0 && i < k - 1 ==> Clear(nodes[i], nodes[k - 1], size);
      assert k > 0 && k - 1 < i ==> Clear(nodes[k - 1], nodes[i], size);
      assert k < |nodes| && i < k ==> Clear(nodes[i], nodes[k], size);
      assert k < i ==> Clear(nodes[k], nodes[i], size);
    }
  }

  /** The walk of `Enqueue`: the first node of lower priority, or the tail sentinel. */
  method FindLower(m: Arena, list: nat, pri: int, ghost nodes: seq<nat>, ghost size: nat)
    returns (next: nat, ghost k: nat)
    requires m.Valid() && IsList(m.words, list, nodes, size) && 10 <= size
    ensures EnqueueAt(Priorities(m.ram[..], m.origin, nodes), pri, k)
    ensures next == Chain(list, nodes)[k + 1]
  {
    EmptyFacts(m.words, list, nodes, size);
    next := m.Read32(list);
    k := 0;
    NextFacts(m.words, list, nodes, size, 0);
    var succ := m.Read32(next);
    while succ != 0
      invariant k <= |nodes| && next == Chain(list, nodes)[k + 1] && succ == At(m.words, next)
      invariant succ == 0 <==> k == |nodes|
      invariant forall i | 0 <= i < k :: pri <= Priority(m.ram[..], m.origin, nodes[i])
      decreases |nodes| - k
    {
      var low := IsLower(m, list, next, pri, nodes, size, k);
      if low { break; }
      next := succ;
      NextFacts(m.words, list, nodes, size, k);
      k := k + 1;
      NextFacts(m.words, list, nodes, size, k);
      succ := m.Read32(next);
    }
  }

  method IsLower(m: Arena, list: nat, next: nat, pri: int, ghost nodes: seq<nat>, ghost size: nat, ghost k: nat)
    returns (low: bool)
    requires m.Valid() && IsList(m.words, list, nodes, size) && 10 <= size && k < |nodes| && next == nodes[k]
    ensures low <==> Priority(m.ram[..], m.origin, nodes[k]) < pri
  {
    assert NodeFits(m.words, list, nodes[k], size);
    low := Signed(m.ram[next + 9 - m.origin]) < pri;
  }

  lemma NextFacts(w: Words, list: nat, nodes: seq<nat>, size: nat, k: nat)
    requires IsList(w, list, nodes, size) && k <= |nodes|
    ensures var f := Chain(list, nodes);
      && (At(w, f[k + 1]) == 0 <==> k == |nodes|)
      && (k < |nodes| ==> At(w, f[k + 1]) == f[k + 2])
  {
    if k < |nodes| {
      RemoveFacts(w, list, nodes, size, k);
    }
  }

  /** The insertion in memory: every priority stays, so a descending list stays descending. */
  lemma EnqueueKeepsOrder(w: Words, list: nat, nodes: seq<nat>, size: nat, k: nat, node: nat, ram: seq<byte>,
                          ram': seq<byte>, origin: nat)
    requires IsList(w, list, nodes, size) && NodeFits(w, list, node, size) && 10 <= size && k <= |nodes|
    requires forall j | 0 <= j < |nodes| :: Clear(node, nodes[j], size)
    requires SameElsewhere(ram, ram', origin, {node, node + 4, Chain(list, nodes)[k], Chain(list, nodes)[k + 1] + 4})
    requires EnqueueAt(Priorities(ram, origin, nodes), Priority(ram, origin, node), k)
    ensures forall n | n == node || n in nodes :: Priority(ram', origin, n) == Priority(ram, origin, n)
    ensures Descending(Priorities(ram, origin, nodes)) ==> Descending(Priorities(ram', origin, Insert(nodes, k, node)))
  {
    hide IsList;
    hide SameElsewhere;
    hide Chain;
    hide Priority;
    forall n | n == node || n in nodes ensures Priority(ram', origin, n) == Priority(ram, origin, n) {
      PriorityKept(w, list, nodes, size, k, node, n, ram, ram', origin);
    }
    var was, pri := Priorities(ram, origin, nodes), Priority(ram, origin, node);
    assert Priorities(ram', origin, Insert(nodes, k, node)) == was[..k] + [pri] + was[k..];
    hide Descending;
    hide EnqueueAt;
    if Descending(was) { EnqueueIsStable(was, pri, k); }
  }

  /** Enqueue: insertion by descending signed priority, which keeps a descending list descending. */
  method Enqueue(m: Arena, list: nat, node: nat, ghost nodes: seq<nat>, ghost size: nat) returns (ghost k: nat)
    requires m.Valid() && IsList(m.words, list, nodes, size) && NodeFits(m.words, list, node, size) && 10 <= size
    requires forall j | 0 <= j < |nodes| :: Clear(node, nodes[j], size)
    modifies m`words, m.ram
    ensures m.Valid() && k <= |nodes| && IsList(m.words, list, Insert(nodes, k, node), size)
    ensures EnqueueAt(Priorities(old(m.ram[..]), m.origin, nodes), Priority(old(m.ram[..]), m.origin, node), k)
    ensures EnqueueAtByte(old(m.ram[..]), m.origin, nodes, node, k)
    ensures forall n | n == node || n in nodes ::
      Priority(m.ram[..], m.origin, n) == Priority(old(m.ram[..]), m.origin, n)
    ensures Descending(Priorities(old(m.ram[..]), m.origin, nodes)) ==>
              Descending(Priorities(m.ram[..], m.origin, Insert(nodes, k, node)))
    ensures SameElsewhere(old(m.ram[..]), m.ram[..], m.origin,
                          {node, node + 4, Chain(list, nodes)[k], Chain(list, nodes)[k + 1] + 4})
  {
    ghost var w, ram := m.words, m.ram[..];
    var pri := Signed(m.ram[node + 9 - m.origin]);
    var next;
    next, k := FindLower(m, list, pri, nodes, size);
    LinkBefore(m, list, node, next, nodes, size, k);
    EnqueueKeepsOrder(w, list, nodes, size, k, node, ram, m.ram[..], m.origin);
    EnqueueOnBytes(ram, m.origin, nodes, node, k);
  }

  method LinkBefore(m: Arena, list: nat, node: nat, next: nat, ghost nodes: seq<nat>, ghost size: nat, ghost k: nat)
    requires m.Valid() && IsList(m.words, list, nodes, size) && NodeFits(m.words, list, node, size)
    requires forall j | 0 <= j < |nodes| :: Clear(node, nodes[j], size)
    requires k <= |nodes| && next == Chain(list, nodes)[k + 1]
    modifies m`words, m.ram
    ensures m.Valid() && IsList(m.words, list, Insert(nodes, k, node), size)
    ensures SameElsewhere(old(m.ram[..]), m.ram[..], m.origin,
                          {node, node + 4, Chain(list, nodes)[k], Chain(list, nodes)[k + 1] + 4})
  {
    ghost var w := m.words;
    InsertFacts(w, list, nodes, size, k, node);
    var pred := m.Read32(next + 4);
    Stitch(m, node, next, pred);
    InsertRefines(w, m.words, list, nodes, size, k, node);
  }
}
