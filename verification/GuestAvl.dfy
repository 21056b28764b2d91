/**
 Exec's AVL trees in guest memory.  A node is four words: left, right, parent and balance.

 `Linked` ties the words to a tree; `Balanced` says the fourth word is right height minus left
 height.  Every insertion and removal collects the in-order sequence, edits it and rebuilds
 the tree, so the calls are specified on that sequence.
 */
module GuestAvl {
  import opened GuestMemory
  import opened Tree

  /** The words of the tree, with `parent` above its root. */
  ghost predicate Linked(w: Words, t: Tree, parent: nat) {
    t.Node? ==>
      && t.addr in w && t.addr + 4 in w && t.addr + 8 in w && t.addr + 12 in w && 0 < t.addr
      && w[t.addr] == Root(t.left) && w[t.addr + 4] == Root(t.right) && w[t.addr + 8] == parent
      && Linked(w, t.left, t.addr) && Linked(w, t.right, t.addr)
  }

  /** A signed difference of heights as the 32-bit word the code stores. */
  function TwosComplement(x: int): (w: nat)
    ensures w < 0x1_0000_0000 && (w - x) % 0x1_0000_0000 == 0
  {
    x % 0x1_0000_0000
  }

  ghost predicate Balanced(w: Words, t: Tree) {
    t.Node? ==>
      && At(w, t.addr + 12) == TwosComplement(Height(t.right) - Height(t.left))
      && Balanced(w, t.left) && Balanced(w, t.right)
  }

  /** The 16-byte nodes do not overlap. */
  ghost predicate Apart(s: seq<nat>) {
    forall i, j | 0 <= i < j < |s| :: s[i] + 16 <= s[j] || s[j] + 16 <= s[i]
  }

  ghost predicate NodeIn(w: Words, a: nat) {
    0 < a && a in w && a + 4 in w && a + 8 in w && a + 12 in w
  }

  ghost predicate Nodes(w: Words, s: seq<nat>) {
    Apart(s) && forall i | 0 <= i < |s| :: NodeIn(w, s[i])
  }

  /** The word at `b` is none of the words of the nodes in `s`. */
  ghost predicate Outside(s: seq<nat>, b: int) {
    forall i | 0 <= i < |s| :: OutsideNode(s[i], b)
  }

  ghost predicate OutsideNode(a: nat, b: int) { b + 4 <= a || a + 16 <= b }

  /** Words outside the nodes of `s` are as they were. */
  ghost predicate OnlyNodes(w: Words, w': Words, s: seq<nat>) {
    && w.Keys == w'.Keys
    && forall b | b in w && Outside(s, b) :: w'[b] == w[b]
  }

  /** The words of every node in `s` are the same in both memories. */
  ghost predicate SameNodes(w: Words, w': Words, s: seq<nat>) {
    && w.Keys == w'.Keys
    && forall i | 0 <= i < |s| :: SameNode(w, w', s[i])
  }

  ghost predicate SameNode(w: Words, w': Words, a: nat) {
    && At(w', a) == At(w, a) && At(w', a + 4) == At(w, a + 4)
    && At(w', a + 8) == At(w, a + 8) && At(w', a + 12) == At(w, a + 12)
  }

  /** A tree survives any change that leaves its own nodes alone. */
  lemma {:induction false} LinkedKept(w: Words, w': Words, t: Tree, parent: nat)
    requires Linked(w, t, parent) && Balanced(w, t) && SameNodes(w, w', InOrder(t))
    ensures Linked(w', t, parent) && Balanced(w', t)
  {
    if t.Node? {
      var s, l, r := InOrder(t), InOrder(t.left), InOrder(t.right);
      assert s[|l|] == t.addr && SameNode(w, w', t.addr);
      forall i | 0 <= i < |l| ensures SameNode(w, w', l[i]) { assert s[i] == l[i]; }
      forall i | 0 <= i < |r| ensures SameNode(w, w', r[i]) { assert s[|l| + 1 + i] == r[i]; }
      LinkedKept(w, w', t.left, t.addr);
      LinkedKept(w, w', t.right, t.addr);
    }
  }

  /** Rewriting only the nodes of `s` leaves nodes clear of them alone. */
  lemma OthersSame(w: Words, w': Words, s: seq<nat>, others: seq<nat>)
    requires OnlyNodes(w, w', s) && Nodes(w, others)
    requires forall i, j | 0 <= i < |s| && 0 <= j < |others| :: s[i] + 16 <= others[j] || others[j] + 16 <= s[i]
    ensures SameNodes(w, w', others)
  {
    forall j | 0 <= j < |others| ensures SameNode(w, w', others[j]) {
      var a := others[j];
      assert NodeIn(w, a);
      assert Outside(s, a) && Outside(s, a + 4) && Outside(s, a + 8) && Outside(s, a + 12);
    }
  }

  // -------------------------------------------------------------------- rebuild

  /** The node at the middle gets its four words after both halves are built. */
  ghost predicate NodeWritten(w: Words, w': Words, a: nat, left: nat, right: nat, parent: nat, balance: nat) {
    && At(w', a) == left && At(w', a + 4) == right && At(w', a + 8) == parent && At(w', a + 12) == balance
    && w.Keys == w'.Keys
    && forall b | b in w && OutsideNode(a, b) :: w'[b] == w[b]
  }

  method WriteNode(m: Arena, a: nat, left: nat, right: nat, parent: nat, balance: int)
    requires m.Valid() && NodeIn(m.words, a)
    requires left < 0x1_0000_0000 && right < 0x1_0000_0000 && parent < 0x1_0000_0000
    modifies m`words, m.ram
    ensures m.Valid() && NodeWritten(old(m.words), m.words, a, left, right, parent, TwosComplement(balance))
  {
    m.Write32(a, left);
    m.Write32(a + 4, right);
    m.Write32(a + 8, parent);
    m.Write32(a + 12, TwosComplement(balance));
  }

  lemma SliceNodes(w: Words, s: seq<nat>, lo: nat, hi: nat)
    requires Nodes(w, s) && lo <= hi <= |s|
    ensures Nodes(w, s[lo..hi])
  {
    var r := s[lo..hi];
    forall i | 0 <= i < |r| ensures NodeIn(w, r[i]) { assert r[i] == s[lo + i]; }
    forall i, j | 0 <= i < j < |r| ensures r[i] + 16 <= r[j] || r[j] + 16 <= r[i] {
      assert r[i] == s[lo + i] && r[j] == s[lo + j];
    }
  }

  lemma OutsideSlice(s: seq<nat>, lo: nat, hi: nat, lo': nat, hi': nat, b: int)
    requires lo <= lo' <= hi' <= hi <= |s| && Outside(s[lo..hi], b)
    ensures Outside(s[lo'..hi'], b)
  {
    var r := s[lo'..hi'];
    forall i | 0 <= i < |r| ensures OutsideNode(r[i], b) {
      assert r[i] == s[lo..hi][lo' + i - lo];
    }
  }

  /** Two disjoint ranges of the node list do not disturb each other. */
  lemma RangesApart(w: Words, w': Words, s: seq<nat>, lo: nat, hi: nat, lo': nat, hi': nat)
    requires Nodes(w, s) && lo <= hi <= |s| && lo' <= hi' <= |s| && (hi <= lo' || hi' <= lo)
    requires OnlyNodes(w, w', s[lo..hi])
    ensures SameNodes(w, w', s[lo'..hi'])
  {
    SliceNodes(w, s, lo', hi');
    forall i, j | 0 <= i < hi - lo && 0 <= j < hi' - lo'
      ensures s[lo..hi][i] + 16 <= s[lo'..hi'][j] || s[lo'..hi'][j] + 16 <= s[lo..hi][i]
    {
      assert s[lo..hi][i] == s[lo + i] && s[lo'..hi'][j] == s[lo' + j];
    }
    OthersSame(w, w', s[lo..hi], s[lo'..hi']);
  }

  lemma OnlyNodesChain(w0: Words, w1: Words, w2: Words, s: seq<nat>)
    requires OnlyNodes(w0, w1, s) && OnlyNodes(w1, w2, s)
    ensures OnlyNodes(w0, w2, s)
  {
  }

  lemma OnlyNodesWider(w: Words, w': Words, s: seq<nat>, lo: nat, hi: nat, lo': nat, hi': nat)
    requires lo <= lo' <= hi' <= hi <= |s| && OnlyNodes(w, w', s[lo'..hi'])
    ensures OnlyNodes(w, w', s[lo..hi])
  {
    forall b | b in w && Outside(s[lo..hi], b) ensures w'[b] == w[b] { OutsideSlice(s, lo, hi, lo', hi', b); }
  }

  /** Writing the node at `mid` over both finished halves leaves the halves as they were. */
  lemma HalvesKept(w1: Words, w2: Words, w3: Words, s: seq<nat>, lo: nat, mid: nat, hi: nat, l: Tree, r: Tree)
    requires Nodes(w1, s) && lo <= mid < hi <= |s|
    requires InOrder(l) == s[lo..mid] && InOrder(r) == s[mid + 1..hi]
    requires OnlyNodes(w1, w2, s[mid + 1..hi]) && OnlyNodes(w2, w3, s[mid..mid + 1])
    requires Linked(w1, l, s[mid]) && Balanced(w1, l) && Linked(w2, r, s[mid]) && Balanced(w2, r)
    ensures Linked(w3, l, s[mid]) && Balanced(w3, l) && Linked(w3, r, s[mid]) && Balanced(w3, r)
  {
    NodesStay(w1, w2, s);
    RangesApart(w1, w2, s, mid + 1, hi, lo, mid);
    LinkedKept(w1, w2, l, s[mid]);
    RangesApart(w2, w3, s, mid, mid + 1, lo, mid);
    LinkedKept(w2, w3, l, s[mid]);
    RangesApart(w2, w3, s, mid, mid + 1, mid + 1, hi);
    LinkedKept(w2, w3, r, s[mid]);
  }

  /** A node written over two linked subtrees links the whole. */
  lemma JoinTree(w2: Words, w3: Words, l: Tree, a: nat, r: Tree, parent: nat, balance: nat)
    requires NodeIn(w2, a) && NodeWritten(w2, w3, a, Root(l), Root(r), parent, balance)
    requires balance == TwosComplement(Height(r) - Height(l))
    requires Linked(w3, l, a) && Balanced(w3, l) && Linked(w3, r, a) && Balanced(w3, r)
    ensures Linked(w3, Node(l, a, r), parent) && Balanced(w3, Node(l, a, r))
  {
  }

  lemma FramesJoin(w0: Words, w1: Words, w2: Words, w3: Words, s: seq<nat>, lo: nat, mid: nat, hi: nat)
    requires lo <= mid < hi <= |s|
    requires OnlyNodes(w0, w1, s[lo..mid]) && OnlyNodes(w1, w2, s[mid + 1..hi]) && OnlyNodes(w2, w3, s[mid..mid + 1])
    ensures OnlyNodes(w0, w3, s[lo..hi])
  {
    OnlyNodesWider(w0, w1, s, lo, hi, lo, mid);
    OnlyNodesWider(w1, w2, s, lo, hi, mid + 1, hi);
    OnlyNodesWider(w2, w3, s, lo, hi, mid, mid + 1);
    OnlyNodesChain(w0, w1, w2, s[lo..hi]);
    OnlyNodesChain(w0, w2, w3, s[lo..hi]);
  }

  lemma WrittenFrame(w: Words, w': Words, s: seq<nat>, mid: nat, left: nat, right: nat, parent: nat, balance: nat)
    requires mid < |s| && NodeWritten(w, w', s[mid], left, right, parent, balance)
    ensures OnlyNodes(w, w', s[mid..mid + 1])
  {
    assert s[mid..mid + 1][0] == s[mid];
  }

  /** What the recursion has achieved once the node at `mid` is written over both finished halves. */
  lemma JoinHalves(w0: Words, w1: Words, w2: Words, w3: Words, s: seq<nat>, lo: nat, mid: nat, hi: nat, parent: nat,
                   l: Tree, r: Tree)
    requires Nodes(w0, s) && lo <= mid < hi <= |s|
    requires InOrder(l) == s[lo..mid] && InOrder(r) == s[mid + 1..hi]
    requires OnlyNodes(w0, w1, s[lo..mid]) && OnlyNodes(w1, w2, s[mid + 1..hi])
    requires Linked(w1, l, s[mid]) && Balanced(w1, l) && Linked(w2, r, s[mid]) && Balanced(w2, r)
    requires NodeWritten(w2, w3, s[mid], Root(l), Root(r), parent, TwosComplement(Height(r) - Height(l)))
    ensures Linked(w3, Node(l, s[mid], r), parent) && Balanced(w3, Node(l, s[mid], r))
    ensures OnlyNodes(w0, w3, s[lo..hi])
  {
    hide TwosComplement;
    var balance := TwosComplement(Height(r) - Height(l));
    WrittenFrame(w2, w3, s, mid, Root(l), Root(r), parent, balance);
    FramesJoin(w0, w1, w2, w3, s, lo, mid, hi);
    NodesStay(w0, w1, s);
    HalvesKept(w1, w2, w3, s, lo, mid, hi, l, r);
    assert NodeIn(w0, s[mid]);
    hide Linked;
    hide Balanced;
    hide OnlyNodes;
    JoinTree(w2, w3, l, s[mid], r, parent, balance);
  }

  /** What `avl_rebuild_range` achieves: `t` stands in memory under `parent`, and nothing else changed. */
  ghost predicate Rebuilt(w: Words, w': Words, range: seq<nat>, t: Tree, parent: nat) {
    && InOrder(t) == range
    && Linked(w', t, parent) && Balanced(w', t)
    && OnlyNodes(w, w', range)
  }

  lemma JoinRebuilt(w0: Words, w1: Words, w2: Words, w3: Words, s: seq<nat>, lo: nat, mid: nat, hi: nat, parent: nat,
                    l: Tree, r: Tree)
    requires Nodes(w0, s) && lo <= mid < hi <= |s|
    requires Rebuilt(w0, w1, s[lo..mid], l, s[mid]) && Rebuilt(w1, w2, s[mid + 1..hi], r, s[mid])
    requires NodeWritten(w2, w3, s[mid], Root(l), Root(r), parent, TwosComplement(Height(r) - Height(l)))
    ensures Rebuilt(w0, w3, s[lo..hi], Node(l, s[mid], r), parent)
  {
    hide Linked;
    hide Balanced;
    hide OnlyNodes;
    hide Nodes;
    hide NodeWritten;
    JoinHalves(w0, w1, w2, w3, s, lo, mid, hi, parent, l, r);
    SliceAround(s, lo, mid, hi);
  }

  /** `avl_rebuild_range`: builds the halves first, then writes the middle node. */
  method RebuildRange(m: Arena, nodes: seq<nat>, lo: nat, hi: nat, parent: nat)
    returns (root: nat, height: nat, ghost t: Tree)
    requires m.Valid() && Nodes(m.words, nodes) && lo <= hi <= |nodes| && parent < 0x1_0000_0000
    modifies m`words, m.ram
    ensures m.Valid()
    ensures t == Build(nodes, lo, hi) && root == Root(t) && height == Height(t)
    ensures root < 0x1_0000_0000
    ensures Rebuilt(old(m.words), m.words, nodes[lo..hi], t, parent)
    decreases hi - lo
  {
    if lo >= hi { return 0, 0, Leaf; }
    var mid := lo + (hi - lo) / 2;
    var node := nodes[mid];
    ghost var w0 := m.words;
    assert NodeIn(w0, node);
    var left, lh, l := RebuildRange(m, nodes, lo, mid, node);
    ghost var w1 := m.words;
    NodesStay(w0, w1, nodes);
    var right, rh, r := RebuildRange(m, nodes, mid + 1, hi, node);
    ghost var w2 := m.words;
    NodesStay(w1, w2, nodes);
    WriteMiddle(m, nodes, lo, mid, hi, parent, left, lh, right, rh, l, r, w0, w1);
    height := Max(lh, rh) + 1;
    root, t := node, Node(l, node, r);
  }

  method WriteMiddle(m: Arena, nodes: seq<nat>, lo: nat, mid: nat, hi: nat, parent: nat, left: nat, lh: nat,
                     right: nat, rh: nat, ghost l: Tree, ghost r: Tree, ghost w0: Words, ghost w1: Words)
    requires lo <= mid < hi <= |nodes| && m.Valid() && Nodes(w0, nodes) && NodeIn(m.words, nodes[mid])
    requires Rebuilt(w0, w1, nodes[lo..mid], l, nodes[mid]) && Rebuilt(w1, m.words, nodes[mid + 1..hi], r, nodes[mid])
    requires left == Root(l) && right == Root(r) && lh == Height(l) && rh == Height(r)
    requires left < 0x1_0000_0000 && right < 0x1_0000_0000 && parent < 0x1_0000_0000
    modifies m`words, m.ram
    ensures m.Valid() && Rebuilt(w0, m.words, nodes[lo..hi], Node(l, nodes[mid], r), parent)
  {
    ghost var w2 := m.words;
    WriteNode(m, nodes[mid], left, right, parent, rh as int - lh as int);
    JoinRebuilt(w0, w1, w2, m.words, nodes, lo, mid, hi, parent, l, r);
  }

  lemma NodesStay(w: Words, w': Words, s: seq<nat>)
    requires Nodes(w, s) && w.Keys == w'.Keys
    ensures Nodes(w', s)
  {
  }

  // ------------------------------------------------------------------ traversal

  ghost predicate ContextLinked(w: Words, c: Context, child: nat)
    decreases c
  {
    match c
    case Top => true
    case InLeft(p, r, up) =>
      && NodeIn(w, p) && w[p] == child && w[p + 4] == Root(r) && w[p + 8] == ParentOf(up)
      && Linked(w, r, p) && ContextLinked(w, up, p)
    case InRight(l, p, up) =>
      && NodeIn(w, p) && w[p] == Root(l) && w[p + 4] == child && w[p + 8] == ParentOf(up)
      && Linked(w, l, p) && ContextLinked(w, up, p)
  }

  /** A linked tree is a linked context around a linked subtree. */
  lemma {:induction false} LinkedParts(w: Words, c: Context, t: Tree)
    ensures Linked(w, Plug(c, t), 0) <==> Linked(w, t, ParentOf(c)) && ContextLinked(w, c, Root(t))
    decreases c
  {
    match c
    case Top =>
    case InLeft(p, r, up) =>
      LinkedParts(w, up, Node(t, p, r));
    case InRight(l, p, up) =>
      LinkedParts(w, up, Node(l, p, t));
  }

  /** `guest_span_ok(node, 16)`. */
  method SpanOk(m: Arena, node: nat) returns (ok: bool)
    requires m.Valid()
    ensures NodeIn(m.words, node) ==> ok
  {
    ok := m.origin <= node && node + 16 <= m.origin + m.ram.Length;
  }

  /** `avl_extreme`: follow one side to its end; gives up after 65536 steps. */
  method ExtremeNode(m: Arena, node: nat, right: bool, ghost t: Tree, ghost parent: nat) returns (err: bool, end: nat)
    requires m.Valid() && Linked(m.words, t, parent) && node == Root(t)
    ensures !err ==> end == Extreme(t, right)
    ensures err ==> Height(t) > 65537
  {
    var at, guard := node, 0;
    ghost var u, p := t, parent;
    err, end := true, 0;
    while at != 0
      invariant err && end == 0
      invariant Linked(m.words, u, p) && at == Root(u) && Extreme(u, right) == Extreme(t, right)
      invariant guard <= 65536 && guard + Height(u) <= Height(t)
      decreases u
    {
      var ok := SpanOk(m, at);
      if !ok { return; }
      var next := m.Read32(if right then at + 4 else at);
      if next == 0 { return false, at; }
      p := u.addr;
      u := if right then u.right else u.left;
      at := next;
      guard := guard + 1;
      if guard > 65536 { return; }
    }
    return false, 0;
  }

  function HeadOr0(s: seq<nat>): nat { if s == [] then 0 else s[0] }

  function LastOr0(s: seq<nat>): nat { if s == [] then 0 else s[|s| - 1] }

  /** A whole tree in memory: linked from the root, nodes apart. */
  ghost predicate TreeIn(w: Words, t: Tree) {
    Linked(w, t, 0) && Nodes(w, InOrder(t))
  }

  lemma NodesDistinct(w: Words, s: seq<nat>)
    requires Nodes(w, s)
    ensures Distinct(s)
  {
  }

  /** The climb of `avl_adjacent`: up until the child hangs on the far side. */
  method Climb(m: Arena, node: nat, next: bool, ghost c0: Context, ghost t0: Tree) returns (err: bool, found: nat)
    requires m.Valid() && TreeIn(m.words, Plug(c0, t0)) && t0.Node? && node == t0.addr
    ensures !err ==> found == if next then HeadOr0(After(c0)) else LastOr0(Before(c0))
    ensures err ==> Depth(c0) > 65536
  {
    ghost var c, t := c0, t0;
    var child, guard := node, 0;
    LinkedParts(m.words, c, t);
    var parent := m.Read32(node + 8);
    err, found := true, 0;
    while parent != 0
      invariant err && found == 0
      invariant t.Node? && 0 < child == t.addr && parent == ParentOf(c) && Plug(c, t) == Plug(c0, t0)
      invariant ContextLinked(m.words, c, child)
      invariant if next then After(c) == After(c0) else Before(c) == Before(c0)
      invariant guard <= 65536 && guard + Depth(c) == Depth(c0)
      decreases c
    {
      var ok := SpanOk(m, parent);
      if !ok { return; }
      var link := m.Read32(if next then parent else parent + 4);
      NodesDistinct(m.words, InOrder(Plug(c, t)));
      SiblingsDiffer(c, t);
      if link == child { return false, parent; }
      child := parent;
      parent := m.Read32(parent + 8);
      t := if c.InLeft? then Node(t, c.parent, c.right) else Node(c.left, c.parent, t);
      c := c.up;
      guard := guard + 1;
      if guard > 65536 { return; }
    }
    return false, 0;
  }

  /** `avl_adjacent`: the in-order successor or predecessor of a node, 0 at the end. */
  method AdjacentNode(m: Arena, node: nat, next: bool, ghost c: Context, ghost t: Tree) returns (err: bool, found: nat)
    requires m.Valid() && TreeIn(m.words, Plug(c, t)) && t.Node? && node == t.addr
    ensures !err ==>
              found == if next then HeadOr0(InOrder(t.right) + After(c)) else LastOr0(Before(c) + InOrder(t.left))
    ensures err ==> |InOrder(Plug(c, t))| > 65536
  {
    LinkedParts(m.words, c, t);
    PlugInOrder(c, t);
    DepthAtMostSize(c);
    err, found := true, 0;
    var ok := SpanOk(m, node);
    if !ok { return; }
    var branch := m.Read32(if next then node + 4 else node);
    ghost var u := if next then t.right else t.left;
    if branch != 0 {
      HeightAtMostSize(u);
      ExtremeIsEnd(u, !next);
      err, found := ExtremeNode(m, branch, !next, u, node);
    } else {
      err, found := Climb(m, node, next, c, t);
    }
  }

  /** `AVL_FindFirstNode`, `AVL_FindLastNode`. */
  method FindEnd(m: Arena, root: nat, last: bool, ghost t: Tree) returns (err: bool, found: nat)
    requires m.Valid() && TreeIn(m.words, t) && root == Root(t)
    ensures !err ==> found == if last then LastOr0(InOrder(t)) else HeadOr0(InOrder(t))
    ensures err ==> |InOrder(t)| > 65536
  {
    HeightAtMostSize(t);
    if t.Node? { ExtremeIsEnd(t, last); }
    err, found := ExtremeNode(m, root, last, t, 0);
  }

  /** `AVL_FindNextNodeByAddress`, `AVL_FindPrevNodeByAddress`, as positions in the in-order sequence. */
  method Neighbour(m: Arena, node: nat, next: bool, ghost t: Tree, ghost i: nat) returns (err: bool, found: nat)
    requires m.Valid() && TreeIn(m.words, t) && (node == 0 || (i < |InOrder(t)| && node == InOrder(t)[i]))
    ensures node == 0 ==> !err && found == 0
    ensures node != 0 && !err ==> found == if next then HeadOr0(InOrder(t)[i + 1..]) else LastOr0(InOrder(t)[..i])
    ensures err ==> |InOrder(t)| > 65536
  {
    if node == 0 { return false, 0; }
    ghost var c, u := Position(m.words, t, i);
    err, found := AdjacentNode(m, node, next, c, u);
  }

  /** The subtree and context around the `i`-th node in order. */
  lemma Position(w: Words, t: Tree, i: nat) returns (c: Context, u: Tree)
    requires TreeIn(w, t) && i < |InOrder(t)|
    ensures Plug(c, u) == t && u.Node? && u.addr == InOrder(t)[i]
    ensures InOrder(t)[i + 1..] == InOrder(u.right) + After(c)
    ensures InOrder(t)[..i] == Before(c) + InOrder(u.left)
  {
    var s := InOrder(t);
    c, u := Locate(Top, t, s[i]);
    NodesDistinct(w, s);
    PlugInOrder(c, u);
    SplitAt(s, Before(c), InOrder(u.left), u.addr, InOrder(u.right), After(c), i);
  }

  lemma SplitAt(s: seq<nat>, a: seq<nat>, b: seq<nat>, x: nat, d: seq<nat>, e: seq<nat>, i: nat)
    requires s == a + (b + [x] + d) + e && Distinct(s) && i < |s| && s[i] == x
    ensures s[..i] == a + b && s[i + 1..] == d + e
  {
    assert s[|a + b|] == x;
  }

  /** `avl_collect`: leftmost node, then repeated successors, into an array of at most 65536. */
  method Collect(m: Arena, root: nat, ghost t: Tree) returns (ok: bool, nodes: seq<nat>)
    requires m.Valid() && TreeIn(m.words, t) && root == Root(t)
    ensures ok <==> |InOrder(t)| <= 65536
    ensures ok ==> nodes == InOrder(t)
  {
    ghost var s := InOrder(t);
    var err, node := FindEnd(m, root, false, t);
    nodes := [];
    if err { return false, []; }
    var cap := 0;
    while node != 0
      invariant |nodes| <= |s| && |nodes| <= cap && nodes == s[..|nodes|]
      invariant node == (if |nodes| < |s| then s[|nodes|] else 0)
      invariant cap in {0, 32, 64, 128, 256, 512, 1024, 2048, 4096, 8192, 16384, 32768, 65536}
      decreases |s| - |nodes|
    {
      if |nodes| == cap {
        var newcap := if cap != 0 then cap * 2 else 32;
        if newcap > 65536 { return false, []; }
        cap := newcap;
      }
      ghost var i := |nodes|;
      nodes := nodes + [node];
      assert nodes == s[..i + 1];
      var e, next := Neighbour(m, node, true, t, i);
      if e { return false, []; }
      if next == node { return false, []; }
      node := next;
    }
    ok := true;
  }
}
