/**
 Binary trees of guest node addresses: their in-order sequence, the balanced tree that
 `avl_rebuild` makes of a sequence, and contexts for walking up.
 */
module Tree {
  import opened Numbers

  datatype Tree = Leaf | Node(left: Tree, addr: nat, right: Tree)

  function InOrder(t: Tree): seq<nat> {
    match t
    case Leaf => []
    case Node(l, a, r) => InOrder(l) + [a] + InOrder(r)
  }

  function Root(t: Tree): nat {
    if t.Leaf? then 0 else t.addr
  }

  function Max(a: nat, b: nat): nat { if a > b then a else b }

  function Height(t: Tree): nat {
    match t
    case Leaf => 0
    case Node(l, _, r) => Max(Height(l), Height(r)) + 1
  }

  // --------------------------------------------------------- the rebuilt tree

  /** The tree over `nodes[lo..hi]`, split at the middle. */
  function Build(nodes: seq<nat>, lo: nat, hi: nat): Tree
    requires lo <= hi <= |nodes|
    decreases hi - lo
  {
    if lo >= hi then Leaf
    else
      var mid := lo + (hi - lo) / 2;
      Node(Build(nodes, lo, mid), nodes[mid], Build(nodes, mid + 1, hi))
  }

  lemma {:induction false} BuildInOrder(nodes: seq<nat>, lo: nat, hi: nat)
    requires lo <= hi <= |nodes|
    ensures InOrder(Build(nodes, lo, hi)) == nodes[lo..hi]
    decreases hi - lo
  {
    if lo < hi {
      var mid := lo + (hi - lo) / 2;
      var l, r := Build(nodes, lo, mid), Build(nodes, mid + 1, hi);
      assert Build(nodes, lo, hi) == Node(l, nodes[mid], r);
      assert InOrder(l) == nodes[lo..mid] by { BuildInOrder(nodes, lo, mid); }
      assert InOrder(r) == nodes[mid + 1..hi] by { BuildInOrder(nodes, mid + 1, hi); }
      SliceAround(nodes, lo, mid, hi);
    }
  }

  lemma SliceAround(s: seq<nat>, lo: nat, mid: nat, hi: nat)
    requires lo <= mid < hi <= |s|
    ensures s[lo..hi] == s[lo..mid] + [s[mid]] + s[mid + 1..hi]
  {
  }

  lemma Assoc(a: seq<nat>, b: seq<nat>, c: seq<nat>, d: seq<nat>, e: seq<nat>)
    ensures a + (b + c + d) + e == a + b + c + d + e
    ensures a + (b + c + d) + e == a + b + (c + d + e)
  {
  }

  /** Height of the rebuilt tree over `n` nodes. */
  function Levels(n: nat): nat {
    if n == 0 then 0 else 1 + Levels(n / 2)
  }

  lemma {:induction false} LevelsStep(n: nat)
    ensures Levels(n) <= Levels(n + 1) <= Levels(n) + 1
    decreases n
  {
    if n > 0 {
      if n % 2 == 0 {
        assert (n + 1) / 2 == n / 2;
      } else {
        assert (n + 1) / 2 == n / 2 + 1;
        LevelsStep(n / 2);
      }
    }
  }

  /** `Levels(n)` is floor(log2 n) + 1. */
  lemma {:induction false} LevelsIsLog(n: nat)
    requires 0 < n
    ensures 0 < Levels(n)
    ensures Pow2(Levels(n) - 1) <= n < Pow2(Levels(n))
  {
    if n > 1 { LevelsIsLog(n / 2); }
  }

  lemma HalvesDiffer(n: nat)
    requires 0 < n
    ensures var r := n - 1 - n / 2; 0 <= Levels(n / 2) - Levels(r) <= 1
  {
    var r := n - 1 - n / 2;
    LevelsStep(r);
    assert n / 2 == r || n / 2 == r + 1;
  }

  lemma JoinBalanced(l: Tree, x: nat, r: Tree, n: nat)
    requires 0 < n && Height(l) == Levels(n / 2) && Height(r) == Levels(n - 1 - n / 2) && LeansLeft(l) && LeansLeft(r)
    ensures Height(Node(l, x, r)) == Levels(n) && LeansLeft(Node(l, x, r))
  {
    HalvesDiffer(n);
  }

  /** The rebuilt tree's height depends on the count alone, and its right side is at most one level lower. */
  lemma {:induction false} BuildBalanced(nodes: seq<nat>, lo: nat, hi: nat)
    requires lo <= hi <= |nodes|
    ensures Height(Build(nodes, lo, hi)) == Levels(hi - lo)
    ensures LeansLeft(Build(nodes, lo, hi))
    decreases hi - lo
  {
    hide Height;
    hide LeansLeft;
    if lo < hi {
      var mid := lo + (hi - lo) / 2;
      BuildBalanced(nodes, lo, mid);
      BuildBalanced(nodes, mid + 1, hi);
      JoinBalanced(Build(nodes, lo, mid), nodes[mid], Build(nodes, mid + 1, hi), hi - lo);
    } else {
      LeafBalanced();
    }
  }

  lemma LeafBalanced()
    ensures Height(Leaf) == Levels(0) && LeansLeft(Leaf)
  {
  }

  /** Everywhere in the tree, right height minus left height is -1 or 0. */
  ghost predicate LeansLeft(t: Tree) {
    match t
    case Leaf => true
    case Node(l, _, r) => -1 <= Height(r) - Height(l) <= 0 && LeansLeft(l) && LeansLeft(r)
  }

  lemma {:induction false} HeightAtMostSize(t: Tree)
    ensures Height(t) <= |InOrder(t)|
  {
    if t.Node? {
      HeightAtMostSize(t.left);
      HeightAtMostSize(t.right);
    }
  }

  // ------------------------------------------------------------------- contexts

  /** The path from a subtree up to the root. */
  datatype Context =
    | Top
    | InLeft(parent: nat, right: Tree, up: Context)   // the subtree is the left child
    | InRight(left: Tree, parent: nat, up: Context)   // the subtree is the right child

  function Plug(c: Context, t: Tree): Tree
    decreases c
  {
    match c
    case Top => t
    case InLeft(p, r, up) => Plug(up, Node(t, p, r))
    case InRight(l, p, up) => Plug(up, Node(l, p, t))
  }

  function Before(c: Context): seq<nat> {
    match c
    case Top => []
    case InLeft(_, _, up) => Before(up)
    case InRight(l, p, up) => Before(up) + InOrder(l) + [p]
  }

  function After(c: Context): seq<nat> {
    match c
    case Top => []
    case InLeft(p, r, up) => [p] + InOrder(r) + After(up)
    case InRight(_, _, up) => After(up)
  }

  function ParentOf(c: Context): nat {
    if c.Top? then 0 else c.parent
  }

  lemma {:induction false} PlugInOrder(c: Context, t: Tree)
    ensures InOrder(Plug(c, t)) == Before(c) + InOrder(t) + After(c)
    decreases c
  {
    match c
    case Top =>
    case InLeft(p, r, up) =>
      PlugInOrder(up, Node(t, p, r));
      Assoc(Before(up), InOrder(t), [p], InOrder(r), After(up));
    case InRight(l, p, up) =>
      PlugInOrder(up, Node(l, p, t));
      Assoc(Before(up), InOrder(l), [p], InOrder(t), After(up));
  }

  /** Every address in a tree sits at the root of some subtree. */
  lemma {:induction false} Locate(c: Context, t: Tree, a: nat) returns (c': Context, t': Tree)
    requires a in InOrder(t)
    ensures Plug(c', t') == Plug(c, t) && t'.Node? && t'.addr == a
    decreases t
  {
    if t.addr == a {
      return c, t;
    } else if a in InOrder(t.left) {
      c', t' := Locate(InLeft(t.addr, t.right, c), t.left, a);
    } else {
      c', t' := Locate(InRight(t.left, t.addr, c), t.right, a);
    }
  }

  /** The leftmost (or rightmost) node, as `avl_extreme` walks to it. */
  function Extreme(t: Tree, right: bool): nat {
    if t.Leaf? then 0
    else
      var child := if right then t.right else t.left;
      if child.Leaf? then t.addr else Extreme(child, right)
  }

  lemma {:induction false} ExtremeIsEnd(t: Tree, right: bool)
    requires t.Node?
    ensures Extreme(t, right) == if right then InOrder(t)[|InOrder(t)| - 1] else InOrder(t)[0]
  {
    var child := if right then t.right else t.left;
    if child.Node? { ExtremeIsEnd(child, right); }
  }

  function Depth(c: Context): nat {
    match c
    case Top => 0
    case InLeft(_, _, up) => 1 + Depth(up)
    case InRight(_, _, up) => 1 + Depth(up)
  }

  lemma {:induction false} DepthAtMostSize(c: Context)
    ensures Depth(c) <= |Before(c)| + |After(c)|
    decreases c
  {
    match c
    case Top =>
    case InLeft(_, _, up) => DepthAtMostSize(up);
    case InRight(_, _, up) => DepthAtMostSize(up);
  }

  ghost predicate Distinct(s: seq<nat>) {
    forall i, j | 0 <= i < j < |s| :: s[i] != s[j]
  }

  lemma RootInOrder(t: Tree)
    requires t.Node?
    ensures InOrder(t)[|InOrder(t.left)|] == t.addr
  {
  }

  /** A left sibling is a different node. */
  lemma SiblingsDiffer(c: Context, t: Tree)
    requires t.Node? && (c.InRight? || c.InLeft?) && Distinct(InOrder(Plug(c, t)))
    ensures c.InRight? && c.left.Node? ==> c.left.addr != t.addr
    ensures c.InLeft? && c.right.Node? ==> c.right.addr != t.addr
  {
    PlugInOrder(c, t);
    var s := InOrder(Plug(c, t));
    RootInOrder(t);
    assert s[|Before(c)| + |InOrder(t.left)|] == t.addr;
    if c.InRight? && c.left.Node? {
      RootInOrder(c.left);
      assert s[|Before(c.up)| + |InOrder(c.left.left)|] == c.left.addr;
    }
    if c.InLeft? && c.right.Node? {
      RootInOrder(c.right);
      assert s[|Before(c)| + |InOrder(t)| + 1 + |InOrder(c.right.left)|] == c.right.addr;
    }
  }
}
