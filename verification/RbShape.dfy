/**
  Shapes of red-black trees, as values.

  A node of `src/common/rbtree.c` is a struct in memory.  A `Tree` records which addresses
  hang where, and a `Context` records everything around one subtree (the
  "hole").  `At` and `ContextAt` say which field values a tree or a context stands for, so
  that one quantifier over the nodes (`RbMemory.Fits`) ties the memory to a shape.
 */
module RbShape {
  import opened Common

  /** The address of a node; 0 is NULL. */
  type Ptr = nat
  const NULL: Ptr := 0
  type Node = p: Ptr | p != 0 witness 1

  /** The three words of `struct rb_node_`, with the colour bit as a component of its own. */
  datatype Fields = Fields(left: Ptr, right: Ptr, parent: Ptr, red: bool)

  datatype Side = Left | Right

  datatype Tree = Leaf | Branch(node: Node, red: bool, left: Tree, right: Tree)

  /** The surroundings of a subtree: the hole is the `side` child of `node`. */
  datatype Context =
    | Top
    | In(side: Side, node: Node, red: bool, sibling: Tree, up: Context)

  function Root(t: Tree): Ptr {
    if t.Leaf? then NULL else t.node
  }

  function Owner(c: Context, above: Ptr): Ptr {
    if c.Top? then above else c.node
  }

  function Join(side: Side, node: Node, red: bool, near: Tree, far: Tree): Tree {
    if side.Left? then Branch(node, red, near, far) else Branch(node, red, far, near)
  }

  function Plug(c: Context, t: Tree): Tree {
    match c
    case Top => t
    case In(side, node, red, sibling, up) => Plug(up, Join(side, node, red, t, sibling))
  }

  ghost function Nodes(t: Tree): set<Node> {
    match t
    case Leaf => {}
    case Branch(n, _, l, r) => Nodes(l) + Nodes(r) + {n}
  }

  ghost function ContextNodes(c: Context): set<Node> {
    match c
    case Top => {}
    case In(_, n, _, s, up) => ContextNodes(up) + Nodes(s) + {n}
  }

  // ----- contents: the nodes in key order -----

  function Inorder(t: Tree): seq<Node> {
    match t
    case Leaf => []
    case Branch(n, _, l, r) => Inorder(l) + [n] + Inorder(r)
  }

  function Before(c: Context): seq<Node> {
    match c
    case Top => []
    case In(side, n, _, s, up) => if side.Left? then Before(up) else Before(up) + Inorder(s) + [n]
  }

  function After(c: Context): seq<Node> {
    match c
    case Top => []
    case In(side, n, _, s, up) => if side.Left? then [n] + Inorder(s) + After(up) else After(up)
  }

  lemma Regroup(a: seq<Node>, b: seq<Node>, c: seq<Node>, d: seq<Node>, e: seq<Node>)
    ensures a + (b + c + d) + e == a + b + (c + d + e)
    ensures a + (b + c + d) + e == (a + b + c) + d + e
  {
  }

  lemma {:induction false} PlugTop(t: Tree)
    ensures Plug(Top, t) == t
  {
  }

  lemma {:induction false} InorderPlug(c: Context, t: Tree)
    ensures Inorder(Plug(c, t)) == Before(c) + Inorder(t) + After(c)
  {
    if c.In? {
      var it, s, n := Inorder(t), Inorder(c.sibling), [c.node];
      InorderPlug(c.up, Join(c.side, c.node, c.red, t, c.sibling));
      if c.side.Left? {
        Regroup(Before(c.up), it, n, s, After(c.up));
      } else {
        Regroup(Before(c.up), s, n, it, After(c.up));
      }
    }
  }

  /** What the caller's `cmp` compares: `cmp(l, r)` is `key(l) < key(r)`. */
  type Order = Ptr -> int

  /** Strictly increasing keys; in particular no node occurs twice. */
  ghost predicate Sorted(key: Order, s: seq<Node>) {
    forall i, j :: 0 <= i < j < |s| ==> key(s[i]) < key(s[j])
  }

  // ----- distinctness -----

  ghost predicate Distinct(t: Tree) {
    match t
    case Leaf => true
    case Branch(n, _, l, r) => n !in Nodes(l) && n !in Nodes(r) && Nodes(l) !! Nodes(r) && Distinct(l) && Distinct(r)
  }

  ghost predicate ContextDistinct(c: Context) {
    match c
    case Top => true
    case In(_, n, _, s, up) =>
      && Distinct(s) && ContextDistinct(up)
      && n !in Nodes(s) && n !in ContextNodes(up) && Nodes(s) !! ContextNodes(up)
  }

  lemma {:induction false} NodesInorder(t: Tree, n: Node)
    ensures n in Nodes(t) <==> n in Inorder(t)
  {
    if t.Branch? {
      NodesInorder(t.left, n);
      NodesInorder(t.right, n);
    }
  }

  lemma SortedParts(key: Order, a: seq<Node>, n: Node, b: seq<Node>)
    requires Sorted(key, a + [n] + b)
    ensures Sorted(key, a) && Sorted(key, b)
    ensures forall x :: x in a ==> key(x) < key(n)
    ensures forall x :: x in b ==> key(n) < key(x)
  {
    var s := a + [n] + b;
    assert s[|a|] == n;
    forall i | 0 <= i < |a| ensures a[i] == s[i] && key(a[i]) < key(n) {}
    forall i | 0 <= i < |b| ensures b[i] == s[|a| + 1 + i] && key(n) < key(b[i]) {}
  }

  lemma {:induction false} SortedNodes(key: Order, t: Tree)
    requires t.Branch? && Sorted(key, Inorder(t))
    ensures Sorted(key, Inorder(t.left)) && Sorted(key, Inorder(t.right))
    ensures forall x :: x in Nodes(t.left) ==> key(x) < key(t.node)
    ensures forall x :: x in Nodes(t.right) ==> key(t.node) < key(x)
  {
    SortedParts(key, Inorder(t.left), t.node, Inorder(t.right));
    forall x | x in Nodes(t.left) ensures key(x) < key(t.node) {
      NodesInorder(t.left, x);
    }
    forall x | x in Nodes(t.right) ensures key(t.node) < key(x) {
      NodesInorder(t.right, x);
    }
  }

  lemma {:induction false} PlugNodes(c: Context, t: Tree)
    ensures Nodes(Plug(c, t)) == ContextNodes(c) + Nodes(t)
  {
    match c
    case Top =>
    case In(side, n, red, s, up) => PlugNodes(up, Join(side, n, red, t, s));
  }

  lemma {:induction false} PlugDistinct(c: Context, t: Tree)
    ensures Distinct(Plug(c, t)) <==> Distinct(t) && ContextDistinct(c) && Nodes(t) !! ContextNodes(c)
  {
    match c
    case Top =>
    case In(side, n, red, s, up) => PlugDistinct(up, Join(side, n, red, t, s));
  }

  // ----- field values -----

  /** What `n`'s fields must be for the heap to hold `t` below the node `above`. */
  ghost function At(t: Tree, above: Ptr, n: Node): Fields
    requires n in Nodes(t)
  {
    if n == t.node then Fields(Root(t.left), Root(t.right), above, t.red)
    else if n in Nodes(t.left) then At(t.left, t.node, n)
    else At(t.right, t.node, n)
  }

  ghost function FrameAt(c: Context, above: Ptr, hole: Ptr): Fields
    requires c.In?
  {
    var p := Owner(c.up, above);
    if c.side.Left? then Fields(hole, Root(c.sibling), p, c.red)
    else Fields(Root(c.sibling), hole, p, c.red)
  }

  /** The same for a node of the context, when `hole` is the root of what is plugged in. */
  ghost function ContextAt(c: Context, above: Ptr, hole: Ptr, n: Node): Fields
    requires n in ContextNodes(c)
  {
    if n == c.node then FrameAt(c, above, hole)
    else if n in Nodes(c.sibling) then At(c.sibling, c.node, n)
    else ContextAt(c.up, above, c.node, n)
  }

  lemma {:induction false} PlugAt(c: Context, t: Tree, above: Ptr, n: Node)
    requires Distinct(Plug(c, t))
    requires n in Nodes(Plug(c, t))
    ensures n in Nodes(t) ==> At(Plug(c, t), above, n) == At(t, Owner(c, above), n)
    ensures n !in Nodes(t) ==> n in ContextNodes(c) && At(Plug(c, t), above, n) == ContextAt(c, above, Root(t), n)
  {
    PlugNodes(c, t);
    PlugDistinct(c, t);
    match c
    case Top =>
    case In(side, m, red, s, up) =>
      var j := Join(side, m, red, t, s);
      PlugAt(up, j, above, n);
  }

  /** Below a different parent only the root's `parent` field differs. */
  lemma AtOtherParent(t: Tree, p: Ptr, q: Ptr, n: Node)
    requires n in Nodes(t)
    ensures At(t, q, n) == if n == t.node then At(t, p, n).(parent := q) else At(t, p, n)
  {
  }

  /** With a different hole only the innermost frame differs. */
  lemma ContextAtOtherHole(c: Context, above: Ptr, h: Ptr, k: Ptr, n: Node)
    requires n in ContextNodes(c)
    ensures ContextAt(c, above, k, n) == if n == c.node then FrameAt(c, above, k) else ContextAt(c, above, h, n)
  {
  }

  // ----- colours and black height -----

  function Red(t: Tree): bool {
    t.Branch? && t.red
  }

  ghost function BlackHeight(t: Tree): nat {
    if t.Leaf? then 0 else BlackHeight(t.left) + if t.red then 0 else 1
  }

  /** No red node has a red child and all paths meet equally many black nodes. */
  ghost predicate RedBlack(t: Tree) {
    match t
    case Leaf => true
    case Branch(_, red, l, r) =>
      && RedBlack(l) && RedBlack(r)
      && BlackHeight(l) == BlackHeight(r)
      && (red ==> !Red(l) && !Red(r))
  }

  /** The missing parent of a root counts as red, because the root must be black. */
  function RedAbove(c: Context): bool {
    c.Top? || c.red
  }

  /** The context accepts any red-black tree of black height `h`. */
  ghost predicate Accepts(c: Context, h: nat) {
    match c
    case Top => true
    case In(_, _, red, s, up) =>
      && RedBlack(s) && BlackHeight(s) == h
      && (red ==> !Red(s) && !RedAbove(up))
      && Accepts(up, if red then h else h + 1)
  }

  lemma {:induction false} PlugRedBlack(c: Context, t: Tree)
    requires RedBlack(t) && Accepts(c, BlackHeight(t))
    requires Red(t) ==> !RedAbove(c)
    ensures RedBlack(Plug(c, t)) && !Red(Plug(c, t))
  {
    match c
    case Top =>
    case In(side, n, red, s, up) => PlugRedBlack(up, Join(side, n, red, t, s));
  }

  lemma {:induction false} PlugAccepts(c: Context, t: Tree)
    requires RedBlack(Plug(c, t)) && !Red(Plug(c, t))
    ensures RedBlack(t) && Accepts(c, BlackHeight(t)) && (Red(t) ==> !RedAbove(c))
  {
    match c
    case Top =>
    case In(side, n, red, s, up) => PlugAccepts(up, Join(side, n, red, t, s));
  }

  /** A whole tree is red-black exactly when the subtree is and its surroundings accept its height and colour. */
  lemma {:induction false} PlugExactly(c: Context, t: Tree)
    ensures RedBlack(Plug(c, t)) && !Red(Plug(c, t)) <==>
            RedBlack(t) && Accepts(c, BlackHeight(t)) && (Red(t) ==> !RedAbove(c))
  {
    if RedBlack(Plug(c, t)) && !Red(Plug(c, t)) { PlugAccepts(c, t); }
    if RedBlack(t) && Accepts(c, BlackHeight(t)) && (Red(t) ==> !RedAbove(c)) { PlugRedBlack(c, t); }
  }

  // ----- height -----

  ghost function Height(t: Tree): nat {
    if t.Leaf? then 0 else 1 + Max(Height(t.left), Height(t.right))
  }

  lemma {:induction false} HeightByBlackHeight(t: Tree)
    requires RedBlack(t)
    ensures Height(t) <= 2 * BlackHeight(t) + if Red(t) then 1 else 0
    ensures |Inorder(t)| + 1 >= Pow2(BlackHeight(t))
  {
    match t
    case Leaf =>
    case Branch(_, red, l, r) => HeightByBlackHeight(l); HeightByBlackHeight(r);
  }

  /** height <= 2 * log2(n + 1), in a form without logarithms: every k with Height > 2k has 2^(k+1) <= n + 1. */
  lemma {:induction false} HeightBound(t: Tree, k: nat)
    requires RedBlack(t) && !Red(t)
    requires |Inorder(t)| + 1 < Pow2(k + 1)
    ensures Height(t) <= 2 * k
  {
    HeightByBlackHeight(t);
    if BlackHeight(t) > k + 1 { Pow2Less(k + 1, BlackHeight(t)); }
  }

  /** At most 2 * log2(n + 1), as a bound on a number of steps. */
  ghost predicate Logarithmic(steps: nat, n: nat) {
    forall m: nat | m > 0 && n + 1 < Pow2(m) :: steps <= 2 * (m - 1)
  }

  lemma {:induction false} FewerSteps(a: nat, b: nat, n: nat)
    requires Logarithmic(b, n) && a <= b
    ensures Logarithmic(a, n)
  {
  }

  lemma {:induction false} HeightLogarithmic(t: Tree)
    requires RedBlack(t) && !Red(t)
    ensures Logarithmic(Height(t), |Inorder(t)|)
  {
    forall m: nat | m > 0 && |Inorder(t)| + 1 < Pow2(m) ensures Height(t) <= 2 * (m - 1) { HeightBound(t, m - 1); }
  }
}
