/** What `__rb_erase` and each case of `__rb_erase_fix` achieve, as statements about values. */
module RbErase {
  import opened RbShape
  import opened RbRotate
  import opened RbMemory

  // ----- finding the node -----

  /** Any node of a tree sits at the root of a subtree in some context. */
  lemma {:induction false} Locate(c: Context, t: Tree, n: Node) returns (d: Context, u: Tree)
    requires n in Nodes(t)
    ensures Plug(d, u) == Plug(c, t) && u.Branch? && u.node == n
    decreases t
  {
    if n == t.node {
      d, u := c, t;
    } else if n in Nodes(t.left) {
      d, u := Locate(Below(c, t, Left), t.left, n);
    } else {
      d, u := Locate(Below(c, t, Right), t.right, n);
    }
  }

  // ----- a node with at most one child is replaced by that child -----

  /** `__rb_change_child` and the hand-over of parent and colour: u takes x's place. */
  ghost function Spliced(mem: Memory, x: Node, u: Ptr): Memory
    requires x in mem && (u != NULL ==> u in mem) && (mem[x].parent != NULL ==> mem[x].parent in mem)
  {
    var o := mem[x].parent;
    var m1 := if u == NULL then mem else mem[u := mem[u].(parent := o, red := mem[x].red)];
    if o == NULL then m1 else m1[o := ChangeChild(m1[o], x, u)]
  }

  ghost function Recoloured(u: Tree, red: bool): Tree {
    if u.Leaf? then Leaf else u.(red := red)
  }

  /** `t` has only one subtree, `u`. */
  ghost predicate Single(t: Tree, u: Tree) {
    t.Branch? && ((t.left == Leaf && t.right == u) || (t.right == Leaf && t.left == u))
  }

  lemma {:induction false} SpliceNodes(c: Context, t: Tree, u: Tree)
    requires Single(t, u) && Distinct(Plug(c, t))
    ensures var z := Plug(c, Recoloured(u, t.red));
            Distinct(z) && Nodes(z) == Nodes(Plug(c, t)) - {t.node} && t.node !in Nodes(u)
    ensures Distinct(u) && Nodes(u) !! ContextNodes(c) && t.node !in ContextNodes(c)
  {
    PlugNodes(c, t);
    PlugDistinct(c, t);
    PlugNodes(c, Recoloured(u, t.red));
    PlugDistinct(c, Recoloured(u, t.red));
  }

  lemma {:induction false} SpliceReads(mem: Memory, c: Context, t: Tree, u: Tree)
    requires Single(t, u) && Distinct(Plug(c, t)) && Fits(mem, Plug(c, t))
    ensures t.node in mem && mem[t.node] == Fields(Root(t.left), Root(t.right), Owner(c, NULL), t.red)
    ensures u.Branch? ==> u.node in mem && mem[u.node] == Fields(Root(u.left), Root(u.right), t.node, u.red)
    ensures c.In? ==> c.node in mem && mem[c.node] == FrameAt(c, NULL, t.node)
    ensures c.In? ==> c.node != t.node && Root(c.sibling) != t.node && c.node != Root(u)
  {
    SubtreeReads(mem, c, t);
    SpliceNodes(c, t, u);
    PlugNodes(c, t);
    if u.Branch? { PlugAt(c, t, NULL, u.node); }
    if c.In? { FrameReads(mem, c, t); }
  }

  /** Inside the subtree that moves up, only its root changes. */
  lemma {:induction false} SpliceInner(c: Context, t: Tree, u: Tree, n: Node)
    requires Single(t, u) && Distinct(Plug(c, t)) && n in Nodes(u)
    ensures n in Nodes(Plug(c, t)) && n in Nodes(Plug(c, Recoloured(u, t.red)))
    ensures At(Plug(c, Recoloured(u, t.red)), NULL, n) ==
            if n == u.node then At(Plug(c, t), NULL, n).(parent := Owner(c, NULL), red := t.red)
            else At(Plug(c, t), NULL, n)
  {
    SpliceNodes(c, t, u);
    PlugNodes(c, t);
    PlugNodes(c, Recoloured(u, t.red));
    PlugAt(c, t, NULL, n);
    PlugAt(c, Recoloured(u, t.red), NULL, n);
    AtOtherParent(u, t.node, Owner(c, NULL), n);
  }

  /** Outside, only the child pointer of the owner changes. */
  lemma {:induction false} SpliceOuter(c: Context, t: Tree, u: Tree, n: Node)
    requires Single(t, u) && Distinct(Plug(c, t)) && n in ContextNodes(c)
    ensures n in Nodes(Plug(c, t)) && n in Nodes(Plug(c, Recoloured(u, t.red)))
    ensures At(Plug(c, Recoloured(u, t.red)), NULL, n) ==
            if n == c.node then ChangeChild(At(Plug(c, t), NULL, n), t.node, Root(u)) else At(Plug(c, t), NULL, n)
  {
    SpliceNodes(c, t, u);
    PlugNodes(c, t);
    PlugDistinct(c, t);
    PlugNodes(c, Recoloured(u, t.red));
    PlugAt(c, t, NULL, n);
    PlugAt(c, Recoloured(u, t.red), NULL, n);
    ContextAtOtherHole(c, NULL, t.node, Root(u), n);
    assert t.node in Nodes(t);
  }

  lemma {:induction false} SpliceFits(mem: Memory, c: Context, t: Tree, u: Tree)
    requires Single(t, u) && Distinct(Plug(c, t)) && Fits(mem, Plug(c, t))
    ensures t.node in mem && (u.Branch? ==> u.node in mem) && mem[t.node].parent == Owner(c, NULL)
            && (c.In? ==> c.node in mem)
    ensures Fits(Spliced(mem, t.node, Root(u)), Plug(c, Recoloured(u, t.red)))
    ensures c.In? ==> Root(Plug(c, Recoloured(u, t.red))) == Root(Plug(c, t))
  {
    var v := Recoloured(u, t.red);
    SpliceReads(mem, c, t, u);
    SpliceNodes(c, t, u);
    if c.In? { PlugRoot(c, t, v); }
    forall n | n in Nodes(Plug(c, v)) ensures n in mem && Spliced(mem, t.node, Root(u))[n] == At(Plug(c, v), NULL, n) {
      PlugNodes(c, v);
      if n in Nodes(u) { SpliceInner(c, t, u, n); } else { SpliceOuter(c, t, u, n); }
    }
  }

  // ----- the successor takes the place of the node -----

  /** b's struct becomes a's, and a's neighbours point to b. */
  ghost function Renamed(mem: Memory, a: Node, b: Node): Memory
    requires a in mem && (mem[a].left != NULL ==> mem[a].left in mem) && (mem[a].right != NULL ==> mem[a].right in mem)
    requires mem[a].parent != NULL ==> mem[a].parent in mem
  {
    var f := mem[a];
    var m1 := mem[b := f];
    var m2 := if f.left == NULL then m1 else m1[f.left := mem[f.left].(parent := b)];
    var m3 := if f.right == NULL then m2 else m2[f.right := mem[f.right].(parent := b)];
    if f.parent == NULL then m3 else m3[f.parent := ChangeChild(mem[f.parent], a, b)]
  }

  lemma {:induction false} RenameNodes(c: Context, a: Node, b: Node, red: bool, l: Tree, r: Tree)
    requires var w := Plug(c, Branch(a, red, l, r)); Distinct(w) && b !in Nodes(w)
    ensures var w, z := Plug(c, Branch(a, red, l, r)), Plug(c, Branch(b, red, l, r));
            Distinct(z) && Nodes(z) == Nodes(w) - {a} + {b}
    ensures a !in Nodes(l) && a !in Nodes(r) && a !in ContextNodes(c) && b !in Nodes(l) && b !in Nodes(r)
            && b !in ContextNodes(c)
    ensures Nodes(l) !! Nodes(r) && Nodes(l) !! ContextNodes(c) && Nodes(r) !! ContextNodes(c)
  {
    PlugNodes(c, Branch(a, red, l, r));
    PlugNodes(c, Branch(b, red, l, r));
    PlugDistinct(c, Branch(a, red, l, r));
    PlugDistinct(c, Branch(b, red, l, r));
  }

  lemma {:induction false} RenameInner(c: Context, a: Node, b: Node, red: bool, l: Tree, r: Tree, u: Tree, n: Node)
    requires var w := Plug(c, Branch(a, red, l, r)); Distinct(w) && b !in Nodes(w)
    requires (u == l || u == r) && n in Nodes(u)
    ensures n in Nodes(Plug(c, Branch(a, red, l, r))) && n in Nodes(Plug(c, Branch(b, red, l, r)))
    ensures At(Plug(c, Branch(b, red, l, r)), NULL, n) ==
            if n == u.node then At(Plug(c, Branch(a, red, l, r)), NULL, n).(parent := b)
            else At(Plug(c, Branch(a, red, l, r)), NULL, n)
  {
    RenameNodes(c, a, b, red, l, r);
    PlugNodes(c, Branch(a, red, l, r));
    PlugNodes(c, Branch(b, red, l, r));
    PlugAt(c, Branch(a, red, l, r), NULL, n);
    PlugAt(c, Branch(b, red, l, r), NULL, n);
    AtOtherParent(u, a, b, n);
  }

  lemma {:induction false} RenameOuter(c: Context, a: Node, b: Node, red: bool, l: Tree, r: Tree, n: Node)
    requires var w := Plug(c, Branch(a, red, l, r)); Distinct(w) && b !in Nodes(w)
    requires n in ContextNodes(c)
    ensures n in Nodes(Plug(c, Branch(a, red, l, r))) && n in Nodes(Plug(c, Branch(b, red, l, r)))
    ensures At(Plug(c, Branch(b, red, l, r)), NULL, n) ==
            if n == c.node then ChangeChild(At(Plug(c, Branch(a, red, l, r)), NULL, n), a, b)
            else At(Plug(c, Branch(a, red, l, r)), NULL, n)
  {
    RenameNodes(c, a, b, red, l, r);
    PlugNodes(c, Branch(a, red, l, r));
    PlugNodes(c, Branch(b, red, l, r));
    PlugAt(c, Branch(a, red, l, r), NULL, n);
    PlugAt(c, Branch(b, red, l, r), NULL, n);
    ContextAtOtherHole(c, NULL, a, b, n);
  }

  lemma {:induction false} RenameReads(mem: Memory, c: Context, a: Node, red: bool, l: Tree, r: Tree)
    requires var w := Plug(c, Branch(a, red, l, r)); Distinct(w) && Fits(mem, w)
    ensures a in mem && mem[a] == Fields(Root(l), Root(r), Owner(c, NULL), red)
    ensures (l.Branch? ==> l.node in mem && mem[l.node] == Fields(Root(l.left), Root(l.right), a, l.red))
    ensures (r.Branch? ==> r.node in mem && mem[r.node] == Fields(Root(r.left), Root(r.right), a, r.red))
    ensures (c.In? ==> c.node in mem && mem[c.node] == FrameAt(c, NULL, a))
  {
    FrameReads(mem, In(Left, a, red, r, c), l);
    if c.In? { FrameReads(mem, c, Branch(a, red, l, r)); }
  }

  lemma {:induction false} RenameFits(mem: Memory, c: Context, a: Node, b: Node, red: bool, l: Tree, r: Tree)
    requires var w := Plug(c, Branch(a, red, l, r)); Distinct(w) && Fits(mem, w) && b !in Nodes(w)
    ensures a in mem && (l.Branch? ==> l.node in mem) && (r.Branch? ==> r.node in mem) && (c.In? ==> c.node in mem)
    ensures mem[a] == Fields(Root(l), Root(r), Owner(c, NULL), red)
    ensures Fits(Renamed(mem, a, b), Plug(c, Branch(b, red, l, r)))
    ensures c.In? ==> Root(Plug(c, Branch(b, red, l, r))) == Root(Plug(c, Branch(a, red, l, r)))
  {
    RenameReads(mem, c, a, red, l, r);
    RenameNodes(c, a, b, red, l, r);
    var z := Plug(c, Branch(b, red, l, r));
    if c.In? { PlugRoot(c, Branch(a, red, l, r), Branch(b, red, l, r)); }
    forall n | n in Nodes(z) ensures (n in mem || n == b) && Renamed(mem, a, b)[n] == At(z, NULL, n) {
      PlugNodes(c, Branch(b, red, l, r));
      if n == b { PlugAt(c, Branch(b, red, l, r), NULL, b); }
      else if n in Nodes(l) { RenameInner(c, a, b, red, l, r, l, n); }
      else if n in Nodes(r) { RenameInner(c, a, b, red, l, r, r, n); }
      else { RenameOuter(c, a, b, red, l, r, n); }
    }
  }

  // ----- contents and colours after a removal -----

  function RemoveAt(s: seq<Node>, i: nat): (r: seq<Node>)
    requires i < |s|
    ensures |r| == |s| - 1 && forall j :: 0 <= j < |r| ==> r[j] == if j < i then s[j] else s[j + 1]
  {
    s[..i] + s[i + 1..]
  }

  /** `after` is `before` with one occurrence of n taken out. */
  ghost predicate Removed(before: seq<Node>, after: seq<Node>, n: Node) {
    exists i :: 0 <= i < |before| && before[i] == n && after == RemoveAt(before, i)
  }

  lemma RemoveAtSorted(key: Order, s: seq<Node>, i: nat)
    requires i < |s| && Sorted(key, s)
    ensures Sorted(key, RemoveAt(s, i))
  {
    var r := RemoveAt(s, i);
    forall j, k | 0 <= j < k < |r| ensures key(r[j]) < key(r[k]) {
      assert r[j] == if j < i then s[j] else s[j + 1];
      assert r[k] == if k < i then s[k] else s[k + 1];
    }
  }

  lemma RemovedSorted(key: Order, before: seq<Node>, after: seq<Node>, n: Node)
    requires Removed(before, after, n) && Sorted(key, before)
    ensures Sorted(key, after)
  {
    var i :| 0 <= i < |before| && before[i] == n && after == RemoveAt(before, i);
    RemoveAtSorted(key, before, i);
  }

  lemma RemovedIntro(a: seq<Node>, n: Node, b: seq<Node>)
    ensures Removed(a + [n] + b, a + b, n)
  {
    var w := a + [n] + b;
    assert w[|a|] == n && w[..|a|] == a && w[|a| + 1..] == b;
  }

  lemma RemovedFromMiddle(a: seq<Node>, n: Node, m: seq<Node>, b: seq<Node>)
    ensures Removed(a + ([n] + m) + b, a + m + b, n)
    ensures Removed(a + (m + [n]) + b, a + m + b, n)
  {
    hide Removed;
    RemovedIntro(a, n, m + b);
    RemovedIntro(a + m, n, b);
    Regrouped(a, n, m, b);
  }

  lemma Regrouped(a: seq<Node>, n: Node, m: seq<Node>, b: seq<Node>)
    ensures a + ([n] + m) + b == a + [n] + (m + b) && a + m + b == a + (m + b) && a + (m + [n]) + b == (a + m) + [n] + b
  {
  }

  lemma {:induction false} SingleInorder(t: Tree, u: Tree)
    requires Single(t, u)
    ensures Inorder(t) == [t.node] + Inorder(u) || Inorder(t) == Inorder(u) + [t.node]
  {
  }

  lemma {:induction false} SpliceContents(c: Context, t: Tree, u: Tree)
    requires Single(t, u)
    ensures Removed(Inorder(Plug(c, t)), Inorder(Plug(c, Recoloured(u, t.red))), t.node)
  {
    InorderPlug(c, t);
    InorderPlug(c, Recoloured(u, t.red));
    assert Inorder(Recoloured(u, t.red)) == Inorder(u);
    RemovedFromMiddle(Before(c), t.node, Inorder(u), After(c));
    SingleInorder(t, u);
  }

  /** The invariant of `__rb_erase_fix`: the subtree in the hole lacks one black node, all else is well. */
  ghost predicate Erasing(mem: Memory, root: Ptr, c: Context, t: Tree) {
    && c.In? && RedBlack(t) && !Red(t) && Accepts(c, BlackHeight(t) + 1)
    && Distinct(Plug(c, t)) && Fits(mem, Plug(c, t)) && root == Root(Plug(c, t))
  }

  /** After `__rb_erase`: either the tree is red-black again or the fix-up has to start below `rebalance`. */
  ghost predicate Erased(mem: Memory, root: Ptr, rebalance: Ptr, c: Context, z: Tree) {
    if rebalance == NULL then Rebuilt(mem, root, z, z)
    else Erasing(mem, root, c, Leaf) && rebalance == Owner(c, NULL) && z == Plug(c, Leaf)
  }

  lemma {:induction false} SingleColours(c: Context, t: Tree, u: Tree)
    requires Single(t, u) && RedBlack(Plug(c, t)) && !Red(Plug(c, t))
    ensures u.Branch? ==> RedBlack(Plug(c, Recoloured(u, t.red))) && !Red(Plug(c, Recoloured(u, t.red)))
    ensures u.Branch? ==> !t.red
    ensures u.Leaf? && (t.red || c.Top?) ==> RedBlack(Plug(c, Leaf)) && !Red(Plug(c, Leaf))
    ensures u.Leaf? && !t.red ==> Accepts(c, 1)
  {
    PlugAccepts(c, t);
    if u.Branch? {
      PlugRedBlack(c, u.(red := t.red));
    } else if t.red || c.Top? {
      PlugRedBlack(c, Leaf);
    }
  }

  /** A node with at most one child: the state `__rb_erase` leaves. */
  lemma {:induction false} SinglePlan(mem: Memory, c: Context, t: Tree, u: Tree)
    requires Single(t, u) && Rebuilt(mem, Root(Plug(c, t)), Plug(c, t), Plug(c, t))
    ensures t.node in mem && mem[t.node] == Fields(Root(t.left), Root(t.right), Owner(c, NULL), t.red)
    ensures (u.Branch? ==> u.node in mem) && (c.In? ==> c.node in mem)
    ensures var z := Plug(c, Recoloured(u, t.red));
            && Nodes(z) == Nodes(Plug(c, t)) - {t.node} && Removed(Inorder(Plug(c, t)), Inorder(z), t.node)
            && Erased(Spliced(mem, t.node, Root(u)), if c.Top? then Root(u) else Root(Plug(c, t)),
                      if u.Leaf? && !t.red then Owner(c, NULL) else NULL, c, z)
  {
    SpliceReads(mem, c, t, u);
    SpliceNodes(c, t, u);
    SpliceFits(mem, c, t, u);
    SpliceContents(c, t, u);
    SingleColours(c, t, u);
  }

  // ----- a node with two children -----

  ghost function Append(a: Context, b: Context): Context {
    match a
    case Top => b
    case In(side, n, red, sib, up) => In(side, n, red, sib, Append(up, b))
  }

  lemma {:induction false} AppendPlug(a: Context, b: Context, t: Tree)
    ensures Plug(Append(a, b), t) == Plug(b, Plug(a, t))
    decreases a
  {
    if a.In? { AppendPlug(a.up, b, Join(a.side, a.node, a.red, t, a.sibling)); }
  }

  /** The way down to the leftmost node. */
  ghost predicate LeftSpine(c: Context) {
    c.In? ==> c.side.Left? && LeftSpine(c.up)
  }

  lemma {:induction false} LeftSpineBefore(c: Context)
    requires LeftSpine(c)
    ensures Before(c) == []
  {
    if c.In? { LeftSpineBefore(c.up); }
  }

  /** Which node sits in a frame does not matter for colours and heights. */
  lemma {:induction false} AppendAccepts(rc: Context, a: Node, b: Node, red: bool, l: Tree, c: Context, h: nat)
    requires Accepts(Append(rc, In(Right, a, red, l, c)), h)
    ensures Accepts(Append(rc, In(Right, b, red, l, c)), h)
    ensures RedAbove(Append(rc, In(Right, b, red, l, c))) == RedAbove(Append(rc, In(Right, a, red, l, c)))
    decreases rc
  {
    if rc.In? { AppendAccepts(rc.up, a, b, red, l, c, if rc.red then h else h + 1); }
  }

  /** The tree after the successor has been taken out of the right subtree and put in the node's place. */
  ghost function Succeeded(c: Context, red: bool, l: Tree, rc: Context, s: Tree): Tree
    requires s.Branch?
  {
    Plug(c, Branch(s.node, red, l, Plug(rc, Recoloured(s.right, s.red))))
  }

  ghost function HoleContext(c: Context, n: Node, red: bool, l: Tree, rc: Context): Context {
    Append(rc, In(Right, n, red, l, c))
  }

  lemma {:induction false} RightShrinks(rc: Context, s: Tree)
    requires s.Branch? && s.left == Leaf && LeftSpine(rc)
    ensures Inorder(Plug(rc, s)) == [s.node] + Inorder(Plug(rc, Recoloured(s.right, s.red)))
  {
    InorderPlug(rc, s);
    InorderPlug(rc, Recoloured(s.right, s.red));
    LeftSpineBefore(rc);
    assert [] + ([] + [s.node] + Inorder(s.right)) + After(rc) == [s.node] + ([] + Inorder(s.right) + After(rc));
  }

  lemma RemovedBetween(b: seq<Node>, l: seq<Node>, n: Node, r: seq<Node>, a: seq<Node>)
    ensures Removed(b + (l + [n] + r) + a, b + (l + r) + a, n)
  {
    hide Removed;
    RemovedIntro(b + l, n, r + a);
    assert b + (l + [n] + r) + a == (b + l) + [n] + (r + a) && b + (l + r) + a == (b + l) + (r + a);
  }

  lemma {:induction false} SuccessorContents(c: Context, n: Node, red: bool, l: Tree, rc: Context, s: Tree)
    requires s.Branch? && s.left == Leaf && LeftSpine(rc)
    ensures Removed(Inorder(Plug(c, Branch(n, red, l, Plug(rc, s)))), Inorder(Succeeded(c, red, l, rc, s)), n)
  {
    hide Removed, Plug, Before, After;
    var r, r1 := Plug(rc, s), Plug(rc, Recoloured(s.right, s.red));
    RightShrinks(rc, s);
    InorderPlug(c, Branch(n, red, l, r));
    InorderPlug(c, Branch(s.node, red, l, r1));
    assert Inorder(l) + [s.node] + Inorder(r1) == Inorder(l) + Inorder(r);
    RemovedBetween(Before(c), Inorder(l), n, Inorder(r), After(c));
  }

  lemma {:induction false} SuccessorColours(c: Context, n: Node, red: bool, l: Tree, rc: Context, s: Tree)
    requires s.Branch? && s.left == Leaf
    requires var w := Plug(c, Branch(n, red, l, Plug(rc, s))); RedBlack(w) && !Red(w)
    ensures var z := Succeeded(c, red, l, rc, s); (s.right.Branch? || s.red) ==> RedBlack(z) && !Red(z)
    ensures s.right.Leaf? && !s.red ==> Accepts(HoleContext(c, s.node, red, l, rc), 1)
    ensures s.right.Branch? ==> !s.red
    ensures Succeeded(c, red, l, rc, s) == Plug(HoleContext(c, s.node, red, l, rc), Recoloured(s.right, s.red))
  {
    var cs, cz := HoleContext(c, n, red, l, rc), HoleContext(c, s.node, red, l, rc);
    AppendPlug(rc, In(Right, n, red, l, c), s);
    AppendPlug(rc, In(Right, s.node, red, l, c), Recoloured(s.right, s.red));
    PlugAccepts(cs, s);
    AppendAccepts(rc, n, s.node, red, l, c, BlackHeight(s));
    if s.right.Branch? || s.red { PlugRedBlack(cz, Recoloured(s.right, s.red)); }
  }

  /** First half: the successor, which has no left child, is spliced out. */
  lemma {:induction false} SuccessorSpliced(mem: Memory, c: Context, n: Node, red: bool, l: Tree, rc: Context, s: Tree)
    requires s.Branch? && s.left == Leaf
    requires var w := Plug(c, Branch(n, red, l, Plug(rc, s))); Distinct(w) && Fits(mem, w)
    ensures s.node in mem && (s.right.Branch? ==> s.right.node in mem) && mem[s.node].parent in mem
            && mem[s.node].parent != NULL
    ensures mem[s.node] == Fields(NULL, Root(s.right), Owner(rc, n), s.red)
    ensures var w1 := Plug(c, Branch(n, red, l, Plug(rc, Recoloured(s.right, s.red))));
            && Distinct(w1) && Fits(Spliced(mem, s.node, Root(s.right)), w1)
            && Nodes(w1) == Nodes(Plug(c, Branch(n, red, l, Plug(rc, s)))) - {s.node}
  {
    var cs := HoleContext(c, n, red, l, rc);
    AppendPlug(rc, In(Right, n, red, l, c), s);
    AppendPlug(rc, In(Right, n, red, l, c), Recoloured(s.right, s.red));
    SpliceNodes(cs, s, s.right);
    SpliceFits(mem, cs, s, s.right);
    SpliceReads(mem, cs, s, s.right);
  }

  /** The memory `__rb_erase` leaves: the successor spliced out and then put in the node's place. */
  lemma {:induction false} SuccessorFits(mem: Memory, c: Context, n: Node, red: bool, l: Tree, rc: Context, s: Tree)
    requires s.Branch? && s.left == Leaf
    requires var w := Plug(c, Branch(n, red, l, Plug(rc, s))); Distinct(w) && Fits(mem, w)
    requires s.node in mem && (s.right.Branch? ==> s.right.node in mem) && mem[s.node].parent in mem
    ensures var m1 := Spliced(mem, s.node, Root(s.right)); var r1 := Plug(rc, Recoloured(s.right, s.red));
            && n in m1 && m1[n] == Fields(Root(l), Root(r1), Owner(c, NULL), red)
            && (l.Branch? ==> l.node in m1) && (r1.Branch? ==> r1.node in m1) && (c.In? ==> c.node in m1)
            && Fits(Renamed(m1, n, s.node), Succeeded(c, red, l, rc, s))
  {
    SuccessorSpliced(mem, c, n, red, l, rc, s);
    RenameFits(Spliced(mem, s.node, Root(s.right)), c, n, s.node, red, l, Plug(rc, Recoloured(s.right, s.red)));
  }

  lemma {:induction false} SuccessorNodes(mem: Memory, c: Context, n: Node, red: bool, l: Tree, rc: Context, s: Tree)
    requires s.Branch? && s.left == Leaf
    requires var w := Plug(c, Branch(n, red, l, Plug(rc, s))); Distinct(w) && Fits(mem, w)
    ensures var w, z := Plug(c, Branch(n, red, l, Plug(rc, s))), Succeeded(c, red, l, rc, s);
            && Distinct(z) && Nodes(z) == Nodes(w) - {n} && (c.In? ==> Root(z) == Root(w)) && s.node != n
                  && s.node in Nodes(w)
  {
    hide Plug, Nodes, Distinct, Fits, Spliced;
    SuccessorApart(c, n, red, l, rc, s);
    SuccessorSpliced(mem, c, n, red, l, rc, s);
    RenameNodes(c, n, s.node, red, l, Plug(rc, Recoloured(s.right, s.red)));
    if c.In? {
      PlugRoot(c, Branch(n, red, l, Plug(rc, s)), Branch(s.node, red, l, Plug(rc, Recoloured(s.right, s.red))));
    }
  }

  lemma {:induction false} SuccessorApart(c: Context, n: Node, red: bool, l: Tree, rc: Context, s: Tree)
    requires s.Branch? && Distinct(Plug(c, Branch(n, red, l, Plug(rc, s))))
    ensures s.node != n && {n, s.node} <= Nodes(Plug(c, Branch(n, red, l, Plug(rc, s))))
  {
    hide Plug;
    PlugNodes(c, Branch(n, red, l, Plug(rc, s)));
    PlugNodes(rc, s);
    PlugDistinct(c, Branch(n, red, l, Plug(rc, s)));
  }

  // ----- the fix-up loop -----

  lemma {:induction false} ErasingReads(mem: Memory, root: Ptr, c: Context, t: Tree)
    requires Erasing(mem, root, c, t)
    ensures c.sibling.Branch? && c.node in mem && mem[c.node] == FrameAt(c, NULL, Root(t))
    ensures Root(t) != mem[c.node].right <==> c.side.Left?
    ensures var s := c.sibling;
            && s.node in mem && mem[s.node] == Fields(Root(s.left), Root(s.right), c.node, s.red)
            && (s.left.Branch? ==>
                  s.left.node in mem
                  && mem[s.left.node] == Fields(Root(s.left.left), Root(s.left.right), s.node, s.left.red))
            && (s.right.Branch? ==>
                  s.right.node in mem
                  && mem[s.right.node] == Fields(Root(s.right.left), Root(s.right.right), s.node, s.right.red))
  {
    var s := c.sibling;
    FrameReads(mem, c, t);
    var below := In(Opposite(c.side), c.node, c.red, t, c.up);
    assert Plug(below, s) == Plug(c, t);
    FrameReads(mem, In(Left, s.node, s.red, s.right, below), s.left);
  }

  /** Case 1: a red sibling is rotated above the parent, which becomes red; the hole keeps its deficit. */
  lemma {:induction false} SiblingRedPlan(mem: Memory, root: Ptr, h: Side, p: Node, y: Node, far: Tree, near: Tree,
                                          up: Context, t: Tree)
    requires Erasing(mem, root, In(h, p, false, Join(Opposite(h), y, true, far, near), up), t)
    ensures Rotatable(mem, p, y, Root(near)) && !mem[p].red && mem[p].parent == Owner(up, NULL) && near.Branch?
            && !near.red && !mem[near.node].red
    ensures var c' := In(h, p, true, near, In(h, y, false, far, up));
            && Erasing(Rotated(mem, Opposite(h), p, true, y, false, Root(near)), NewRoot(root, up, y), c', t)
            && Inorder(Plug(c', t)) == Inorder(Plug(In(h, p, false, Join(Opposite(h), y, true, far, near), up), t))
  {
    var s := Opposite(h);
    var c' := In(h, p, true, near, In(h, y, false, far, up));
    assert Plug(In(h, p, false, Join(s, y, true, far, near), up), t) ==
      Plug(up, RotateBefore(s, p, false, y, true, far, near, t));
    assert Plug(c', t) == Plug(up, RotateAfter(s, p, true, y, false, far, near, t));
    RotateStep(mem, up, s, p, false, y, true, far, near, t, true, false);
    RotateContents(up, s, p, false, y, true, far, near, t, true, false);
  }

  lemma {:induction false} BlackNephewsColours(c: Context, t: Tree)
    requires c.In? && RedBlack(t) && !Red(t) && Accepts(c, BlackHeight(t) + 1)
    requires c.sibling.Branch? && !Red(c.sibling) && !Red(c.sibling.left) && !Red(c.sibling.right)
    ensures var t' := Join(c.side, c.node, false, t, c.sibling.(red := true));
            && RedBlack(t') && !Red(t') && Accepts(c.up, BlackHeight(t') + if c.red then 0 else 1)
            && (c.red ==> RedBlack(Plug(c.up, t')) && !Red(Plug(c.up, t')))
  {
    if c.red { PlugRedBlack(c.up, Join(c.side, c.node, false, t, c.sibling.(red := true))); }
  }

  lemma {:induction false} BlackNephewsFits(mem: Memory, c: Context, t: Tree)
    requires c.In? && c.sibling.Branch? && Distinct(Plug(c, t)) && Fits(mem, Plug(c, t))
    ensures c.sibling.node in mem && c.node in mem && c.sibling.node != c.node
    ensures mem[c.node].red == c.red && mem[c.node].parent == Owner(c.up, NULL) && mem[c.sibling.node].parent == c.node
    ensures var t' := Join(c.side, c.node, false, t, c.sibling.(red := true));
            && Distinct(Plug(c.up, t')) && Root(Plug(c.up, t')) == Root(Plug(c, t))
                  && Inorder(Plug(c.up, t')) == Inorder(Plug(c, t))
            && Fits(Painted(Painted(mem, c.sibling.node, true), c.node, false), Plug(c.up, t'))
  {
    var sib := c.sibling.(red := true);
    var t0 := Join(c.side, c.node, c.red, t, sib);
    var e := In(Opposite(c.side), c.node, c.red, t, c.up);
    assert Plug(e, c.sibling) == Plug(c, t);
    assert Plug(e, sib) == Plug(c.up, t0);
    PaintedFits(mem, e, c.sibling, true);
    PaintedFits(Painted(mem, c.sibling.node, true), c.up, t0, false);
    InorderPlug(c.up, Join(c.side, c.node, c.red, t, c.sibling));
    InorderPlug(c.up, t0.(red := false));
    FrameReads(mem, c, t);
  }

  /** Case 2: a black sibling with black children becomes red; the deficit is repaid by a red parent or moves up. */
  lemma {:induction false} BlackNephewsPlan(mem: Memory, root: Ptr, c: Context, t: Tree)
    requires Erasing(mem, root, c, t) && c.sibling.Branch? && !Red(c.sibling) && !Red(c.sibling.left)
             && !Red(c.sibling.right)
    ensures c.sibling.node in mem && c.node in mem && c.sibling.node != c.node
    ensures mem[c.node].red == c.red && mem[c.node].parent == Owner(c.up, NULL) && mem[c.sibling.node].parent == c.node
    ensures var t' := Join(c.side, c.node, false, t, c.sibling.(red := true));
            var m := Painted(Painted(mem, c.sibling.node, true), c.node, false);
            && (c.red || c.up.Top? ==> Rebuilt(m, root, Plug(c, t), Plug(c.up, t')))
            && (!c.red && c.up.In? ==> Erasing(m, root, c.up, t') && Inorder(Plug(c.up, t')) == Inorder(Plug(c, t)))
  {
    BlackNephewsColours(c, t);
    BlackNephewsFits(mem, c, t);
  }

  /** The far nephew is made black below its new parent. */
  ghost function Blackened(mem: Memory, f: Node, y: Node): Memory
    requires f in mem
  {
    mem[f := mem[f].(parent := y, red := false)]
  }

  lemma {:induction false} FarRedColours(h: Side, p: Node, pr: bool, y: Node, far: Tree, near: Tree, up: Context,
                                         t: Tree)
    requires Red(far) && RedBlack(t)
             && Accepts(In(h, p, pr, Join(Opposite(h), y, false, far, near), up), BlackHeight(t) + 1)
    requires !Red(t)
    ensures var z := Plug(up, RotateAfter(Opposite(h), p, false, y, pr, far.(red := false), near, t));
            RedBlack(z) && !Red(z)
  {
    assert RedBlack(far) && RedBlack(near) && BlackHeight(far) == BlackHeight(near);
    var lower := Join(h, p, false, t, near);
    assert RedBlack(lower) && RedBlack(far.(red := false)) && BlackHeight(lower) == BlackHeight(far) + 1;
    PlugRedBlack(up, RotateAfter(Opposite(h), p, false, y, pr, far.(red := false), near, t));
  }

  /** Case 4: the sibling is rotated above the parent and takes its colour; parent and far nephew become black. */
  lemma {:induction false} FarRedPlan(mem: Memory, root: Ptr, h: Side, p: Node, pr: bool, y: Node, far: Tree,
                                      near: Tree, up: Context, t: Tree)
    requires Red(far) && Erasing(mem, root, In(h, p, pr, Join(Opposite(h), y, false, far, near), up), t)
    ensures Rotatable(mem, p, y, Root(near)) && mem[p].red == pr && mem[p].parent == Owner(up, NULL)
    ensures far.node in mem && far.node != p && far.node != y && far.node != Root(near)
            && (up.In? ==> far.node != up.node)
    ensures var w := Plug(In(h, p, pr, Join(Opposite(h), y, false, far, near), up), t);
            Rebuilt(Blackened(Rotated(mem, Opposite(h), p, false, y, pr, Root(near)), far.node, y),
                NewRoot(root, up, y), w,
                    Plug(up, RotateAfter(Opposite(h), p, false, y, pr, far.(red := false), near, t)))
  {
    var s := Opposite(h);
    assert Plug(In(h, p, pr, Join(s, y, false, far, near), up), t) ==
      Plug(up, RotateBefore(s, p, pr, y, false, far, near, t));
    RotateStep(mem, up, s, p, pr, y, false, far, near, t, false, pr);
    RotateWholeReads(up, s, p, pr, y, false, far, near, t, false, pr);
    RotateContents(up, s, p, pr, y, false, far, near, t, false, pr);
    FarPainted(Rotated(mem, s, p, false, y, pr, Root(near)), up, s, p, false, y, pr, far, near, t);
    FarRedColours(h, p, pr, y, far, near, up, t);
  }

  lemma {:induction false} FarPainted(mem: Memory, up: Context, s: Side, p: Node, pr: bool, y: Node, yr: bool,
                                      far: Tree, near: Tree, t: Tree)
    requires far.Branch? && Distinct(Plug(up, RotateAfter(s, p, pr, y, yr, far, near, t)))
             && Fits(mem, Plug(up, RotateAfter(s, p, pr, y, yr, far, near, t)))
    ensures far.node in mem
    ensures var w, z := Plug(up, RotateAfter(s, p, pr, y, yr, far, near, t)),
            Plug(up, RotateAfter(s, p, pr, y, yr, far.(red := false), near, t));
            Distinct(z) && Fits(Blackened(mem, far.node, y), z) && Root(z) == Root(w) && Inorder(z) == Inorder(w)
  {
    var e := In(s, y, yr, Join(Opposite(s), p, pr, t, near), up);
    FrameReads(mem, e, far);
    PaintedFits(mem, e, far, false);
    InorderPlug(e, far);
    InorderPlug(e, far.(red := false));
  }

  lemma {:induction false} NearRedColours(h: Side, p: Node, pr: bool, y: Node, far: Tree, m: Node, a: Tree, b: Tree,
                                          up: Context, t: Tree)
    requires RedBlack(t) && !Red(t) && !Red(far)
    requires Accepts(In(h, p, pr, Join(Opposite(h), y, false, far, Join(Opposite(h), m, true, a, b)), up),
             BlackHeight(t) + 1)
    ensures var z := Plug(up, DoubleAfter(Opposite(h), p, false, y, false, m, pr, a, b, t, far)); RedBlack(z) && !Red(z)
    ensures !Red(a) && !Red(b)
  {
    var inner := Join(Opposite(h), m, true, a, b);
    assert RedBlack(far) && RedBlack(inner) && BlackHeight(far) == BlackHeight(inner) == BlackHeight(t);
    assert RedBlack(a) && RedBlack(b) && BlackHeight(a) == BlackHeight(b) == BlackHeight(t);
    PlugRedBlack(up, DoubleAfter(Opposite(h), p, false, y, false, m, pr, a, b, t, far));
  }

  /** The memory between cases 3 and 4: m is below p and above y, whose parent pointer is stale. */
  ghost function NearLifted(mem: Memory, s: Side, p: Node, y: Node, m: Node, a: Ptr): Memory
    requires Rotatable(mem, y, m, a) && p in mem
  {
    var m1 := mem[y := WithChild(mem[y], Opposite(s), a)];
    var m2 := m1[m := WithChild(mem[m], s, y)];
    var m3 := if a == NULL then m2 else m2[a := mem[a].(parent := y)];
    m3[p := WithChild(m3[p], s, m)]
  }

  lemma BlackenedCommutes(mem: Memory, s: Side, x: Node, xr: bool, y: Node, yr: bool, b: Ptr, f: Node)
    requires Rotatable(mem, x, y, b) && f in mem && f != x && f != y && f != b && f != mem[x].parent
    ensures Rotatable(Blackened(mem, f, y), x, y, b)
    ensures Blackened(Rotated(mem, s, x, xr, y, yr, b), f, y) == Rotated(Blackened(mem, f, y), s, x, xr, y, yr, b)
  {
  }

  lemma HungFarThenSet(mem: Memory, s: Side, x: Node, xr: bool, y: Node, b: Ptr, f: Node)
    requires Rotatable(mem, x, y, b) && f in mem && f != x && f != y && f != b && f != mem[x].parent
    ensures ParentsSet(Blackened(Hung(mem, s, x, y, b), f, y), x, y, xr) ==
            Blackened(Rotated(mem, s, x, xr, y, mem[x].red, b), f, y)
  {
    BlackenedCommutes(mem, s, x, xr, y, mem[x].red, b, f);
    assert Blackened(Hung(mem, s, x, y, b), f, y) == Hung(Blackened(mem, f, y), s, x, y, b);
    HungThenSet(Blackened(mem, f, y), s, x, xr, y, b);
  }

  lemma NearLiftedSuffices(mem: Memory, s: Side, p: Node, y: Node, m: Node, mr: bool, a: Ptr, b: Ptr)
    requires DoublyRotatable(mem, s, p, y, m, a, b)
    ensures var lifted, half := NearLifted(mem, s, p, y, m, a), HalfLifted(mem, s, y, false, m, a);
            && Rotatable(lifted, p, m, b) && Rotatable(half, p, m, b)
            && Blackened(Rotated(lifted, s, p, false, m, mr, b), y, m) == Rotated(half, s, p, false, m, mr, b)
  {
    var lifted, half := NearLifted(mem, s, p, y, m, a), HalfLifted(mem, s, y, false, m, a);
    assert half == Blackened(lifted, y,
      m)[p := WithChild(lifted[p], s, y)][m := lifted[m].(parent := lifted[m].parent)];
    BlackenedCommutes(lifted, s, p, false, m, mr, b, y);
    RotatedIgnoresStale(Blackened(lifted, y, m), s, p, false, m, mr, b, y, lifted[m].parent);
  }

  /** Cases 3 and 4: a red near nephew is lifted above sibling and parent and takes the parent's colour. */
  lemma {:induction false} NearRedPlan(mem: Memory, root: Ptr, h: Side, p: Node, pr: bool, y: Node, far: Tree,
                                       m: Node, a: Tree, b: Tree, up: Context, t: Tree)
    requires !Red(far)
             && Erasing(mem, root, In(h, p, pr, Join(Opposite(h), y, false, far, Join(Opposite(h), m, true, a, b)), up),
             t)
    ensures p in mem && Rotatable(mem, y, m, Root(a)) && mem[p].red == pr && mem[p].parent == Owner(up, NULL)
            && (a.Branch? ==> !mem[a.node].red)
    ensures p != y && p != m && p != Root(a)
    ensures ChildOf(mem[m], Opposite(h)) == Root(a) && ChildOf(mem[m], h) == Root(b)
    ensures var lifted := NearLifted(mem, Opposite(h), p, y, m, Root(a));
            && Rotatable(lifted, p, m, Root(b)) && lifted[p].red == pr && lifted[p].parent == Owner(up, NULL)
                  && ChildOf(lifted[m], h) == Root(b)
            && y in lifted && y != Root(b) && (up.In? ==> y != up.node)
    ensures var w := Plug(In(h, p, pr, Join(Opposite(h), y, false, far, Join(Opposite(h), m, true, a, b)), up), t);
            var lifted := NearLifted(mem, Opposite(h), p, y, m, Root(a));
            Rebuilt(Blackened(Rotated(lifted, Opposite(h), p, false, m, lifted[p].red, ChildOf(lifted[m], h)), y, m),
                    NewRoot(root, up, m), w,
                        Plug(up, DoubleAfter(Opposite(h), p, false, y, false, m, pr, a, b, t, far)))
  {
    var s := Opposite(h);
    assert Plug(In(h, p, pr, Join(s, y, false, far, Join(s, m, true, a, b)), up), t)
        == Plug(up, DoubleBefore(s, p, pr, y, false, m, true, a, b, t, far));
    DoubleValues(mem, up, s, p, pr, y, false, m, true, a, b, t, far);
    DoubleReads(mem, up, s, p, pr, y, false, m, true, a, b, t, far);
    DoubleStep(mem, up, s, p, pr, y, false, m, true, a, b, t, far, false, false, pr);
    DoubleContents(up, s, p, pr, y, false, m, true, a, b, t, far, false, false, pr);
    NearLiftedSuffices(mem, s, p, y, m, pr, Root(a), Root(b));
    NearRedColours(h, p, pr, y, far, m, a, b, up, t);
  }

  // ----- the pointers `__rb_erase` follows when the node has two children -----

  /** `parent` is where the successor hangs; it is the successor itself when that is the right child. */
  ghost predicate Relinkable(mem: Memory, node: Node, succ: Node, parent: Node) {
    && node in mem && succ in mem && node != succ && mem[succ].left == NULL
    && mem[node].left != NULL && mem[node].left in mem && mem[node].right != NULL && mem[node].right in mem
          && mem[node].left != mem[node].right
    && mem[node].left !in {node, succ, parent, mem[succ].right, mem[node].parent} && mem[node].right !in {
          node, mem[succ].right, mem[node].parent}
    && (mem[node].parent != NULL ==> mem[node].parent in mem) && mem[node].parent !in {node, succ, parent}
    && (mem[succ].right != NULL ==> mem[succ].right in mem && !mem[succ].red && mem[succ].right != mem[node].parent)
          && mem[succ].right !in {node, succ, parent}
    && parent in mem && parent != node
    && (if parent == succ then mem[node].right == succ && mem[succ].parent == node
        else mem[node].right != succ && mem[succ].parent == parent && mem[parent].left == succ)
  }

  /** The struct of the node that leaves is not written. */
  ghost function Relinked(mem: Memory, node: Node, succ: Node, parent: Node): Memory
    requires Relinkable(mem, node, succ, parent)
  {
    Renamed(Spliced(mem, succ, mem[succ].right), node, succ)[node := mem[node]]
  }

  /** The writes before the node is touched: a successor deeper down gives its place to its right child. */
  ghost function Sunk(mem: Memory, node: Node, succ: Node, parent: Node): Memory
    requires Relinkable(mem, node, succ, parent)
  {
    if parent == succ then mem
    else
      var m1 := mem[parent := mem[parent].(left := mem[succ].right)];
      var m2 := m1[succ := m1[succ].(right := mem[node].right)];
      m2[mem[node].right := m2[mem[node].right].(parent := succ)]
  }

  /** The writes that put the successor in the node's place. */
  ghost function Raised(mem: Memory, node: Node, succ: Node, parent: Node, c2: Ptr): Memory
    requires node in mem && succ in mem && mem[node].left in mem && (c2 != NULL ==> c2 in mem)
             && (mem[node].parent != NULL ==> mem[node].parent in mem)
  {
    var f := mem[node];
    var m1 := mem[succ := mem[succ].(left := f.left)];
    var m2 := m1[f.left := m1[f.left].(parent := succ)];
    var m3 := if f.parent == NULL then m2 else m2[f.parent := ChangeChild(m2[f.parent], node, succ)];
    var m4 := m3[succ := m3[succ].(parent := f.parent, red := f.red)];
    if c2 == NULL then m4 else m4[c2 := m4[c2].(parent := parent, red := false)]
  }

  lemma RelinkWritesRight(mem: Memory, node: Node, succ: Node)
    requires Relinkable(mem, node, succ, succ)
    ensures Raised(mem, node, succ, succ, mem[succ].right) == Relinked(mem, node, succ, succ)
  {
  }

  lemma RelinkWritesDeep(mem: Memory, node: Node, succ: Node, parent: Node)
    requires Relinkable(mem, node, succ, parent) && parent != succ
    ensures Raised(Sunk(mem, node, succ, parent), node, succ, parent, mem[succ].right) ==
            Relinked(mem, node, succ, parent)
  {
  }

  /** Everything known when the successor has been found. */
  lemma {:induction false} SuccessorReads(mem: Memory, c: Context, n: Node, red: bool, l: Tree, rc: Context, s: Tree)
    requires s.Branch? && s.left == Leaf && LeftSpine(rc) && l.Branch?
    requires var w := Plug(c, Branch(n, red, l, Plug(rc, s))); Distinct(w) && Fits(mem, w) && RedBlack(w) && !Red(w)
    ensures Relinkable(mem, n, s.node, Owner(rc, s.node)) && mem[n].parent == Owner(c, NULL)
    ensures mem[s.node].right == Root(s.right) && mem[s.node].red == s.red
  {
    var r := Plug(rc, s);
    RenameReads(mem, c, n, red, l, r);
    SuccessorColours(c, n, red, l, rc, s);
    SuccessorSpliced(mem, c, n, red, l, rc, s);
    PlugNodes(c, Branch(n, red, l, r));
    PlugDistinct(c, Branch(n, red, l, r));
    PlugNodes(rc, s);
    PlugDistinct(rc, s);
    if rc.In? {
      PlugRoot(rc, s, Leaf);
      var cs := HoleContext(c, n, red, l, rc);
      AppendPlug(rc, In(Right, n, red, l, c), s);
      FrameReads(mem, cs, s);
    }
    assert Root(r) in Nodes(r);
    SpineRootNotChild(rc, s);
  }

  lemma {:induction false} SpineRootNotChild(rc: Context, s: Tree)
    requires s.Branch? && Distinct(Plug(rc, s))
    ensures Plug(rc, s).Branch? && (s.right.Branch? ==> Root(Plug(rc, s)) != s.right.node)
            && (rc.In? ==> Root(Plug(rc, s)) != s.node)
  {
    PlugDistinct(rc, s);
    PlugNodes(rc, s);
    if rc.In? {
      PlugRoot(rc, s, Leaf);
      PlugNodes(rc, Leaf);
    }
  }

  /** The root afterwards, and where the fix-up starts. */
  lemma {:induction false} SuccessorEnds(c: Context, n: Node, red: bool, l: Tree, rc: Context, s: Tree)
    requires s.Branch? && s.left == Leaf
    ensures var hole := HoleContext(c, s.node, red, l, rc); hole.In? && Owner(hole, NULL) == Owner(rc, s.node)
    ensures c.Top? ==> Root(Succeeded(c, red, l, rc, s)) == s.node
  {
  }

  /** The tree the pointer writes leave in memory. */
  lemma {:induction false} SuccessorState(mem: Memory, c: Context, n: Node, red: bool, l: Tree, rc: Context, s: Tree)
    requires s.Branch? && s.left == Leaf
    requires var w := Plug(c, Branch(n, red, l, Plug(rc, s))); Distinct(w) && Fits(mem, w)
    requires Relinkable(mem, n, s.node, Owner(rc, s.node)) && mem[s.node].right == Root(s.right)
    ensures var w, z := Plug(c, Branch(n, red, l, Plug(rc, s))), Succeeded(c, red, l, rc, s);
            && Distinct(z) && Nodes(z) == Nodes(w) - {n} && n !in Nodes(z) && Root(z) == NewRoot(Root(w), c, s.node)
            && Fits(Relinked(mem, n, s.node, Owner(rc, s.node)), z)
  {
    hide Fits, Distinct, Nodes, Spliced, Renamed, Plug;
    SuccessorFits(mem, c, n, red, l, rc, s);
    SuccessorNodes(mem, c, n, red, l, rc, s);
    SuccessorEnds(c, n, red, l, rc, s);
    FitsElsewhere(Renamed(Spliced(mem, s.node, Root(s.right)), n, s.node), Succeeded(c, red, l, rc, s), n, mem[n]);
  }

  /** What the whole of `__rb_erase` achieves in that case. */
  lemma {:induction false} SuccessorPlan(mem: Memory, c: Context, n: Node, red: bool, l: Tree, rc: Context, s: Tree)
    requires s.Branch? && s.left == Leaf && LeftSpine(rc)
    requires var w := Plug(c, Branch(n, red, l, Plug(rc, s))); Rebuilt(mem, Root(w), w, w)
    requires Relinkable(mem, n, s.node, Owner(rc, s.node)) && mem[s.node].right == Root(s.right)
    ensures var w, z := Plug(c, Branch(n, red, l, Plug(rc, s))), Succeeded(c, red, l, rc, s);
            && Nodes(z) == Nodes(w) - {n} && Removed(Inorder(w), Inorder(z), n)
            && n !in Nodes(z)
            && Erased(Relinked(mem, n, s.node, Owner(rc, s.node)), NewRoot(Root(w), c, s.node),
                      if s.right.Leaf? && !s.red then Owner(rc, s.node) else NULL,
                      HoleContext(c, s.node, red, l, rc), z)
  {
    hide Fits, Distinct, Nodes, RedBlack, Inorder, Accepts, Removed, Relinkable, Relinked, Plug, BlackHeight, LeftSpine;
    LeafBlack();
    SuccessorState(mem, c, n, red, l, rc, s);
    SuccessorContents(c, n, red, l, rc, s);
    SuccessorColours(c, n, red, l, rc, s);
    SuccessorEnds(c, n, red, l, rc, s);
  }

  lemma LeafBlack()
    ensures RedBlack(Leaf) && BlackHeight(Leaf) == 0
  {
  }

  lemma FitsElsewhere(mem: Memory, t: Tree, n: Node, f: Fields)
    requires Fits(mem, t) && n !in Nodes(t)
    ensures Fits(mem[n := f], t)
  {
  }
}
