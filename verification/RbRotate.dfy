/**
  Value-level effect of the pointer surgery in `src/common/rbtree.c`: which fields change when a
  subtree is recoloured, rotated once, or rotated twice, and that nothing else does.
 */
module RbRotate {
  import opened RbShape

  function Opposite(s: Side): Side {
    if s.Left? then Right else Left
  }

  function WithChild(f: Fields, s: Side, v: Ptr): Fields {
    if s.Left? then f.(left := v) else f.(right := v)
  }

  function ChildOf(f: Fields, s: Side): Ptr {
    if s.Left? then f.left else f.right
  }

  /** What `__rb_change_child` does to the fields of the parent. */
  function ChangeChild(f: Fields, oldChild: Ptr, newChild: Ptr): Fields {
    if f.left == oldChild then f.(left := newChild) else f.(right := newChild)
  }

  function Rehung(f: Fields, owner: bool, oldChild: Ptr, newChild: Ptr): Fields {
    if owner then ChangeChild(f, oldChild, newChild) else f
  }

  /** A subtree is replaced by another one over the same nodes: outside, only the owner's child pointer changes. */
  lemma {:induction false} ReplaceAt(c: Context, t: Tree, u: Tree, n: Node)
    requires Distinct(Plug(c, t)) && n in Nodes(Plug(c, t))
    requires Distinct(u) && Nodes(u) == Nodes(t) && t.Branch? && u.Branch?
    ensures Distinct(Plug(c, u)) && n in Nodes(Plug(c, u))
    ensures n in Nodes(t) ==> At(Plug(c, t), NULL, n) == At(t, Owner(c, NULL), n)
    ensures n in Nodes(u) ==> At(Plug(c, u), NULL, n) == At(u, Owner(c, NULL), n)
    ensures n !in Nodes(t) ==>
              At(Plug(c, u), NULL, n) == Rehung(At(Plug(c, t), NULL, n), n == Owner(c, NULL), t.node, u.node)
    ensures Owner(c, NULL) != NULL ==> Owner(c, NULL) !in Nodes(t) && Owner(c, NULL) in Nodes(Plug(c, t))
    ensures c.In? ==> Root(Plug(c, u)) == Root(Plug(c, t))
  {
    PlugNodes(c, t);
    PlugNodes(c, u);
    PlugDistinct(c, t);
    PlugDistinct(c, u);
    PlugAt(c, t, NULL, n);
    PlugAt(c, u, NULL, n);
    if c.In? { PlugRoot(c, t, u); }
    if n !in Nodes(t) {
      ContextAtOtherHole(c, NULL, t.node, u.node, n);
      assert c.In? && Root(c.sibling) != t.node;
    }
  }

  lemma {:induction false} PlugRoot(c: Context, t: Tree, u: Tree)
    requires c.In?
    ensures Root(Plug(c, u)) == Root(Plug(c, t)) != NULL
  {
    if c.up.In? {
      PlugRoot(c.up, Join(c.side, c.node, c.red, t, c.sibling), Join(c.side, c.node, c.red, u, c.sibling));
    }
  }

  /** One level of `At`, by side. */
  lemma {:induction false} JoinAt(s: Side, m: Node, red: bool, near: Tree, far: Tree, o: Ptr, n: Node)
    requires var j := Join(s, m, red, near, far); Distinct(j) && n in Nodes(j)
    ensures n == m ==> At(Join(s, m, red, near, far), o, n) ==
                       WithChild(WithChild(Fields(NULL, NULL, o, red), s, Root(near)), Opposite(s), Root(far))
    ensures n in Nodes(near) ==> At(Join(s, m, red, near, far), o, n) == At(near, m, n)
    ensures n in Nodes(far) ==> At(Join(s, m, red, near, far), o, n) == At(far, m, n)
  {
  }

  lemma Reassociate(a: seq<Node>, b: seq<Node>, c: seq<Node>, x: Node, y: Node)
    ensures (a + [x] + b) + [y] + c == a + [x] + (b + [y] + c)
  {
  }

  // ----- one rotation: y, the s-child of x, is lifted above x -----

  function RotateBefore(s: Side, x: Node, xr: bool, y: Node, yr: bool, a: Tree, b: Tree, c: Tree): Tree {
    Join(s, x, xr, Join(s, y, yr, a, b), c)
  }

  function RotateAfter(s: Side, x: Node, xr: bool, y: Node, yr: bool, a: Tree, b: Tree, c: Tree): Tree {
    Join(s, y, yr, a, Join(Opposite(s), x, xr, c, b))
  }

  lemma {:induction false} RotateInorder(s: Side, x: Node, xr: bool, y: Node, yr: bool, a: Tree, b: Tree, c: Tree,
                                         xr': bool, yr': bool)
    ensures Inorder(RotateBefore(s, x, xr, y, yr, a, b, c)) == Inorder(RotateAfter(s, x, xr', y, yr', a, b, c))
  {
    Reassociate(Inorder(a), Inorder(b), Inorder(c), y, x);
    Reassociate(Inorder(c), Inorder(b), Inorder(a), x, y);
  }

  lemma {:induction false} RotateNodes(s: Side, x: Node, xr: bool, y: Node, yr: bool, a: Tree, b: Tree, c: Tree,
                                       xr': bool, yr': bool)
    ensures var u, v := RotateBefore(s, x, xr, y, yr, a, b, c), RotateAfter(s, x, xr', y, yr', a, b, c);
            Nodes(u) == Nodes(v) && (Distinct(u) ==> Distinct(v))
  {
    JoinDistinct(s, y, yr, a, b);
    JoinDistinct(Opposite(s), x, xr', c, b);
    JoinDistinct(s, x, xr, Join(s, y, yr, a, b), c);
    JoinDistinct(s, y, yr', a, Join(Opposite(s), x, xr', c, b));
  }

  lemma {:induction false} JoinDistinct(s: Side, m: Node, red: bool, near: Tree, far: Tree)
    ensures var j := Join(s, m, red, near, far);
            && Nodes(j) == Nodes(near) + Nodes(far) + {m}
            && (Distinct(j) <==>
                  Distinct(near) && Distinct(far) && m !in Nodes(near) && m !in Nodes(far) && Nodes(near) !! Nodes(far))
  {
  }

  lemma {:induction false} RotateAtLeft(x: Node, xr: bool, y: Node, yr: bool, a: Tree, b: Tree, c: Tree,
                                        xr': bool, yr': bool, o: Ptr, n: Node)
    requires var u := Branch(x, xr, Branch(y, yr, a, b), c); Distinct(u) && n in Nodes(u)
    ensures var u, v := Branch(x, xr, Branch(y, yr, a, b), c), Branch(y, yr', a, Branch(x, xr', b, c));
            && n in Nodes(v)
            && At(v, o, n) == (if n == x then At(u, o, n).(left := Root(b), parent := y, red := xr')
                               else if n == y then At(u, o, n).(right := x, parent := o, red := yr')
                               else if n == Root(b) then At(u, o, n).(parent := x)
                               else At(u, o, n))
  {
    if n in Nodes(b) { AtOtherParent(b, y, x, n); }
  }

  lemma {:induction false} RotateAtRight(x: Node, xr: bool, y: Node, yr: bool, a: Tree, b: Tree, c: Tree,
                                         xr': bool, yr': bool, o: Ptr, n: Node)
    requires var u := Branch(x, xr, c, Branch(y, yr, b, a)); Distinct(u) && n in Nodes(u)
    ensures var u, v := Branch(x, xr, c, Branch(y, yr, b, a)), Branch(y, yr', Branch(x, xr', c, b), a);
            && n in Nodes(v)
            && At(v, o, n) == (if n == x then At(u, o, n).(right := Root(b), parent := y, red := xr')
                               else if n == y then At(u, o, n).(left := x, parent := o, red := yr')
                               else if n == Root(b) then At(u, o, n).(parent := x)
                               else At(u, o, n))
  {
    if n in Nodes(b) { AtOtherParent(b, y, x, n); }
  }

  lemma {:induction false} RotateAt(s: Side, x: Node, xr: bool, y: Node, yr: bool, a: Tree, b: Tree, c: Tree,
                                    xr': bool, yr': bool, o: Ptr, n: Node)
    requires var u := RotateBefore(s, x, xr, y, yr, a, b, c); Distinct(u) && n in Nodes(u)
    ensures n in Nodes(RotateAfter(s, x, xr', y, yr', a, b, c))
    ensures var u, v := RotateBefore(s, x, xr, y, yr, a, b, c), RotateAfter(s, x, xr', y, yr', a, b, c);
            At(v, o, n) == (if n == x then WithChild(At(u, o, n), s, Root(b)).(parent := y, red := xr')
                            else if n == y then WithChild(At(u, o, n), Opposite(s), x).(parent := o, red := yr')
                            else if n == Root(b) then At(u, o, n).(parent := x)
                            else At(u, o, n))
  {
    if s.Left? {
      RotateAtLeft(x, xr, y, yr, a, b, c, xr', yr', o, n);
    } else {
      RotateAtRight(x, xr, y, yr, a, b, c, xr', yr', o, n);
    }
  }

  /** The fields the code reads before it rotates. */
  lemma {:induction false} RotateReads(s: Side, x: Node, xr: bool, y: Node, yr: bool, a: Tree, b: Tree, c: Tree, o: Ptr)
    requires Distinct(RotateBefore(s, x, xr, y, yr, a, b, c))
    ensures var u := RotateBefore(s, x, xr, y, yr, a, b, c);
            && x in Nodes(u) && y in Nodes(u)
            && At(u, o, x) == WithChild(WithChild(Fields(NULL, NULL, o, xr), s, y), Opposite(s), Root(c))
            && At(u, o, y) == WithChild(WithChild(Fields(NULL, NULL, x, yr), s, Root(a)), Opposite(s), Root(b))
            && (a.Branch? ==> a.node in Nodes(u) && At(u, o, a.node) == Fields(Root(a.left), Root(a.right), y, a.red))
            && (b.Branch? ==> b.node in Nodes(u) && At(u, o, b.node) == Fields(Root(b.left), Root(b.right), y, b.red))
            && (c.Branch? ==> c.node in Nodes(u) && At(u, o, c.node) == Fields(Root(c.left), Root(c.right), x, c.red))
  {
    var i := Join(s, y, yr, a, b);
    JoinAt(s, x, xr, i, c, o, x);
    JoinAt(s, x, xr, i, c, o, y);
    JoinAt(s, y, yr, a, b, x, y);
    if a.Branch? { JoinAt(s, x, xr, i, c, o, a.node); JoinAt(s, y, yr, a, b, x, a.node); }
    if b.Branch? { JoinAt(s, x, xr, i, c, o, b.node); JoinAt(s, y, yr, a, b, x, b.node); }
    if c.Branch? { JoinAt(s, x, xr, i, c, o, c.node); }
  }

  /** A rotation inside a whole tree: the nodes of the rotated subtree. */
  lemma {:induction false} RotateWholeInside(e: Context, s: Side, x: Node, xr: bool, y: Node, yr: bool, a: Tree,
                                             b: Tree, c: Tree,
                                             xr': bool, yr': bool, n: Node)
    requires Distinct(Plug(e, RotateBefore(s, x, xr, y, yr, a, b, c)))
             && n in Nodes(RotateBefore(s, x, xr, y, yr, a, b, c))
    ensures n in Nodes(Plug(e, RotateBefore(s, x, xr, y, yr, a, b, c)))
            && n in Nodes(Plug(e, RotateAfter(s, x, xr', y, yr', a, b, c)))
    ensures n != Owner(e, NULL)
    ensures var w, z := Plug(e, RotateBefore(s, x, xr, y, yr, a, b, c)),
            Plug(e, RotateAfter(s, x, xr', y, yr', a, b, c));
            At(z, NULL, n) ==
              (if n == x then WithChild(At(w, NULL, n), s, Root(b)).(parent := y, red := xr')
               else if n == y then WithChild(At(w, NULL, n), Opposite(s), x).(parent := Owner(e, NULL), red := yr')
               else if n == Root(b) then At(w, NULL, n).(parent := x)
               else At(w, NULL, n))
  {
    var u, v := RotateBefore(s, x, xr, y, yr, a, b, c), RotateAfter(s, x, xr', y, yr', a, b, c);
    PlugDistinct(e, u);
    PlugNodes(e, u);
    RotateNodes(s, x, xr, y, yr, a, b, c, xr', yr');
    ReplaceAt(e, u, v, n);
    RotateAt(s, x, xr, y, yr, a, b, c, xr', yr', Owner(e, NULL), n);
  }

  /** And the nodes around it. */
  lemma {:induction false} RotateWholeOutside(e: Context, s: Side, x: Node, xr: bool, y: Node, yr: bool, a: Tree,
                                              b: Tree, c: Tree,
                                              xr': bool, yr': bool, n: Node)
    requires Distinct(Plug(e, RotateBefore(s, x, xr, y, yr, a, b, c)))
    requires n in Nodes(Plug(e, RotateBefore(s, x, xr, y, yr, a, b, c)))
             && n !in Nodes(RotateBefore(s, x, xr, y, yr, a, b, c))
    ensures n in Nodes(Plug(e, RotateAfter(s, x, xr', y, yr', a, b, c))) && n != x && n != y && n != Root(b)
    ensures var w, z := Plug(e, RotateBefore(s, x, xr, y, yr, a, b, c)),
            Plug(e, RotateAfter(s, x, xr', y, yr', a, b, c));
            At(z, NULL, n) == (if n == Owner(e, NULL) then ChangeChild(At(w, NULL, n), x, y) else At(w, NULL, n))
  {
    var u, v := RotateBefore(s, x, xr, y, yr, a, b, c), RotateAfter(s, x, xr', y, yr', a, b, c);
    PlugDistinct(e, u);
    RotateNodes(s, x, xr, y, yr, a, b, c, xr', yr');
    ReplaceAt(e, u, v, n);
    JoinDistinct(s, x, xr, Join(s, y, yr, a, b), c);
    JoinDistinct(s, y, yr, a, b);
    assert Root(b) != NULL ==> Root(b) in Nodes(b);
  }

  /** The fields the code reads, in the whole tree; the rotated tree is again over the same distinct nodes. */
  lemma {:induction false} RotateWholeReads(e: Context, s: Side, x: Node, xr: bool, y: Node, yr: bool, a: Tree, b: Tree,
                                            c: Tree,
                                            xr': bool, yr': bool)
    requires Distinct(Plug(e, RotateBefore(s, x, xr, y, yr, a, b, c)))
    ensures var w, z := Plug(e, RotateBefore(s, x, xr, y, yr, a, b, c)),
            Plug(e, RotateAfter(s, x, xr', y, yr', a, b, c));
            && Distinct(z) && Nodes(z) == Nodes(w)
            && (if e.Top? then Root(z) == y else Root(z) == Root(w))
            && x in Nodes(w) && y in Nodes(w) && x != y
            && At(w, NULL, x) ==
                  WithChild(WithChild(Fields(NULL, NULL, Owner(e, NULL), xr), s, y), Opposite(s), Root(c))
            && At(w, NULL, y) == WithChild(WithChild(Fields(NULL, NULL, x, yr), s, Root(a)), Opposite(s), Root(b))
            && (a.Branch? ==>
                  a.node in Nodes(w) && At(w, NULL, a.node) == Fields(Root(a.left), Root(a.right), y, a.red))
            && (b.Branch? ==>
                  b.node in Nodes(w) && At(w, NULL, b.node) == Fields(Root(b.left), Root(b.right), y, b.red))
            && (c.Branch? ==>
                  c.node in Nodes(w) && At(w, NULL, c.node) == Fields(Root(c.left), Root(c.right), x, c.red))
            && (Owner(e, NULL) != NULL ==> Owner(e, NULL) in Nodes(w))
            && Owner(e, NULL) !in {x, y} && Root(b) !in {x, y} && (Root(b) != NULL ==> Root(b) != Owner(e, NULL))
            && Root(a) !in {x, y} && (Root(a) != NULL ==> Root(a) != Owner(e, NULL) && Root(a) != Root(b))
  {
    var u, v := RotateBefore(s, x, xr, y, yr, a, b, c), RotateAfter(s, x, xr', y, yr', a, b, c);
    PlugDistinct(e, u);
    PlugDistinct(e, v);
    PlugNodes(e, u);
    PlugNodes(e, v);
    RotateNodes(s, x, xr, y, yr, a, b, c, xr', yr');
    RotateReads(s, x, xr, y, yr, a, b, c, Owner(e, NULL));
    JoinDistinct(s, x, xr, Join(s, y, yr, a, b), c);
    JoinDistinct(s, y, yr, a, b);
    PlugAt(e, u, NULL, x);
    PlugAt(e, u, NULL, y);
    if a.Branch? { PlugAt(e, u, NULL, a.node); }
    if b.Branch? { PlugAt(e, u, NULL, b.node); }
    if c.Branch? { PlugAt(e, u, NULL, c.node); }
    if e.In? { PlugRoot(e, u, v); }
  }

  /** A node changes colour and nothing else does. */
  lemma {:induction false} PaintWhole(e: Context, t: Tree, red: bool, n: Node)
    requires t.Branch? && Distinct(Plug(e, t)) && n in Nodes(Plug(e, t))
    ensures Distinct(Plug(e, t.(red := red))) && Nodes(Plug(e, t.(red := red))) == Nodes(Plug(e, t))
    ensures Root(Plug(e, t.(red := red))) == Root(Plug(e, t))
    ensures At(Plug(e, t.(red := red)), NULL, n) ==
            if n == t.node then At(Plug(e, t), NULL, n).(red := red) else At(Plug(e, t), NULL, n)
  {
    var u := t.(red := red);
    PlugDistinct(e, t);
    PlugDistinct(e, u);
    PlugNodes(e, t);
    PlugNodes(e, u);
    PlugAt(e, t, NULL, n);
    PlugAt(e, u, NULL, n);
    if e.In? { PlugRoot(e, t, u); }
  }
}
