/**
  The memory of the tree nodes, what rotations and recolourings do to it, and what each case
  of `__rb_insert_fix` achieves, as statements about values.
 */
module RbMemory {
  import opened RbShape
  import opened RbRotate

  type Memory = map<Node, Fields>

  /** Every node of `t` holds exactly the fields that the shape gives it. */
  ghost predicate Fits(mem: Memory, t: Tree) {
    forall n :: n in Nodes(t) ==> n in mem && mem[n] == At(t, NULL, n)
  }

  /** x and its s-child y can be rotated: the pointers the code follows are nodes, and pairwise different. */
  ghost predicate Rotatable(mem: Memory, x: Node, y: Node, b: Ptr) {
    && x in mem && y in mem && x != y && (b != NULL ==> b in mem) && b != x && b != y
    && mem[x].parent != x && mem[x].parent != y
    && (mem[x].parent != NULL ==> mem[x].parent in mem && mem[x].parent != b)
  }

  /** The memory after y has been lifted above x, b handed over, and both recoloured. */
  ghost function Rotated(mem: Memory, s: Side, x: Node, xr: bool, y: Node, yr: bool, b: Ptr): Memory
    requires Rotatable(mem, x, y, b)
  {
    var o := mem[x].parent;
    var m1 := mem[x := WithChild(mem[x], s, b).(parent := y, red := xr)];
    var m2 := m1[y := WithChild(mem[y], Opposite(s), x).(parent := o, red := yr)];
    var m3 := if b == NULL then m2 else m2[b := mem[b].(parent := x)];
    if o == NULL then m3 else m3[o := ChangeChild(mem[o], x, y)]
  }

  /** The first three writes of a rotation: b goes below x and x below y. */
  ghost function Hung(mem: Memory, s: Side, x: Node, y: Node, b: Ptr): Memory
    requires Rotatable(mem, x, y, b)
  {
    var m1 := mem[x := WithChild(mem[x], s, b)];
    var m2 := if b == NULL then m1 else m1[b := mem[b].(parent := x)];
    m2[y := WithChild(mem[y], Opposite(s), x)]
  }

  /** The rest, `__rb_rotate_set_parents`: y takes x's place and colour below x's parent. */
  ghost function ParentsSet(mem: Memory, x: Node, y: Node, red: bool): Memory
    requires x in mem && y in mem && (mem[x].parent != NULL ==> mem[x].parent in mem)
  {
    var p := mem[x].parent;
    var m1 := mem[y := mem[y].(parent := p, red := mem[x].red)];
    var m2 := m1[x := m1[x].(parent := y, red := red)];
    if p == NULL then m2 else m2[p := ChangeChild(m2[p], x, y)]
  }

  lemma HungThenSet(mem: Memory, s: Side, x: Node, xr: bool, y: Node, b: Ptr)
    requires Rotatable(mem, x, y, b)
    ensures ParentsSet(Hung(mem, s, x, y, b), x, y, xr) == Rotated(mem, s, x, xr, y, mem[x].red, b)
  {
  }

  lemma {:induction false} RotatedFits(mem: Memory, e: Context, s: Side, x: Node, xr: bool, y: Node, yr: bool, a: Tree,
                                       b: Tree, c: Tree,
                                       xr': bool, yr': bool)
    requires var w := Plug(e, RotateBefore(s, x, xr, y, yr, a, b, c)); Distinct(w) && Fits(mem, w)
    requires Rotatable(mem, x, y, Root(b)) && mem[x].parent == Owner(e, NULL)
    ensures Fits(Rotated(mem, s, x, xr', y, yr', Root(b)), Plug(e, RotateAfter(s, x, xr', y, yr', a, b, c)))
  {
    var w, z := Plug(e, RotateBefore(s, x, xr, y, yr, a, b, c)), Plug(e, RotateAfter(s, x, xr', y, yr', a, b, c));
    var mem' := Rotated(mem, s, x, xr', y, yr', Root(b));
    forall n | n in Nodes(z) ensures n in mem' && mem'[n] == At(z, NULL, n) {
      RotateWholeReads(e, s, x, xr, y, yr, a, b, c, xr', yr');
      if n in Nodes(RotateBefore(s, x, xr, y, yr, a, b, c)) {
        RotateWholeInside(e, s, x, xr, y, yr, a, b, c, xr', yr', n);
      } else {
        RotateWholeOutside(e, s, x, xr, y, yr, a, b, c, xr', yr', n);
      }
    }
  }

  /** m, the inner child of p below g, can be lifted above both. */
  ghost predicate DoublyRotatable(mem: Memory, s: Side, g: Node, p: Node, m: Node, a: Ptr, b: Ptr) {
    && Rotatable(mem, p, m, a) && Rotatable(mem, g, m, b) && mem[p].parent == g && g != p
    && a != g && b != p && (b != NULL ==> b != a)
    && mem[g].parent != p && (mem[g].parent != NULL ==> mem[g].parent != a)
    && ChildOf(mem[g], s) == p && ChildOf(mem[g], Opposite(s)) != p
  }

  /** Case 2 of the insertion loop: p goes below m, but g and m's parent pointer are not yet adjusted. */
  ghost function HalfLifted(mem: Memory, s: Side, p: Node, pr: bool, m: Node, a: Ptr): Memory
    requires Rotatable(mem, p, m, a)
  {
    var m1 := mem[p := WithChild(mem[p], Opposite(s), a).(parent := m, red := pr)];
    var m2 := m1[m := WithChild(mem[m], s, p)];
    if a == NULL then m2 else m2[a := mem[a].(parent := p)]
  }

  lemma RotatedIgnoresStale(mem: Memory, s: Side, x: Node, xr: bool, y: Node, yr: bool, b: Ptr, v: Ptr, q: Ptr)
    requires Rotatable(mem, x, y, b)
    ensures var redone := mem[x := WithChild(mem[x], s, v)][y := mem[y].(parent := q)];
            Rotatable(redone, x, y, b) && Rotated(redone, s, x, xr, y, yr, b) == Rotated(mem, s, x, xr, y, yr, b)
  {
  }

  lemma LiftedFromHalf(mem: Memory, s: Side, g: Node, p: Node, pr: bool, m: Node, a: Ptr, b: Ptr)
    requires DoublyRotatable(mem, s, g, p, m, a, b)
    ensures var half := HalfLifted(mem, s, p, pr, m, a);
            && Rotatable(half, g, m, b)
            && Rotated(mem, Opposite(s), p, pr, m, mem[m].red, a) ==
                  half[g := WithChild(half[g], s, m)][m := half[m].(parent := g)]
  {
  }

  /** The rotation at g overwrites what case 2 left stale, so the two cases together are two proper rotations. */
  lemma HalfLiftedSuffices(mem: Memory, s: Side, g: Node, gr: bool, p: Node, pr: bool, m: Node, mr: bool, a: Ptr,
                           b: Ptr)
    requires DoublyRotatable(mem, s, g, p, m, a, b)
    ensures var half, lifted := HalfLifted(mem, s, p, pr, m, a), Rotated(mem, Opposite(s), p, pr, m, mem[m].red, a);
            && Rotatable(half, g, m, b) && Rotatable(lifted, g, m, b)
            && Rotated(half, s, g, gr, m, mr, b) == Rotated(lifted, s, g, gr, m, mr, b)
  {
    LiftedFromHalf(mem, s, g, p, pr, m, a, b);
    RotatedIgnoresStale(HalfLifted(mem, s, p, pr, m, a), s, g, gr, m, mr, b, m, g);
  }

  ghost function Painted(mem: Memory, n: Node, red: bool): Memory
    requires n in mem
  {
    mem[n := mem[n].(red := red)]
  }

  lemma {:induction false} PaintedFits(mem: Memory, e: Context, t: Tree, red: bool)
    requires t.Branch? && Distinct(Plug(e, t)) && Fits(mem, Plug(e, t))
    ensures t.node in mem && mem[t.node].red == t.red
    ensures Fits(Painted(mem, t.node, red), Plug(e, t.(red := red)))
    ensures Distinct(Plug(e, t.(red := red))) && Root(Plug(e, t.(red := red))) == Root(Plug(e, t))
  {
    PlugNodes(e, t);
    PlugAt(e, t, NULL, t.node);
    PaintWhole(e, t, red, t.node);
    forall n | n in Nodes(Plug(e, t.(red := red)))
      ensures At(Plug(e, t.(red := red)), NULL, n) == Painted(mem, t.node, red)[n]
    {
      PaintWhole(e, t, red, n);
    }
  }

  // ----- what the code reads on its way -----

  /** The fields of the node above the hole and of the roots of the subtrees around it. */
  lemma {:induction false} FrameReads(mem: Memory, c: Context, t: Tree)
    requires c.In? && Distinct(Plug(c, t)) && Fits(mem, Plug(c, t))
    ensures c.node in mem && mem[c.node] == FrameAt(c, NULL, Root(t))
    ensures t.Branch? ==> t.node in mem && mem[t.node] == Fields(Root(t.left), Root(t.right), c.node, t.red)
    ensures c.sibling.Branch? ==>
              c.sibling.node in mem
                  && mem[c.sibling.node] == Fields(Root(c.sibling.left), Root(c.sibling.right), c.node, c.sibling.red)
    ensures c.node != Root(t) && c.node != Root(c.sibling) && (t.Branch? ==> t.node != Root(c.sibling))
  {
    PlugNodes(c, t);
    PlugDistinct(c, t);
    PlugAt(c, t, NULL, c.node);
    if t.Branch? { PlugAt(c, t, NULL, t.node); }
    if c.sibling.Branch? { PlugAt(c, t, NULL, c.sibling.node); }
  }

  // ----- the steps of the insertion loop, on trees -----

  /** Case 1: black moves down from g to p and to the uncle. */
  ghost function UncleAfter(s: Side, s1: Side, g: Node, p: Node, t: Tree, sib: Tree, uncle: Tree): Tree
    requires uncle.Branch?
  {
    Join(s, g, true, Join(s1, p, false, t, sib), uncle.(red := false))
  }

  lemma {:induction false} UncleStep(mem: Memory, up: Context, s: Side, s1: Side, g: Node, p: Node, t: Tree,
                                     sib: Tree, uncle: Tree)
    requires uncle.Branch?
    requires var w := Plug(In(s1, p, true, sib, In(s, g, false, uncle, up)), t); Distinct(w) && Fits(mem, w)
    ensures g in mem && p in mem && uncle.node in mem
    ensures var z := Plug(up, UncleAfter(s, s1, g, p, t, sib, uncle));
            && Distinct(z) && Fits(Painted(Painted(Painted(mem, uncle.node, false), p, false), g, true), z)
            && Root(z) == Root(Plug(In(s1, p, true, sib, In(s, g, false, uncle, up)), t))
  {
    var pt := Join(s1, p, true, t, sib);
    PaintedFits(mem, In(Opposite(s), g, false, pt, up), uncle, false);
    var m1, u1 := Painted(mem, uncle.node, false), uncle.(red := false);
    PaintedFits(m1, In(s, g, false, u1, up), pt, false);
    PaintedFits(Painted(m1, p, false), up, Join(s, g, false, pt.(red := false), u1), true);
  }

  lemma {:induction false} UncleContents(up: Context, s: Side, s1: Side, g: Node, p: Node, t: Tree, sib: Tree,
                                         uncle: Tree)
    requires uncle.Branch?
    ensures Inorder(Plug(up, UncleAfter(s, s1, g, p, t, sib, uncle))) ==
            Inorder(Plug(In(s1, p, true, sib, In(s, g, false, uncle, up)), t))
  {
    InorderPlug(up, UncleAfter(s, s1, g, p, t, sib, uncle));
    InorderPlug(up, Join(s, g, false, Join(s1, p, true, t, sib), uncle));
  }

  lemma {:induction false} UncleRedBlack(up: Context, s: Side, s1: Side, g: Node, p: Node, t: Tree, sib: Tree,
                                         uncle: Tree)
    requires RedBlack(t) && Red(uncle)
    requires Accepts(In(s1, p, true, sib, In(s, g, false, uncle, up)), BlackHeight(t))
    ensures var z := UncleAfter(s, s1, g, p, t, sib, uncle); RedBlack(z) && Red(z) && Accepts(up, BlackHeight(z))
  {
  }

  /** Case 3: everything the rotation at g needs and gives. */
  lemma {:induction false} RotateStep(mem: Memory, e: Context, s: Side, x: Node, xr: bool, y: Node, yr: bool, a: Tree,
                                      b: Tree, c: Tree,
                                      xr': bool, yr': bool)
    requires var w := Plug(e, RotateBefore(s, x, xr, y, yr, a, b, c)); Distinct(w) && Fits(mem, w)
    ensures Rotatable(mem, x, y, Root(b)) && mem[x].parent == Owner(e, NULL)
    ensures mem[x].red == xr && mem[y].red == yr && (b.Branch? ==> mem[b.node].red == b.red)
    ensures var w, z := Plug(e, RotateBefore(s, x, xr, y, yr, a, b, c)),
            Plug(e, RotateAfter(s, x, xr', y, yr', a, b, c));
            && Distinct(z) && Fits(Rotated(mem, s, x, xr', y, yr', Root(b)), z)
            && Root(z) == if e.Top? then y else Root(w)
  {
    RotateWholeReads(e, s, x, xr, y, yr, a, b, c, xr', yr');
    RotatedFits(mem, e, s, x, xr, y, yr, a, b, c, xr', yr');
  }

  lemma {:induction false} RotateContents(e: Context, s: Side, x: Node, xr: bool, y: Node, yr: bool, a: Tree, b: Tree,
                                          c: Tree, xr': bool, yr': bool)
    ensures Inorder(Plug(e, RotateBefore(s, x, xr, y, yr, a, b, c))) ==
            Inorder(Plug(e, RotateAfter(s, x, xr', y, yr', a, b, c)))
  {
    InorderPlug(e, RotateBefore(s, x, xr, y, yr, a, b, c));
    InorderPlug(e, RotateAfter(s, x, xr', y, yr', a, b, c));
    RotateInorder(s, x, xr, y, yr, a, b, c, xr', yr');
  }

  // ----- two rotations: m, the inner grandchild of g below p, is lifted above both -----

  ghost function DoubleBefore(s: Side, g: Node, gr: bool, p: Node, pr: bool, m: Node, mr: bool, a: Tree, b: Tree,
                              c: Tree, d: Tree): Tree
  {
    Join(s, g, gr, Join(s, p, pr, d, Join(s, m, mr, a, b)), c)
  }

  ghost function DoubleAfter(s: Side, g: Node, gr: bool, p: Node, pr: bool, m: Node, mr: bool, a: Tree, b: Tree,
                             c: Tree, d: Tree): Tree
  {
    Join(s, m, mr, Join(s, p, pr, d, a), Join(Opposite(s), g, gr, c, b))
  }

  lemma {:induction false} DoubleValues(mem: Memory, e: Context, s: Side, g: Node, gr: bool, p: Node, pr: bool, m: Node,
                                        mr: bool,
                                        a: Tree, b: Tree, c: Tree, d: Tree)
    requires var w := Plug(e, DoubleBefore(s, g, gr, p, pr, m, mr, a, b, c, d)); Distinct(w) && Fits(mem, w)
    ensures g in mem && p in mem && m in mem
    ensures mem[g].red == gr && mem[p].red == pr && mem[m].red == mr && mem[g].parent == Owner(e, NULL)
            && mem[p].parent == g && mem[m].parent == p
    ensures ChildOf(mem[g], s) == p && ChildOf(mem[g], Opposite(s)) == Root(c)
    ensures ChildOf(mem[m], s) == Root(a) && ChildOf(mem[m], Opposite(s)) == Root(b)
    ensures (a.Branch? ==> a.node in mem && mem[a.node].red == a.red)
            && (b.Branch? ==> b.node in mem && mem[b.node].red == b.red)
  {
    hide Fits, Distinct, Nodes;
    var inner := Join(s, m, mr, a, b);
    var lower := In(s, g, gr, c, e);
    FrameReads(mem, lower, Join(s, p, pr, d, inner));
    FrameReads(mem, In(Opposite(s), p, pr, d, lower), inner);
    FrameReads(mem, In(s, m, mr, b, In(Opposite(s), p, pr, d, lower)), a);
  }

  lemma {:induction false} DoubleReads(mem: Memory, e: Context, s: Side, g: Node, gr: bool, p: Node, pr: bool, m: Node,
                                       mr: bool,
                                       a: Tree, b: Tree, c: Tree, d: Tree)
    requires var w := Plug(e, DoubleBefore(s, g, gr, p, pr, m, mr, a, b, c, d)); Distinct(w) && Fits(mem, w)
    ensures g in mem && p in mem && m in mem && DoublyRotatable(mem, s, g, p, m, Root(a), Root(b))
  {
    DoubleValues(mem, e, s, g, gr, p, pr, m, mr, a, b, c, d);
    DoubleNodes(s, g, gr, p, pr, m, mr, a, b, c, d);
    var u := DoubleBefore(s, g, gr, p, pr, m, mr, a, b, c, d);
    PlugDistinct(e, u);
    PlugNodes(e, u);
  }

  lemma {:induction false} DoubleNodes(s: Side, g: Node, gr: bool, p: Node, pr: bool, m: Node, mr: bool, a: Tree,
                                       b: Tree, c: Tree, d: Tree)
    ensures var u := DoubleBefore(s, g, gr, p, pr, m, mr, a, b, c, d);
            && Nodes(u) == Nodes(a) + Nodes(b) + Nodes(c) + Nodes(d) + {g, p, m}
            && (Distinct(u) ==>
                  g != p && g != m && p != m && {g, p, m} !! Nodes(a) && {g, p, m} !! Nodes(b) && Nodes(a) !! Nodes(b)
                  && p !in Nodes(c))
  {
    JoinDistinct(s, m, mr, a, b);
    JoinDistinct(s, p, pr, d, Join(s, m, mr, a, b));
    JoinDistinct(s, g, gr, Join(s, p, pr, d, Join(s, m, mr, a, b)), c);
  }

  lemma {:induction false} DoubleContents(e: Context, s: Side, g: Node, gr: bool, p: Node, pr: bool, m: Node, mr: bool,
                                          a: Tree, b: Tree, c: Tree, d: Tree, gr': bool, pr': bool, mr': bool)
    ensures Inorder(Plug(e, DoubleBefore(s, g, gr, p, pr, m, mr, a, b, c, d))) ==
            Inorder(Plug(e, DoubleAfter(s, g, gr', p, pr', m, mr', a, b, c, d)))
  {
    RotateContents(In(s, g, gr, c, e), Opposite(s), p, pr, m, mr, b, a, d, pr', mr);
    RotateContents(e, s, g, gr, m, mr, Join(s, p, pr', d, a), b, c, gr', mr');
  }

  lemma {:induction false} DoubleStep(mem: Memory, e: Context, s: Side, g: Node, gr: bool, p: Node, pr: bool, m: Node,
                                      mr: bool,
                                      a: Tree, b: Tree, c: Tree, d: Tree, gr': bool, pr': bool, mr': bool)
    requires var w := Plug(e, DoubleBefore(s, g, gr, p, pr, m, mr, a, b, c, d)); Distinct(w) && Fits(mem, w)
    requires g in mem && p in mem && m in mem && DoublyRotatable(mem, s, g, p, m, Root(a), Root(b))
    ensures var half := HalfLifted(mem, s, p, pr', m, Root(a));
            var w, z := Plug(e, DoubleBefore(s, g, gr, p, pr, m, mr, a, b, c, d)),
                Plug(e, DoubleAfter(s, g, gr', p, pr', m, mr', a, b, c, d));
            && Rotatable(half, g, m, Root(b))
            && Distinct(z) && Fits(Rotated(half, s, g, gr', m, mr', Root(b)), z)
            && Root(z) == (if e.Top? then m else Root(w))
  {
    RotateStep(mem, In(s, g, gr, c, e), Opposite(s), p, pr, m, mr, b, a, d, pr', mr);
    var lifted := Rotated(mem, Opposite(s), p, pr', m, mr, Root(a));
    RotateStep(lifted, e, s, g, gr, m, mr, Join(s, p, pr', d, a), b, c, gr', mr');
    HalfLiftedSuffices(mem, s, g, gr', p, pr', m, mr', Root(a), Root(b));
  }

  lemma {:induction false} OuterRedBlack(up: Context, s: Side, g: Node, p: Node, t: Tree, sib: Tree, uncle: Tree)
    requires RedBlack(t) && Red(t) && !Red(uncle)
    requires Accepts(In(s, p, true, sib, In(s, g, false, uncle, up)), BlackHeight(t))
    ensures var z := Plug(up, RotateAfter(s, g, true, p, false, t, sib, uncle)); RedBlack(z) && !Red(z)
  {
    PlugRedBlack(up, RotateAfter(s, g, true, p, false, t, sib, uncle));
  }

  lemma {:induction false} InnerRedBlack(up: Context, s: Side, g: Node, p: Node, m: Node, a: Tree, b: Tree, sib: Tree,
                                         uncle: Tree)
    requires RedBlack(Join(s, m, true, a, b)) && !Red(uncle)
    requires Accepts(In(Opposite(s), p, true, sib, In(s, g, false, uncle, up)), BlackHeight(Join(s, m, true, a, b)))
    ensures var z := Plug(up, DoubleAfter(s, g, true, p, true, m, false, a, b, uncle, sib)); RedBlack(z) && !Red(z)
  {
    PlugRedBlack(up, DoubleAfter(s, g, true, p, true, m, false, a, b, uncle, sib));
  }

  // ----- each case of the insertion loop as a whole -----

  /** `z` is a red-black tree with the contents of `w`, and `mem` holds it under `root`. */
  ghost predicate Rebuilt(mem: Memory, root: Ptr, w: Tree, z: Tree) {
    && Distinct(z) && Fits(mem, z) && root == Root(z)
    && RedBlack(z) && !Red(z) && Inorder(z) == Inorder(w)
  }

  lemma {:induction false} RebuiltSelf(mem: Memory, root: Ptr, w: Tree, z: Tree)
    requires Rebuilt(mem, root, w, z)
    ensures Rebuilt(mem, root, z, z) && Nodes(z) == Nodes(w)
  {
    NodesOfSame(z, w);
  }

  ghost function NewRoot(root: Ptr, e: Context, top: Node): Ptr {
    if e.Top? then top else root
  }

  lemma {:induction false} OuterPlan(mem: Memory, up: Context, s: Side, g: Node, p: Node, t: Tree, sib: Tree,
                                     uncle: Tree)
    requires var w := Plug(In(s, p, true, sib, In(s, g, false, uncle, up)), t); Distinct(w) && Fits(mem, w)
    requires RedBlack(t) && Red(t) && !Red(uncle)
             && Accepts(In(s, p, true, sib, In(s, g, false, uncle, up)), BlackHeight(t))
    ensures Rotatable(mem, g, p, Root(sib)) && mem[g].parent == Owner(up, NULL) && !mem[g].red
            && (sib.Branch? ==> !mem[sib.node].red)
    ensures var w := Plug(In(s, p, true, sib, In(s, g, false, uncle, up)), t);
            Rebuilt(Rotated(mem, s, g, true, p, false, Root(sib)), NewRoot(Root(w), up, p), w,
                    Plug(up, RotateAfter(s, g, true, p, false, t, sib, uncle)))
  {
    assert Plug(In(s, p, true, sib, In(s, g, false, uncle, up)), t) ==
      Plug(up, RotateBefore(s, g, false, p, true, t, sib, uncle));
    RotateStep(mem, up, s, g, false, p, true, t, sib, uncle, true, false);
    RotateContents(up, s, g, false, p, true, t, sib, uncle, true, false);
    OuterRedBlack(up, s, g, p, t, sib, uncle);
  }

  lemma {:induction false} InnerPlan(mem: Memory, up: Context, s: Side, g: Node, p: Node, m: Node, a: Tree, b: Tree,
                                     sib: Tree, uncle: Tree)
    requires var w := Plug(In(Opposite(s), p, true, sib, In(s, g, false, uncle, up)), Join(s, m, true, a, b));
             Distinct(w) && Fits(mem, w)
    requires RedBlack(Join(s, m, true, a, b)) && !Red(uncle)
    requires Accepts(In(Opposite(s), p, true, sib, In(s, g, false, uncle, up)), BlackHeight(Join(s, m, true, a, b)))
    ensures g in mem && m in mem && Rotatable(mem, p, m, Root(a)) && ChildOf(mem[m], s) == Root(a)
            && (a.Branch? ==> !mem[a.node].red)
    ensures var half := HalfLifted(mem, s, p, true, m, Root(a));
            && Rotatable(half, g, m, Root(b)) && ChildOf(half[m], Opposite(s)) == Root(b)
            && half[g].parent == Owner(up, NULL) && !half[g].red && (b.Branch? ==> !half[b.node].red)
    ensures var w := Plug(In(Opposite(s), p, true, sib, In(s, g, false, uncle, up)), Join(s, m, true, a, b));
            Rebuilt(Rotated(HalfLifted(mem, s, p, true, m, Root(a)), s, g, true, m, false, Root(b)),
                NewRoot(Root(w), up, m), w,
                    Plug(up, DoubleAfter(s, g, true, p, true, m, false, a, b, uncle, sib)))
  {
    assert Plug(In(Opposite(s), p, true, sib, In(s, g, false, uncle, up)), Join(s, m, true, a, b))
        == Plug(up, DoubleBefore(s, g, false, p, true, m, true, a, b, uncle, sib));
    DoubleValues(mem, up, s, g, false, p, true, m, true, a, b, uncle, sib);
    DoubleReads(mem, up, s, g, false, p, true, m, true, a, b, uncle, sib);
    DoubleStep(mem, up, s, g, false, p, true, m, true, a, b, uncle, sib, true, true, false);
    DoubleContents(up, s, g, false, p, true, m, true, a, b, uncle, sib, true, true, false);
    InnerRedBlack(up, s, g, p, m, a, b, sib, uncle);
  }

  /**
    The invariant of `__rb_insert_fix`: all is well except that the red root of `t` may hang below
    red or be the root.
   */
  ghost predicate Inserting(mem: Memory, root: Ptr, c: Context, t: Tree) {
    && Red(t) && RedBlack(t) && Accepts(c, BlackHeight(t))
    && Distinct(Plug(c, t)) && Fits(mem, Plug(c, t)) && (c.In? ==> root == Root(Plug(c, t)))
  }

  lemma {:induction false} InsertingReads(mem: Memory, root: Ptr, c: Context, t: Tree)
    requires Inserting(mem, root, c, t)
    ensures t.node in mem && mem[t.node].parent == Owner(c, NULL)
    ensures c.In? ==> c.node in mem && mem[c.node].red == c.red
    ensures c.In? && c.red ==>
              && c.up.In? && !c.up.red && c.up.node in mem && mem[c.node].parent == c.up.node
              && (c.node != mem[c.up.node].right <==> c.up.side.Left?)
              && ChildOf(mem[c.up.node], Opposite(c.up.side)) == Root(c.up.sibling)
              && (c.up.sibling.Branch? ==> c.up.sibling.node in mem && mem[c.up.sibling.node].red == c.up.sibling.red)
  {
    PlugNodes(c, t);
    PlugAt(c, t, NULL, t.node);
    if c.In? {
      FrameReads(mem, c, t);
      if c.red { FrameReads(mem, c.up, Join(c.side, c.node, c.red, t, c.sibling)); }
    }
  }

  lemma {:induction false} TopPlan(mem: Memory, root: Ptr, t: Tree)
    requires Inserting(mem, root, Top, t)
    ensures t.node in mem
            && Rebuilt(mem[t.node := mem[t.node].(parent := NULL, red := false)], t.node, t, t.(red := false))
  {
    InsertingReads(mem, root, Top, t);
    PaintedFits(mem, Top, t, false);
  }

  lemma {:induction false} SettledPlan(mem: Memory, root: Ptr, c: Context, t: Tree)
    requires Inserting(mem, root, c, t) && c.In? && !c.red
    ensures Rebuilt(mem, root, Plug(c, t), Plug(c, t))
  {
    PlugRedBlack(c, t);
  }

  lemma {:induction false} UnclePlan(mem: Memory, root: Ptr, c: Context, t: Tree)
    requires Inserting(mem, root, c, t) && c.In? && c.red && c.up.In? && Red(c.up.sibling)
    ensures var g, p, u := c.up.node, c.node, c.up.sibling.node;
            && g in mem && p in mem && u in mem && g != p && u != p && u != g && mem[p].parent == g
                  && mem[u].parent == g
            && Inserting(Painted(Painted(Painted(mem, u, false), p, false), g, true), root, c.up.up,
                         UncleAfter(c.up.side, c.side, g, p, t, c.sibling, c.up.sibling))
            && Inorder(Plug(c.up.up, UncleAfter(c.up.side, c.side, g, p, t, c.sibling, c.up.sibling))) ==
                  Inorder(Plug(c, t))
  {
    assert c == In(c.side, c.node, true, c.sibling, In(c.up.side, c.up.node, false, c.up.sibling, c.up.up));
    UncleStep(mem, c.up.up, c.up.side, c.side, c.up.node, c.node, t, c.sibling, c.up.sibling);
    UncleContents(c.up.up, c.up.side, c.side, c.up.node, c.node, t, c.sibling, c.up.sibling);
    UncleRedBlack(c.up.up, c.up.side, c.side, c.up.node, c.node, t, c.sibling, c.up.sibling);
    FrameReads(mem, c, t);
    FrameReads(mem, c.up, Join(c.side, c.node, c.red, t, c.sibling));
  }

  // ----- searching -----

  /** Everything left of the hole is smaller than k and everything right of it is larger. */
  ghost predicate Brackets(key: Order, c: Context, k: int) {
    && (forall x :: x in Before(c) ==> key(x) < k)
    && (forall x :: x in After(c) ==> k < key(x))
  }

  lemma SortedSlice(key: Order, a: seq<Node>, b: seq<Node>, c: seq<Node>)
    requires Sorted(key, a + b + c)
    ensures Sorted(key, b)
  {
    forall i, j | 0 <= i < j < |b| ensures key(b[i]) < key(b[j]) {
      assert (a + b + c)[|a| + i] == b[i] && (a + b + c)[|a| + j] == b[j];
    }
  }

  lemma {:induction false} SortedSplit(key: Order, c: Context, t: Tree)
    requires Sorted(key, Inorder(Plug(c, t)))
    ensures Sorted(key, Inorder(t))
    ensures forall x :: x in Nodes(t) ==> x in Nodes(Plug(c, t))
  {
    InorderPlug(c, t);
    PlugNodes(c, t);
    SortedSlice(key, Before(c), Inorder(t), After(c));
  }

  /** One step down keeps the bracket. */
  lemma {:induction false} BracketDown(key: Order, c: Context, t: Tree, s: Side, k: int)
    requires t.Branch? && Sorted(key, Inorder(Plug(c, t))) && Brackets(key, c, k)
    requires if s.Left? then k < key(t.node) else key(t.node) < k
    ensures Brackets(key, Below(c, t, s), k)
  {
    SortedSplit(key, c, t);
    SortedNodes(key, t);
    if s.Left? {
      forall x | x in Inorder(t.right) ensures k < key(x) { NodesInorder(t.right, x); }
    } else {
      forall x | x in Inorder(t.left) ensures key(x) < k { NodesInorder(t.left, x); }
    }
  }

  /** The context of the s-child of t. */
  ghost function Below(c: Context, t: Tree, s: Side): Context
    requires t.Branch?
  {
    In(s, t.node, t.red, if s.Left? then t.right else t.left, c)
  }

  ghost function Subtree(t: Tree, s: Side): Tree
    requires t.Branch?
  {
    if s.Left? then t.left else t.right
  }

  lemma {:induction false} SubtreeReads(mem: Memory, c: Context, t: Tree)
    requires t.Branch? && Distinct(Plug(c, t)) && Fits(mem, Plug(c, t))
    ensures t.node in mem && mem[t.node] == Fields(Root(t.left), Root(t.right), Owner(c, NULL), t.red)
    ensures Plug(Below(c, t, Left), t.left) == Plug(c, t) == Plug(Below(c, t, Right), t.right)
  {
    PlugNodes(c, t);
    PlugAt(c, t, NULL, t.node);
  }

  /** A bracket around an empty hole: no key equals k. */
  lemma {:induction false} BracketEmpty(key: Order, c: Context, k: int, x: Node)
    requires Brackets(key, c, k) && x in Nodes(Plug(c, Leaf))
    ensures key(x) != k
  {
    InorderPlug(c, Leaf);
    NodesInorder(Plug(c, Leaf), x);
  }

  // ----- a new leaf -----

  lemma {:induction false} LeafInserted(mem: Memory, mem': Memory, c: Context, node: Node)
    requires Distinct(Plug(c, Leaf)) && Fits(mem, Plug(c, Leaf)) && node !in Nodes(Plug(c, Leaf))
    requires Accepts(c, 0) && LeafHung(mem, mem', c, node)
    ensures var t := Branch(node, true, Leaf, Leaf);
            Inserting(mem', Root(Plug(c, Leaf)), c, t) && Nodes(Plug(c, t)) == Nodes(Plug(c, Leaf)) + {node}
  {
    var t := Branch(node, true, Leaf, Leaf);
    PlugNodes(c, Leaf);
    PlugNodes(c, t);
    PlugDistinct(c, Leaf);
    PlugDistinct(c, t);
    if c.In? { PlugRoot(c, t, Leaf); FrameReads(mem, c, Leaf); }
    forall n | n in Nodes(Plug(c, t)) ensures n in mem' && mem'[n] == At(Plug(c, t), NULL, n) {
      PlugAt(c, t, NULL, n);
      if n != node {
        PlugAt(c, Leaf, NULL, n);
        ContextAtOtherHole(c, NULL, NULL, node, n);
      }
    }
  }

  lemma {:induction false} LeafSorted(key: Order, c: Context, node: Node)
    requires Sorted(key, Inorder(Plug(c, Leaf))) && Brackets(key, c, key(node))
    ensures Sorted(key, Inorder(Plug(c, Branch(node, true, Leaf, Leaf))))
  {
    InorderPlug(c, Leaf);
    InorderPlug(c, Branch(node, true, Leaf, Leaf));
    var a, b := Before(c), After(c);
    assert Inorder(Plug(c, Leaf)) == a + b;
    var w := a + [node] + b;
    assert Inorder(Plug(c, Branch(node, true, Leaf, Leaf))) == w;
    SortedInsert(key, a, node, b);
  }

  lemma {:induction false} SortedInsert(key: Order, a: seq<Node>, node: Node, b: seq<Node>)
    requires Sorted(key, a + b) && (forall x | x in a :: key(x) < key(node))
             && (forall x | x in b :: key(node) < key(x))
    ensures Sorted(key, a + [node] + b)
  {
    var w := a + [node] + b;
    forall i, j | 0 <= i < j < |w| ensures key(w[i]) < key(w[j]) {
      if j < |a| { assert (a + b)[i] == w[i] && (a + b)[j] == w[j]; }
      else if i > |a| { assert (a + b)[i - 1] == w[i] && (a + b)[j - 1] == w[j]; }
      else if i < |a| && j > |a| { assert (a + b)[i] == w[i] && (a + b)[j - 1] == w[j]; }
    }
  }

  /** The memory after `node` became the leaf in the hole of `c`. */
  ghost predicate LeafHung(before: Memory, mem: Memory, c: Context, node: Node) {
    if c.Top? then mem == before[node := Fields(NULL, NULL, NULL, true)]
    else
      && c.node in before
      && mem == before[node := Fields(NULL, NULL, c.node, true)][c.node := WithChild(before[c.node], c.side, node)]
  }

  lemma {:induction false} NodesOfSame(t: Tree, u: Tree)
    requires Inorder(t) == Inorder(u)
    ensures Nodes(t) == Nodes(u)
  {
    forall x: Node ensures x in Nodes(t) <==> x in Nodes(u) { NodesInorder(t, x); NodesInorder(u, x); }
  }
}
