/**
  The red-black tree of `src/common/rbtree.c` with parent pointers, colours and both fix-up
  loops, over an explicit memory of node structs.  Each pair of mirrored branches of the C code
  is one branch over a `Side`.
 */
module RbTree {
  import opened RbShape
  import opened RbRotate
  import opened RbMemory
  import opened RbErase

  class RbRoot {
    var root: Ptr
    var mem: Memory

    ghost var tree: Tree      // the tree that the memory holds

    /** A search tree for `key` that is red-black, with every link in agreement. */
    ghost predicate Valid(key: Order)
      reads this
    {
      Rebuilt(mem, root, tree, tree) && Sorted(key, Inorder(tree))
    }

    /** A zeroed `struct rb_root_`, over any memory. */
    constructor (mem: Memory, ghost key: Order)
      ensures Valid(key) && tree == Leaf && this.mem == mem
    {
      root, this.mem, tree := NULL, mem, Leaf;
    }

    /** `__rb_rotate_set_parents`: y takes x's place below x's parent. */
    method RotateSetParents(x: Node, y: Node, red: bool)
      requires x in mem && y in mem && x != y && (mem[x].parent != NULL ==> mem[x].parent in mem)
      modifies this
      ensures mem == ParentsSet(old(mem), x, y, red)
      ensures root == if old(mem)[x].parent == NULL then y else old(root)
    {
      var parent := mem[x].parent;
      mem := mem[y := mem[y].(parent := parent, red := mem[x].red)];
      mem := mem[x := mem[x].(parent := y, red := red)];
      if parent != NULL {
        mem := mem[parent := ChangeChild(mem[parent], x, y)];
      } else {
        root := y;
      }
    }

    /** A rotation that swaps the colours red and black: case 3 of the insertion and case 1 of the erasure. */
    method RotateRecolour(s: Side, g: Node, p: Node, tmp: Ptr)
      requires Rotatable(mem, g, p, tmp) && !mem[g].red && (tmp != NULL ==> !mem[tmp].red)
      modifies this
      ensures mem == Rotated(old(mem), s, g, true, p, false, tmp)
      ensures root == if old(mem)[g].parent == NULL then p else old(root)
    {
      mem := mem[g := WithChild(mem[g], s, tmp)];
      if tmp != NULL {
        mem := mem[tmp := mem[tmp].(parent := g, red := false)];
      }
      mem := mem[p := WithChild(mem[p], Opposite(s), g)];
      assert mem == Hung(old(mem), s, g, p, tmp);
      RotateSetParents(g, p, true);
      HungThenSet(old(mem), s, g, true, p, tmp);
    }

    /** Case 2 of `__rb_insert_fix`. */
    method InsertInner(s: Side, p: Node, m: Node)
      requires m in mem && Rotatable(mem, p, m, ChildOf(mem[m], s))
      requires var a := ChildOf(mem[m], s); a != NULL ==> !mem[a].red
      modifies this
      ensures mem == HalfLifted(old(mem), s, p, true, m, ChildOf(old(mem)[m], s)) && root == old(root)
    {
      var tmp := ChildOf(mem[m], s);
      mem := mem[p := WithChild(mem[p], Opposite(s), tmp)];
      if tmp != NULL {
        mem := mem[tmp := mem[tmp].(parent := p, red := false)];
      }
      mem := mem[m := WithChild(mem[m], s, p)];
      mem := mem[p := mem[p].(parent := m, red := true)];
    }

    /** Case 1 of `__rb_insert_fix`. */
    method InsertUncle(g: Node, p: Node, uncle: Node)
      requires g in mem && p in mem && uncle in mem && g != p && uncle != p && uncle != g
      requires mem[p].parent == g && mem[uncle].parent == g
      modifies this
      ensures mem == Painted(Painted(Painted(old(mem), uncle, false), p, false), g, true) && root == old(root)
    {
      mem := mem[uncle := mem[uncle].(parent := g, red := false)];
      mem := mem[p := mem[p].(parent := g, red := false)];
      mem := mem[g := mem[g].(parent := mem[g].parent, red := true)];
    }

    /** `__rb_insert_fix`: from `Inserting` to a red-black tree with the same contents. */
    method InsertFix(start: Node, ghost c0: Context, ghost t0: Tree) returns (ghost z: Tree)
      requires Inserting(mem, root, c0, t0) && t0.node == start
      modifies this
      ensures Rebuilt(mem, root, Plug(c0, t0), z) && mem.Keys == old(mem.Keys)
    {
      hide Fits, Distinct, RedBlack, Accepts, BlackHeight, Inorder;
      ghost var c, t := c0, t0;
      var node := start;
      InsertingReads(mem, root, c, t);
      var parent := mem[node].parent;
      while true
        invariant Inserting(mem, root, c, t) && t.node == node && parent == Owner(c, NULL)
        invariant Inorder(Plug(c, t)) == Inorder(Plug(c0, t0)) && mem.Keys == old(mem.Keys)
        decreases c
      {
        InsertingReads(mem, root, c, t);
        if parent == NULL {
          TopPlan(mem, root, t);
          mem := mem[node := mem[node].(parent := NULL, red := false)];
          root := node;
          z := t.(red := false);
          break;
        } else if !mem[parent].red {
          SettledPlan(mem, root, c, t);
          z := Plug(c, t);
          break;
        }
        var gparent: Node := mem[parent].parent;
        var s := if parent != mem[gparent].right then Left else Right;
        var tmp := ChildOf(mem[gparent], Opposite(s));
        if tmp != NULL && mem[tmp].red {
          UnclePlan(mem, root, c, t);
          InsertUncle(gparent, parent, tmp);
          c, t := c.up.up, UncleAfter(c.up.side, c.side, c.up.node, c.node, t, c.sibling, c.up.sibling);
          node := gparent;
          InsertingReads(mem, root, c, t);
          parent := mem[node].parent;
          continue;
        }
        z := InsertRotate(s, gparent, parent, node, c, t);
        break;
      }
    }

    /** Cases 2 and 3 of `__rb_insert_fix`: at most two rotations end the loop. */
    method InsertRotate(s: Side, gparent: Node, parent: Node, node: Node, ghost c: Context, ghost t: Tree)
        returns (ghost z: Tree)
      requires Inserting(mem, root, c, t) && t.node == node
      requires c.In? && c.up.In? && c.node == parent && c.up.node == gparent && c.up.side == s && c.red && !c.up.red
               && !Red(c.up.sibling)
      modifies this
      ensures Rebuilt(mem, root, Plug(c, t), z) && mem.Keys == old(mem.Keys)
    {
      FrameReads(mem, c, t);
      ghost var sib, uncle, up := c.sibling, c.up.sibling, c.up.up;
      assert c == In(c.side, parent, true, sib, In(s, gparent, false, uncle, up));
      var tmp := ChildOf(mem[parent], Opposite(s));
      if node == tmp {
        ghost var a, b := if s.Left? then t.left else t.right, if s.Left? then t.right else t.left;
        assert t == Join(s, node, true, a, b) && c.side == Opposite(s);
        z := InsertRotateInner(s, gparent, parent, node, up, a, b, sib, uncle);
      } else {
        OuterPlan(mem, up, s, gparent, parent, t, sib, uncle);
        z := Plug(up, RotateAfter(s, gparent, true, parent, false, t, sib, uncle));
        RotateRecolour(s, gparent, parent, tmp);
      }
    }

    method InsertRotateInner(s: Side, gparent: Node, parent: Node, node: Node,
                             ghost up: Context, ghost a: Tree, ghost b: Tree, ghost sib: Tree, ghost uncle: Tree)
                             returns (ghost z: Tree)
      requires Inserting(mem, root, In(Opposite(s), parent, true, sib, In(s, gparent, false, uncle, up)),
               Join(s, node, true, a, b)) && !Red(uncle)
      modifies this
      ensures Rebuilt(mem, root,
              Plug(In(Opposite(s), parent, true, sib, In(s, gparent, false, uncle, up)), Join(s, node, true, a, b)), z)
      ensures mem.Keys == old(mem.Keys)
    {
      InnerPlan(mem, up, s, gparent, parent, node, a, b, sib, uncle);
      z := Plug(up, DoubleAfter(s, gparent, true, parent, true, node, false, a, b, uncle, sib));
      InsertInner(s, parent, node);
      RotateRecolour(s, gparent, node, ChildOf(mem[node], Opposite(s)));
    }

    /** `_rb_lookup`; `steps` counts the rounds of its loop. */
    method Lookup(node: Ptr, key: Order) returns (r: Ptr, ghost steps: nat)
      requires Valid(key)
      ensures Logarithmic(steps, |Inorder(tree)|)
      ensures r != NULL ==> r in Nodes(tree) && key(r) == key(node)
      ensures r == NULL ==> forall x :: x in Nodes(tree) ==> key(x) != key(node)
    {
      HeightLogarithmic(tree);
      hide Logarithmic;
      ghost var c, t := Top, tree;
      var nw := root;
      steps := 0;
      while nw != NULL
        invariant Plug(c, t) == tree && nw == Root(t) && Brackets(key, c, key(node))
                  && steps + Height(t) <= Height(tree)
        decreases t
      {
        SubtreeReads(mem, c, t);
        steps := steps + 1;
        if key(node) < key(nw) {
          BracketDown(key, c, t, Left, key(node));
          nw := mem[nw].left;
          c, t := Below(c, t, Left), t.left;
        } else if key(nw) < key(node) {
          BracketDown(key, c, t, Right, key(node));
          nw := mem[nw].right;
          c, t := Below(c, t, Right), t.right;
        } else {
          SortedSplit(key, c, t);
          FewerSteps(steps, Height(tree), |Inorder(tree)|);
          return nw, steps;
        }
      }
      FewerSteps(steps, Height(tree), |Inorder(tree)|);
      forall x | x in Nodes(tree) ensures key(x) != key(node) { BracketEmpty(key, c, key(node), x); }
      r := NULL;
    }

    /** `_rb_first`: the node with the least key. */
    method First(key: Order) returns (r: Ptr)
      requires Valid(key)
      ensures r == NULL <==> tree == Leaf
      ensures r != NULL ==>
              r in Nodes(tree) && r == Inorder(tree)[0] && forall x :: x in Nodes(tree) ==> key(r) <= key(x)
    {
      if root == NULL { return NULL; }
      ghost var c, t := Top, tree;
      var n: Node := root;
      SubtreeReads(mem, c, t);
      while mem[n].left != NULL
        invariant Plug(c, t) == tree && n == Root(t) && Before(c) == []
        invariant n in mem && mem[n].left == Root(t.left)
        decreases t
      {
        SubtreeReads(mem, c, t);
        n := mem[n].left;
        c, t := Below(c, t, Left), t.left;
        SubtreeReads(mem, c, t);
      }
      r := n;
      InorderPlug(c, t);
      SortedSplit(key, c, t);
      assert Inorder(tree)[0] == n;
      forall x | x in Nodes(tree) ensures key(r) <= key(x) {
        NodesInorder(tree, x);
        var i :| 0 <= i < |Inorder(tree)| && Inorder(tree)[i] == x;
      }
    }

    /** The search loop of `_rb_insert`, which also hangs the new node below the last node it met. */
    method InsertDescend(node: Node, key: Order) returns (dup: bool, ghost c: Context)
      requires Valid(key) && node !in Nodes(tree)
      modifies `mem
      ensures dup ==>
              mem == old(mem)[node := Fields(NULL, NULL, NULL, true)]
              && exists x :: x in Nodes(tree) && key(x) == key(node)
      ensures !dup ==> LeafHung(old(mem), mem, c, node) && Plug(c, Leaf) == tree && Brackets(key, c, key(node))
    {
      hide Fits, Distinct, RedBlack, Sorted, Inorder;
      ghost var t := tree;
      c := Top;
      var nw, parent := root, NULL;
      mem := mem[node := Fields(NULL, NULL, NULL, true)];
      while nw != NULL
        invariant Plug(c, t) == tree && nw == Root(t) && parent == Owner(c, NULL) && Brackets(key, c, key(node))
        invariant nw == NULL ==> LeafHung(old(mem), mem, c, node)
        invariant nw != NULL ==> mem == old(mem)[node := Fields(NULL, NULL, NULL, true)]
        decreases t
      {
        SubtreeReads(old(mem), c, t);
        SortedSplit(key, c, t);
        parent := nw;
        if key(node) < key(nw) {
          BracketDown(key, c, t, Left, key(node));
          nw := mem[nw].left;
          c, t := Below(c, t, Left), t.left;
          if nw == NULL {
            mem := mem[parent := mem[parent].(left := node)];
            mem := mem[node := mem[node].(parent := parent)];
          }
        } else if key(nw) < key(node) {
          BracketDown(key, c, t, Right, key(node));
          nw := mem[nw].right;
          c, t := Below(c, t, Right), t.right;
          if nw == NULL {
            mem := mem[parent := mem[parent].(right := node)];
            mem := mem[node := mem[node].(parent := parent)];
          }
        } else {
          return true, c;
        }
      }
      dup := false;
    }

    /** `_rb_insert`: returns -1 exactly when an equal key is present, and otherwise adds exactly this node. */
    method Insert(node: Node, key: Order) returns (r: int)
      requires Valid(key) && node !in Nodes(tree)
      modifies this
      ensures Valid(key)
      ensures r == if exists x :: x in old(Nodes(tree)) && key(x) == key(node) then -1 else 0
      ensures r == -1 ==> tree == old(tree)
      ensures r == 0 ==> Nodes(tree) == old(Nodes(tree)) + {node}
    {
      var dup;
      ghost var c;
      dup, c := InsertDescend(node, key);
      if dup {
        return -1;
      }
      forall x | x in Nodes(tree) ensures key(x) != key(node) { BracketEmpty(key, c, key(node), x); }
      PlugAccepts(c, Leaf);
      LeafInserted(old(mem), mem, c, node);
      LeafSorted(key, c, node);
      ghost var z := InsertFix(node, c, Branch(node, true, Leaf, Leaf));
      tree := z;
      NodesOfSame(tree, Plug(c, Branch(node, true, Leaf, Leaf)));
      r := 0;
    }

    /** Case 3 of `__rb_erase_fix`: the red near nephew m moves between parent and sibling. */
    method EraseNear(s: Side, parent: Node, sibling: Node, m: Node)
      requires parent in mem && m in mem && Rotatable(mem, sibling, m, ChildOf(mem[m], s))
      requires parent != sibling && parent != m && parent != ChildOf(mem[m], s)
      requires var a := ChildOf(mem[m], s); a != NULL ==> !mem[a].red
      modifies this
      ensures mem == NearLifted(old(mem), s, parent, sibling, m, ChildOf(old(mem)[m], s)) && root == old(root)
    {
      var tmp1 := ChildOf(mem[m], s);
      mem := mem[sibling := WithChild(mem[sibling], Opposite(s), tmp1)];
      if tmp1 != NULL {
        mem := mem[tmp1 := mem[tmp1].(parent := sibling, red := false)];
      }
      mem := mem[m := WithChild(mem[m], s, sibling)];
      mem := mem[parent := WithChild(mem[parent], s, m)];
    }

    /** Case 4 of `__rb_erase_fix`. */
    method EraseFar(s: Side, parent: Node, sibling: Node, far: Node, tmp2: Ptr)
      requires Rotatable(mem, parent, sibling, tmp2)
      requires far in mem && far != parent && far != sibling && far != tmp2 && far != mem[parent].parent
      modifies this
      ensures mem == Blackened(Rotated(old(mem), s, parent, false, sibling, old(mem)[parent].red, tmp2), far, sibling)
      ensures root == if old(mem)[parent].parent == NULL then sibling else old(root)
    {
      mem := mem[parent := WithChild(mem[parent], s, tmp2)];
      if tmp2 != NULL {
        mem := mem[tmp2 := mem[tmp2].(parent := parent)];
      }
      mem := mem[sibling := WithChild(mem[sibling], Opposite(s), parent)];
      assert mem == Hung(old(mem), s, parent, sibling, tmp2);
      mem := mem[far := mem[far].(parent := sibling, red := false)];
      RotateSetParents(parent, sibling, false);
      HungFarThenSet(old(mem), s, parent, false, sibling, tmp2, far);
    }

    /** Cases 3 and 4: a red nephew ends the loop. */
    method EraseRotate(h: Side, parent: Node, sibling: Node, ghost c: Context, ghost t: Tree) returns (ghost z: Tree)
      requires Erasing(mem, root, c, t) && c.side == h && c.node == parent && c.sibling.Branch?
               && c.sibling.node == sibling
      requires !c.sibling.red && (Red(c.sibling.left) || Red(c.sibling.right))
      modifies this
      ensures Rebuilt(mem, root, Plug(c, t), z) && mem.Keys == old(mem.Keys)
    {
      hide Rebuilt, Plug, Fits, Distinct, RedBlack, Accepts, BlackHeight;
      ErasingReads(mem, root, c, t);
      var s := Opposite(h);
      ghost var far, near := Subtree(c.sibling, s), Subtree(c.sibling, h);
      assert c == In(h, parent, c.red, Join(s, sibling, false, far, near), c.up);
      var tmp1, tmp2 := ChildOf(mem[sibling], s), ChildOf(mem[sibling], h);
      if tmp1 == NULL || !mem[tmp1].red {
        assert near == Join(s, tmp2, true, Subtree(near, s), Subtree(near, h));
        z := EraseRotateNear(h, parent, c.red, sibling, tmp2, far, Subtree(near, s), Subtree(near, h), c.up, t);
      } else {
        FarRedPlan(mem, root, h, parent, c.red, sibling, far, near, c.up, t);
        z := Plug(c.up, RotateAfter(s, parent, false, sibling, c.red, far.(red := false), near, t));
        EraseFar(s, parent, sibling, tmp1, tmp2);
      }
    }

    method EraseRotateNear(h: Side, parent: Node, ghost pr: bool, sibling: Node, m: Node, ghost far: Tree,
                           ghost a: Tree, ghost b: Tree,
                           ghost up: Context, ghost t: Tree) returns (ghost z: Tree)
      requires !Red(far)
      requires Erasing(mem, root,
               In(h, parent, pr, Join(Opposite(h), sibling, false, far, Join(Opposite(h), m, true, a, b)), up), t)
      modifies this
      ensures Rebuilt(mem, root,
              Plug(In(h, parent, pr, Join(Opposite(h), sibling, false, far, Join(Opposite(h), m, true, a, b)), up), t),
              z)
      ensures mem.Keys == old(mem.Keys)
    {
      hide Erasing, Rebuilt, Plug, DoubleAfter;
      NearRedPlan(mem, root, h, parent, pr, sibling, far, m, a, b, up, t);
      z := Plug(up, DoubleAfter(Opposite(h), parent, false, sibling, false, m, pr, a, b, t, far));
      EraseNear(Opposite(h), parent, sibling, m);
      EraseFar(Opposite(h), parent, m, sibling, ChildOf(mem[m], h));
    }

    /** Case 2 of `__rb_erase_fix`: done when the parent was red or is the root. */
    method EraseUp(parent: Node, sibling: Node, ghost c: Context, ghost t: Tree) returns (up: Ptr, ghost t': Tree)
      requires Erasing(mem, root, c, t) && c.node == parent && c.sibling.Branch? && c.sibling.node == sibling
      requires !c.sibling.red && !Red(c.sibling.left) && !Red(c.sibling.right)
      modifies this
      ensures t'.Branch? && t'.node == parent && mem.Keys == old(mem.Keys)
      ensures up == NULL ==> Rebuilt(mem, root, Plug(c, t), Plug(c.up, t'))
      ensures up != NULL ==>
              !c.red && Erasing(mem, root, c.up, t') && up == c.up.node
              && Inorder(Plug(c.up, t')) == Inorder(Plug(c, t))
    {
      t' := Join(c.side, c.node, false, t, c.sibling.(red := true));
      BlackNephewsPlan(mem, root, c, t);
      ghost var m := Painted(Painted(mem, sibling, true), parent, false);
      mem := mem[sibling := mem[sibling].(parent := parent, red := true)];
      if mem[parent].red {
        mem := mem[parent := mem[parent].(red := false)];
        assert mem == m;
        up := NULL;
      } else {
        assert mem == m;
        up := mem[parent].parent;
      }
    }

    /** Case 1 of `__rb_erase_fix`: afterwards the sibling is black. */
    method EraseSibling(h: Side, parent: Node, sibling0: Node, ghost c0: Context, ghost t: Tree)
        returns (sibling: Node, ghost c: Context)
      requires Erasing(mem, root, c0, t) && c0.side == h && c0.node == parent && c0.sibling.Branch?
               && c0.sibling.node == sibling0
      modifies this
      ensures Erasing(mem, root, c, t) && c.side == h && c.node == parent && c.sibling.Branch?
              && c.sibling.node == sibling && !c.sibling.red
      ensures Inorder(Plug(c, t)) == Inorder(Plug(c0, t)) && mem.Keys == old(mem.Keys) && (c == c0 || c.red)
    {
      hide Fits, Distinct, Nodes, Plug, Inorder;
      sibling, c := sibling0, c0;
      ErasingReads(mem, root, c, t);
      if mem[sibling].red {
        var s := Opposite(h);
        ghost var far, near := Subtree(c.sibling, s), Subtree(c.sibling, h);
        assert c == In(h, parent, false, Join(s, sibling, true, far, near), c.up);
        SiblingRedPlan(mem, root, h, parent, sibling, far, near, c.up, t);
        var tmp1: Node := ChildOf(mem[sibling], h);
        RotateRecolour(s, parent, sibling, tmp1);
        c := In(h, parent, true, near, In(h, sibling, false, far, c.up));
        sibling := tmp1;
      }
    }

    /** `__rb_erase_fix`: from `Erasing` to a red-black tree with the same contents. */
    method EraseFix(start: Node, ghost c0: Context) returns (ghost z: Tree)
      requires Erasing(mem, root, c0, Leaf) && c0.node == start
      modifies this
      ensures Rebuilt(mem, root, Plug(c0, Leaf), z) && mem.Keys == old(mem.Keys)
    {
      ghost var c, t := c0, Leaf;
      var node: Ptr, parent: Node := NULL, start;
      while true
        invariant Erasing(mem, root, c, t) && node == Root(t) && parent == c.node
        invariant Inorder(Plug(c, t)) == Inorder(Plug(c0, Leaf)) && mem.Keys == old(mem.Keys)
        decreases c
      {
        ErasingReads(mem, root, c, t);
        var h := if node != mem[parent].right then Left else Right;
        var sibling: Node := ChildOf(mem[parent], Opposite(h));
        sibling, c := EraseSibling(h, parent, sibling, c, t);
        ErasingReads(mem, root, c, t);
        var tmp1, tmp2 := ChildOf(mem[sibling], Opposite(h)), ChildOf(mem[sibling], h);
        if (tmp1 == NULL || !mem[tmp1].red) && (tmp2 == NULL || !mem[tmp2].red) {
          var up;
          ghost var t';
          up, t' := EraseUp(parent, sibling, c, t);
          c, t := c.up, t';
          node := parent;
          if up == NULL {
            z := Plug(c, t);
            break;
          }
          parent := up;
        } else {
          z := EraseRotate(h, parent, sibling, c, t);
          break;
        }
      }
    }

    /** The branches of `__rb_erase` for a node with at most one child u. */
    method EraseSingle(node: Node, u: Ptr) returns (rebalance: Ptr)
      requires node in mem && (u != NULL ==> u in mem) && (mem[node].parent != NULL ==> mem[node].parent in mem)
      requires u != node && mem[node].parent != node && (u != NULL ==> mem[node].parent != u)
      modifies this
      ensures mem == Spliced(old(mem), node, u)
      ensures root == if old(mem)[node].parent == NULL then u else old(root)
      ensures rebalance == if u == NULL && !old(mem)[node].red then old(mem)[node].parent else NULL
    {
      var pc := mem[node];
      if pc.parent != NULL {
        mem := mem[pc.parent := ChangeChild(mem[pc.parent], node, u)];
      } else {
        root := u;
      }
      if u != NULL {
        mem := mem[u := mem[u].(parent := pc.parent, red := pc.red)];
        rebalance := NULL;
      } else {
        rebalance := if !pc.red then pc.parent else NULL;
      }
    }

    /** The loop of `__rb_erase` that finds the successor, leftmost in the right subtree r. */
    method FindSuccessor(child: Node, ghost d: Context, ghost r: Tree)
        returns (successor: Node, parent: Node, ghost rc: Context, ghost s: Tree)
      requires r.Branch? && r.node == child && Distinct(Plug(d, r)) && Fits(mem, Plug(d, r))
      ensures s.Branch? && s.left == Leaf && s.node == successor && LeftSpine(rc) && Plug(rc, s) == r
              && parent == Owner(rc, successor)
    {
      successor, parent, rc, s := child, child, Top, r;
      SubtreeReads(mem, d, r);
      var tmp := mem[child].left;
      while tmp != NULL
        invariant s.Branch? && s.node == successor && LeftSpine(rc) && Plug(rc, s) == r
                  && parent == Owner(rc, successor) && tmp == Root(s.left)
        decreases s
      {
        AppendPlug(rc, d, s);
        parent := successor;
        successor := tmp;
        rc, s := Below(rc, s, Left), s.left;
        AppendPlug(rc, d, s);
        SubtreeReads(mem, Append(rc, d), s);
        tmp := mem[tmp].left;
      }
    }

    /** The relinking of `__rb_erase` around the successor. */
    method Relink(node: Node, successor: Node, parent: Node) returns (rebalance: Ptr)
      requires Relinkable(mem, node, successor, parent)
      modifies this
      ensures mem == Relinked(old(mem), node, successor, parent)
      ensures root == if old(mem)[node].parent == NULL then successor else old(root)
      ensures rebalance == if old(mem)[successor].right == NULL && !old(mem)[successor].red then parent else NULL
    {
      var child, child2 := mem[node].right, mem[successor].right;
      if parent == successor {
        RelinkWritesRight(mem, node, successor);
      } else {
        RelinkWritesDeep(mem, node, successor, parent);
        mem := mem[parent := mem[parent].(left := child2)];
        mem := mem[successor := mem[successor].(right := child)];
        mem := mem[child := mem[child].(parent := successor)];
      }
      rebalance := Raise(node, successor, parent, child2);
    }

    method Raise(node: Node, successor: Node, parent: Node, child2: Ptr) returns (rebalance: Ptr)
      requires node in mem && successor in mem && node != successor && mem[node].left in mem && mem[node].left != node
               && mem[node].left != successor
      requires (mem[node].parent != NULL ==> mem[node].parent in mem) && mem[node].parent !in {
               node, successor, mem[node].left}
      requires (child2 != NULL ==> child2 in mem && child2 !in {mem[node].parent, mem[node].left}) && child2 !in {
               node, successor}
      modifies this
      ensures mem == Raised(old(mem), node, successor, parent, child2)
      ensures root == if old(mem)[node].parent == NULL then successor else old(root)
      ensures rebalance == if child2 == NULL && !old(mem)[successor].red then parent else NULL
    {
      var tmp := mem[node].left;
      mem := mem[successor := mem[successor].(left := tmp)];
      mem := mem[tmp := mem[tmp].(parent := successor)];
      var pc := mem[node];
      if pc.parent != NULL {
        mem := mem[pc.parent := ChangeChild(mem[pc.parent], node, successor)];
      } else {
        root := successor;
      }
      if child2 != NULL {
        mem := mem[successor := mem[successor].(parent := pc.parent, red := pc.red)];
        mem := mem[child2 := mem[child2].(parent := parent, red := false)];
        rebalance := NULL;
      } else {
        var pc2 := mem[successor];
        mem := mem[successor := mem[successor].(parent := pc.parent, red := pc.red)];
        rebalance := if !pc2.red then parent else NULL;
      }
    }

    /** `__rb_erase`: takes the node out and says where the fix-up has to start. */
    method Unlink(node: Node, ghost c: Context, ghost t: Tree)
        returns (rebalance: Ptr, ghost cz: Context, ghost z: Tree)
      requires t.Branch? && t.node == node && Rebuilt(mem, root, Plug(c, t), Plug(c, t))
      modifies this
      ensures Erased(mem, root, rebalance, cz, z)
      ensures Nodes(z) == Nodes(Plug(c, t)) - {node} && Removed(Inorder(Plug(c, t)), Inorder(z), node)
    {
      SubtreeReads(mem, c, t);
      var child, tmp := mem[node].right, mem[node].left;
      if tmp == NULL {
        SinglePlan(mem, c, t, t.right);
        SpliceReads(mem, c, t, t.right);
        cz, z := c, Plug(c, Recoloured(t.right, t.red));
        rebalance := EraseSingle(node, child);
      } else if child == NULL {
        SinglePlan(mem, c, t, t.left);
        SpliceReads(mem, c, t, t.left);
        cz, z := c, Plug(c, Recoloured(t.left, t.red));
        rebalance := EraseSingle(node, tmp);
      } else {
        rebalance, cz, z := UnlinkInner(node, child, c, t);
      }
    }

    method UnlinkInner(node: Node, child: Node, ghost c: Context, ghost t: Tree)
        returns (rebalance: Ptr, ghost cz: Context, ghost z: Tree)
      requires t.Branch? && t.node == node && t.left.Branch? && t.right.Branch? && t.right.node == child
      requires Rebuilt(mem, root, Plug(c, t), Plug(c, t))
      modifies this
      ensures Erased(mem, root, rebalance, cz, z)
      ensures Nodes(z) == Nodes(Plug(c, t)) - {node} && Removed(Inorder(Plug(c, t)), Inorder(z), node)
    {
      var successor, parent;
      ghost var rc, s;
      successor, parent, rc, s := FindSuccessor(child, Below(c, t, Right), t.right);
      assert t == Branch(node, t.red, t.left, Plug(rc, s));
      SuccessorReads(mem, c, node, t.red, t.left, rc, s);
      SuccessorPlan(mem, c, node, t.red, t.left, rc, s);
      cz, z := HoleContext(c, successor, t.red, t.left, rc), Succeeded(c, t.red, t.left, rc, s);
      rebalance := Relink(node, successor, parent);
    }

    /** `_rb_erase`: removes exactly this node and keeps a red-black search tree. */
    method Erase(node: Node, ghost key: Order)
      requires Valid(key) && node in Nodes(tree)
      modifies this
      ensures Valid(key)
      ensures Nodes(tree) == old(Nodes(tree)) - {node}
    {
      hide Fits, Distinct, RedBlack, Nodes, Inorder, Sorted, Removed, Accepts, BlackHeight, Plug;
      PlugTop(tree);
      ghost var c, t := Locate(Top, tree, node);
      ghost var w := tree;
      var rebalance;
      ghost var cz, z;
      rebalance, cz, z := Unlink(node, c, t);
      RemovedSorted(key, Inorder(w), Inorder(z), node);
      tree := z;
      if rebalance != NULL {
        ghost var done := EraseFix(rebalance, cz);
        RebuiltSelf(mem, root, z, done);
        tree := done;
      }
    }

    /** Any legal history of insertions and erasures leaves the contents of a plain set of nodes with distinct keys. */
    method Replay(ops: seq<Op>, key: Order)
      requires Valid(key) && Legal(Nodes(tree), ops, key)
      modifies this
      ensures Valid(key) && Nodes(tree) == Contents(old(Nodes(tree)), ops, key)
      ensures Logarithmic(Height(tree), |Inorder(tree)|)
    {
      for i := 0 to |ops|
        invariant Valid(key) && Legal(Nodes(tree), ops[i..], key)
        invariant Contents(Nodes(tree), ops[i..], key) == Contents(old(Nodes(tree)), ops, key)
      {
        assert ops[i..][0] == ops[i] && ops[i..][1..] == ops[i + 1..];
        match ops[i] {
          case InsertOp(n) => var r := Insert(n, key);
          case EraseOp(n) => Erase(n, key);
        }
      }
      assert ops[|ops|..] == [];
      HeightLogarithmic(tree);
    }
  }

  datatype Op = InsertOp(n: Node) | EraseOp(n: Node)

  ghost function Then(s: set<Node>, op: Op, key: Order): set<Node> {
    match op
    case InsertOp(n) => if exists x :: x in s && key(x) == key(n) then s else s + {n}
    case EraseOp(n) => s - {n}
  }

  ghost function Contents(s: set<Node>, ops: seq<Op>, key: Order): set<Node>
    decreases ops
  {
    if ops == [] then s else Contents(Then(s, ops[0], key), ops[1..], key)
  }

  /** What the code asks of its callers: insert only nodes that are not linked in, erase only nodes that are. */
  ghost predicate Legal(s: set<Node>, ops: seq<Op>, key: Order)
    decreases ops
  {
    ops != [] ==>
      && (if ops[0].InsertOp? then ops[0].n !in s else ops[0].n in s)
      && Legal(Then(s, ops[0], key), ops[1..], key)
  }
}
