/**
  The pointer level of `src/common/list.c`: nodes in rings through `prev` and `next`.  A list is the
  ring of its head, so the sequences that the rest of the model works with are these rings without
  their heads.
 */
module Rings {
  import opened Lists

  datatype Links = Links(prev: nat, next: nat)

  type Heap = map<nat, Links>

  function Succ(s: seq<nat>, i: nat): nat
    requires i < |s|
  {
    if i + 1 < |s| then s[i + 1] else s[0]
  }

  /** The nodes of s, in order and once each, form a ring. */
  ghost predicate Ring(mem: Heap, s: seq<nat>) {
    && s != [] && Distinct(s)
    && forall i: nat | i < |s| :: LinkedTo(mem, s[i], Succ(s, i))
  }

  predicate LinkedTo(mem: Heap, a: nat, b: nat) {
    a in mem && b in mem && mem[a].next == b && mem[b].prev == a
  }

  /** Where a ring is entered does not matter. */
  lemma {:induction false} Rotate(mem: Heap, a: seq<nat>, b: seq<nat>)
    requires Ring(mem, a + b) && a != [] && b != []
    ensures Ring(mem, b + a)
  {
    var t := b + a;
    forall i: nat | i < |t| ensures LinkedTo(mem, t[i], Succ(t, i)) { RotateLink(mem, a, b, i); }
    RotateDistinct(a, b);
  }

  lemma {:induction false} RotateLink(mem: Heap, a: seq<nat>, b: seq<nat>, i: nat)
    requires Ring(mem, a + b) && a != [] && b != [] && i < |a| + |b|
    ensures LinkedTo(mem, (b + a)[i], Succ(b + a, i))
  {
    var s, t := a + b, b + a;
    var j := if i < |b| then |a| + i else i - |b|;
    assert LinkedTo(mem, s[j], Succ(s, j));
    hide Ring, LinkedTo;
    assert t[i] == s[j];
    if i + 1 < |b| {
      assert t[i + 1] == b[i + 1] == s[j + 1];
    } else if i + 1 == |b| {
      assert t[i + 1] == a[0] == s[0];
    } else if i + 1 < |t| {
      assert t[i + 1] == a[i + 1 - |b|] == s[j + 1];
    } else {
      assert t[0] == b[0] == s[|a|] && j + 1 == |a|;
    }
  }

  lemma {:induction false} RotateDistinct(a: seq<nat>, b: seq<nat>)
    requires Distinct(a + b)
    ensures Distinct(b + a)
  {
    var s := a + b;
    assert forall i: nat | i < |a| :: a[i] == s[i];
    assert forall i: nat | i < |b| :: b[i] == s[|a| + i];
    forall x | x in b ensures x !in a {
      var i: nat :| i < |b| && b[i] == x;
      assert forall j: nat | j < |a| :: a[j] != x;
    }
    JoinedDistinct(b, a);
  }

  /** `_merge_list` of two nodes, neither NULL. */
  function Merged(mem: Heap, a: nat, b: nat): Heap
    requires a in mem && b in mem && mem[a].next in mem && mem[b].prev in mem
  {
    var c, d := mem[a].next, mem[b].prev;
    var m1 := mem[a := mem[a].(next := b)];
    var m2 := m1[b := m1[b].(prev := a)];
    var m3 := m2[d := m2[d].(next := c)];
    m3[c := m3[c].(prev := d)]
  }

  lemma {:induction false} RingEnds(mem: Heap, s: seq<nat>)
    requires Ring(mem, s)
    ensures s[0] in mem && mem[s[0]].next == Succ(s, 0) && mem[s[0]].prev == s[|s| - 1] && mem[s[0]].next in mem
            && mem[s[0]].prev in mem
  {
    assert LinkedTo(mem, s[0], Succ(s, 0)) && LinkedTo(mem, s[|s| - 1], Succ(s, |s| - 1));
  }

  /** What the four assignments do, node by node. */
  lemma {:induction false} MergedAt(mem: Heap, s: seq<nat>, t: seq<nat>, x: nat)
    requires Ring(mem, s) && Ring(mem, t) && (forall y | y in s :: y !in t) && x in mem
    ensures s[0] in mem && t[0] in mem && mem[s[0]].next in mem && mem[t[0]].prev in mem
    ensures var m := Merged(mem, s[0], t[0]);
            && m.Keys == mem.Keys
            && m[x].next == (if x == s[0] then t[0] else if x == t[|t| - 1] then Succ(s, 0) else mem[x].next)
            && m[x].prev == (if x == t[0] then s[0] else if x == Succ(s, 0) then t[|t| - 1] else mem[x].prev)
  {
    RingEnds(mem, s);
    RingEnds(mem, t);
    assert s[0] in s && t[0] in t && t[|t| - 1] in t && Succ(s, 0) in s;
  }

  /** Merging splices the second ring in behind the first node of the first. */
  lemma {:induction false} MergeRings(mem: Heap, s: seq<nat>, t: seq<nat>)
    requires Ring(mem, s) && Ring(mem, t) && forall y | y in s :: y !in t
    ensures s[0] in mem && t[0] in mem && mem[s[0]].next in mem && mem[t[0]].prev in mem
    ensures Ring(Merged(mem, s[0], t[0]), [s[0]] + t + s[1..])
  {
    RingEnds(mem, s);
    RingEnds(mem, t);
    var m, r := Merged(mem, s[0], t[0]), [s[0]] + t + s[1..];
    TailDistinct(s);
    JoinedDistinct([s[0]], t);
    JoinedDistinct([s[0]] + t, s[1..]);
    forall i: nat | i < |r| ensures LinkedTo(m, r[i], Succ(r, i)) { MergeLink(mem, s, t, i); }
  }

  lemma {:induction false} MergeLink(mem: Heap, s: seq<nat>, t: seq<nat>, i: nat)
    requires Ring(mem, s) && Ring(mem, t) && (forall y | y in s :: y !in t) && i < |s| + |t|
    ensures s[0] in mem && t[0] in mem && mem[s[0]].next in mem && mem[t[0]].prev in mem
    ensures var r := [s[0]] + t + s[1..]; LinkedTo(Merged(mem, s[0], t[0]), r[i], Succ(r, i))
  {
    RingEnds(mem, s);
    RingEnds(mem, t);
    var r, n := [s[0]] + t + s[1..], |t|;
    var x, y := r[i], Succ(r, i);
    if i == 0 {
      assert x == s[0] && y == t[0];
    } else if i < n {
      assert x == t[i - 1] && y == t[i] && LinkedTo(mem, t[i - 1], Succ(t, i - 1));
    } else if i == n {
      assert x == t[n - 1] && y == Succ(s, 0);
      assert LinkedTo(mem, t[n - 1], Succ(t, n - 1)) && LinkedTo(mem, s[0], Succ(s, 0));
    } else {
      assert x == s[i - n] && y == Succ(s, i - n) && LinkedTo(mem, s[i - n], Succ(s, i - n));
    }
    assert x in mem && y in mem && (x in s || x in t) && (y in s || y in t);
    MergedAt(mem, s, t, x);
    MergedAt(mem, s, t, y);
  }

  /** `_detach_from_list` */
  function Cut(mem: Heap, x: nat): Heap
    requires x in mem && mem[x].prev in mem && mem[x].next in mem
  {
    var m1 := mem[mem[x].prev := mem[mem[x].prev].(next := mem[x].next)];
    var m2 := m1[m1[x].next := m1[m1[x].next].(prev := m1[x].prev)];
    m2[x := Links(x, x)]
  }

  /** The ring closes behind the node, and the node is a ring of its own. */
  lemma {:induction false} CutRing(mem: Heap, s: seq<nat>)
    requires Ring(mem, s) && |s| > 1
    ensures s[0] in mem && mem[s[0]].prev in mem && mem[s[0]].next in mem
    ensures Ring(Cut(mem, s[0]), s[1..]) && Ring(Cut(mem, s[0]), [s[0]])
  {
    RingEnds(mem, s);
    var x, t, m := s[0], s[1..], Cut(mem, s[0]);
    TailDistinct(s);
    assert mem[x].next == t[0] && mem[x].prev == t[|t| - 1];
    forall i: nat | i < |t| ensures LinkedTo(m, t[i], Succ(t, i)) {
      assert LinkedTo(mem, s[i + 1], Succ(s, i + 1));
    }
  }

  /** What other rings are made of is not touched. */
  lemma {:induction false} OtherRing(mem: Heap, mem': Heap, s: seq<nat>)
    requires Ring(mem, s) && forall x | x in s :: x in mem' && mem'[x] == mem[x]
    ensures Ring(mem', s)
  {
    forall i: nat | i < |s| ensures LinkedTo(mem', s[i], Succ(s, i)) {
      assert LinkedTo(mem, s[i], Succ(s, i)) && s[i] in s && Succ(s, i) in s;
    }
  }

  /** Every ring that shares no node with these is a ring as before. */
  ghost predicate OthersSurvive(before: Heap, after: Heap, touched: seq<nat>) {
    forall u: seq<nat> {:trigger Ring(after, u)} {:trigger Ring(before, u)} | Ring(before, u)
        && (forall x | x in u :: x !in touched) :: Ring(after, u)
  }

  lemma {:induction false} Surviving(before: Heap, after: Heap, touched: seq<nat>)
    requires after.Keys == before.Keys && forall x | x in before && x !in touched :: after[x] == before[x]
    ensures OthersSurvive(before, after, touched)
  {
    forall u: seq<nat> | Ring(before, u) && (forall x | x in u :: x !in touched) ensures Ring(after, u) {
      forall x | x in u ensures x in before {
        var i: nat :| i < |u| && u[i] == x;
        assert LinkedTo(before, u[i], Succ(u, i));
      }
      OtherRing(before, after, u);
    }
  }

  class Nodes {
    var mem: Heap

    constructor ()
      ensures mem == map[]
    {
      mem := map[];
    }

    /** `init_list_node` */
    method Init(x: nat)
      modifies this
      ensures mem == old(mem)[x := Links(x, x)] && Ring(mem, [x])
    {
      mem := mem[x := Links(x, x)];
    }

    /** `_merge_list`; 0 is NULL. */
    method MergeList(a: nat, b: nat, ghost s: seq<nat>, ghost t: seq<nat>) returns (r: nat)
      requires a != 0 && b != 0 ==>
               Ring(mem, s) && Ring(mem, t) && s[0] == a && t[0] == b && forall y | y in s :: y !in t
      modifies this
      ensures r == (if a == 0 then b else a)
      ensures a == 0 || b == 0 ==> mem == old(mem)
      ensures a != 0 && b != 0 ==> Ring(mem, [a] + t + s[1..]) && mem.Keys == old(mem).Keys
      ensures a != 0 && b != 0 ==> OthersSurvive(old(mem), mem, s + t)
    {
      if a == 0 { return b; }
      if b == 0 { return a; }
      MergeRings(mem, s, t);
      Untouched(mem, s, t);
      var c, d := mem[a].next, mem[b].prev;
      mem := mem[a := mem[a].(next := b)];
      mem := mem[b := mem[b].(prev := a)];
      mem := mem[d := mem[d].(next := c)];
      mem := mem[c := mem[c].(prev := d)];
      Surviving(old(mem), mem, s + t);
      r := a;
    }

    /** `_detach_from_list`: the node's predecessor, or NULL when the node was alone. */
    method Detach(x: nat, ghost s: seq<nat>) returns (r: nat)
      requires Ring(mem, s) && s[0] == x
      modifies this
      ensures r == if |s| == 1 then 0 else s[|s| - 1]
      ensures Ring(mem, [x]) && (|s| > 1 ==> Ring(mem, s[1..]))
      ensures mem.Keys == old(mem).Keys && OthersSurvive(old(mem), mem, s)
    {
      RingEnds(mem, s);
      if |s| > 1 { CutRing(mem, s); }
      assert Succ(s, 0) in s && s[|s| - 1] in s && s[0] in s;
      var prev := mem[x].prev;
      mem := mem[prev := mem[prev].(next := mem[x].next)];
      mem := mem[mem[x].next := mem[mem[x].next].(prev := mem[x].prev)];
      mem := mem[x := Links(x, x)];
      Surviving(old(mem), mem, s);
      r := if prev == x then 0 else prev;
    }
  }

  lemma {:induction false} Untouched(mem: Heap, s: seq<nat>, t: seq<nat>)
    requires Ring(mem, s) && Ring(mem, t) && forall y | y in s :: y !in t
    ensures s[0] in mem && t[0] in mem && mem[s[0]].next in mem && mem[t[0]].prev in mem
    ensures Merged(mem, s[0], t[0]).Keys == mem.Keys
            && forall x | x in mem && x !in s && x !in t :: Merged(mem, s[0], t[0])[x] == mem[x]
  {
    RingEnds(mem, s);
    RingEnds(mem, t);
    assert s[0] in s && t[0] in t && t[|t| - 1] in t && Succ(s, 0) in s;
  }

  // ----- lists: the ring of the head, without it -----

  ghost predicate IsList(mem: Heap, head: nat, xs: seq<nat>) {
    Ring(mem, [head] + xs)
  }

  /** `_insert_into_list(head, n)` puts n in front; `_insert_into_list(head->prev, n)` puts it at the back. */
  lemma {:induction false} Inserting(mem: Heap, head: nat, xs: seq<nat>, n: nat)
    requires IsList(mem, head, xs) && Ring(mem, [n]) && n != head && n !in xs
    ensures head in mem && n in mem && mem[head].next in mem && mem[n].prev in mem && mem[head].prev in mem
            && mem[mem[head].prev].next in mem
    ensures IsList(Merged(mem, head, n), head, [n] + xs)
    ensures IsList(Merged(mem, mem[head].prev, n), head, xs + [n])
  {
    var s := [head] + xs;
    RingEnds(mem, s);
    MergeRings(mem, s, [n]);
    assert [head] + [n] + s[1..] == [head] + ([n] + xs);
    if xs == [] {
      assert xs + [n] == [n] + xs;
    } else {
      var init, last := xs[..|xs| - 1], xs[|xs| - 1];
      assert s == ([head] + init) + [last];
      Rotate(mem, [head] + init, [last]);
      var t := [last] + ([head] + init);
      RingEnds(mem, t);
      MergeRings(mem, t, [n]);
      var m := Merged(mem, last, n);
      assert [last] + [n] + t[1..] == ([last] + [n]) + ([head] + init);
      Rotate(m, [last] + [n], [head] + init);
      assert ([head] + init) + ([last] + [n]) == [head] + (xs + [n]);
    }
  }

  /** Detaching any node removes it, wherever it stands. */
  lemma {:induction false} Removing(mem: Heap, head: nat, a: seq<nat>, x: nat, b: seq<nat>)
    requires IsList(mem, head, a + [x] + b)
    ensures x in mem && mem[x].prev in mem && mem[x].next in mem
    ensures IsList(Cut(mem, x), head, a + b) && Ring(Cut(mem, x), [x])
  {
    hide Ring;
    assert [head] + (a + [x] + b) == ([head] + a) + ([x] + b);
    Rotate(mem, [head] + a, [x] + b);
    var s := ([x] + b) + ([head] + a);
    CutRing(mem, s);
    hide Cut;
    assert s[1..] == b + ([head] + a);
    assert ([head] + a) + b == [head] + (a + b);
    if b != [] {
      Rotate(Cut(mem, x), b, [head] + a);
    } else {
      assert b + ([head] + a) == [head] + (a + b);
    }
  }

  /**
    `exit` hands over: merging the children's ring behind the root's head and cutting the old head
    out joins the two lists.
   */
  lemma {:induction false} Joining(mem: Heap, root: nat, rs: seq<nat>, owner: nat, cs: seq<nat>)
    requires IsList(mem, root, rs) && IsList(mem, owner, cs) && cs != []
             && forall y | y in [root] + rs :: y !in [owner] + cs
    ensures root in mem && owner in mem && mem[root].next in mem && mem[owner].next == cs[0] && cs[0] in mem
            && mem[cs[0]].prev in mem
    ensures var m := Merged(mem, root, cs[0]);
            owner in m && m[owner].prev in m && m[owner].next in m && IsList(Cut(m, owner), root, cs + rs)
  {
    var s, t := [root] + rs, cs + [owner];
    Rotate(mem, [owner], cs);
    RingEnds(mem, s);
    RingEnds(mem, [owner] + cs);
    RingEnds(mem, t);
    forall y | y in s ensures y !in t { assert y !in [owner] + cs; }
    MergeRings(mem, s, t);
    var m := Merged(mem, root, cs[0]);
    assert [root] + t + s[1..] == [root] + (cs + [owner] + rs);
    Removing(m, root, cs, owner, rs);
  }
}
