/**
  A list of `src/common/list.c` as its users see it: a head node and, behind it, the nodes in order.
  Each operation is the pointer operation of `list.h` and is proved against the sequence.
 */
module LinkedQueues {
  import opened Lists
  import opened Rings

  lemma {:induction false} DetachedSplit(a: seq<nat>, x: nat, b: seq<nat>)
    requires x !in a && x !in b
    ensures Detached(a + [x] + b, x) == a + b
    decreases a
  {
    if a == [] {
      assert (a + [x] + b)[1..] == b && a + b == b;
      DetachedAbsent(b, x);
    } else {
      DetachedSplit(a[1..], x, b);
      assert (a + [x] + b)[1..] == a[1..] + [x] + b && (a + [x] + b)[0] == a[0];
      assert a + b == [a[0]] + (a[1..] + b);
    }
  }

  lemma {:induction false} DetachedAbsent(q: seq<nat>, x: nat)
    requires x !in q
    ensures Detached(q, x) == q
  {
    if q != [] { DetachedAbsent(q[1..], x); }
  }

  /** The queue around a node that is in it. */
  lemma {:induction false} Around(mem: Heap, head: nat, q: seq<nat>, x: nat) returns (a: seq<nat>, b: seq<nat>)
    requires IsList(mem, head, q) && x in q
    ensures x != head && Detached(q, x) == a + b && Ring(mem, [x] + b + [head] + a)
  {
    hide Ring, Detached;
    var k: nat :| k < |q| && q[k] == x;
    a, b := q[..k], q[k + 1..];
    assert q == a + [x] + b;
    AroundAt(mem, head, a, x, b);
  }

  lemma {:induction false} AroundAt(mem: Heap, head: nat, a: seq<nat>, x: nat, b: seq<nat>)
    requires IsList(mem, head, a + [x] + b)
    ensures x != head && Detached(a + [x] + b, x) == a + b && Ring(mem, [x] + b + [head] + a)
  {
    hide Detached, LinkedTo, Succ;
    var s := ([head] + a) + ([x] + b);
    assert [head] + (a + [x] + b) == s && s[|a| + 1] == x;
    Once(s, |a| + 1);
    hide Ring;
    assert s[..|a| + 1] == [head] + a && s[|a| + 2..] == b;
    DetachedSplit(a, x, b);
    Rotate(mem, [head] + a, [x] + b);
    assert ([x] + b) + ([head] + a) == [x] + b + [head] + a;
  }

  lemma {:induction false} Once(s: seq<nat>, k: nat)
    requires Distinct(s) && k < |s|
    ensures s[k] !in s[..k] && s[k] !in s[k + 1..]
  {
  }

  /** The ring without the node, entered at the head again. */
  lemma {:induction false} Closed(mem: Heap, head: nat, a: seq<nat>, b: seq<nat>)
    requires Ring(mem, b + [head] + a)
    ensures IsList(mem, head, a + b)
  {
    hide Ring;
    assert b + [head] + a == b + ([head] + a);
    assert ([head] + a) + b == [head] + (a + b);
    if b != [] {
      Rotate(mem, b, [head] + a);
    } else {
      assert b + ([head] + a) == [head] + (a + b);
    }
  }

  /** A node outside the ring may be given any links. */
  lemma {:induction false} Outside(mem: Heap, s: seq<nat>, n: nat)
    requires Ring(mem, s) && n !in s
    ensures Ring(mem[n := Links(n, n)], s) && Ring(mem[n := Links(n, n)], [n])
  {
    forall x | x in s ensures x in mem {
      var i: nat :| i < |s| && s[i] == x;
      assert LinkedTo(mem, s[i], Succ(s, i));
    }
    OtherRing(mem, mem[n := Links(n, n)], s);
  }

  /** The ring entered at the last node of the list, and back. */
  lemma {:induction false} FromLast(mem: Heap, head: nat, q: seq<nat>) returns (s: seq<nat>)
    requires IsList(mem, head, q)
    ensures head in mem && s != [] && Ring(mem, s) && s[0] == mem[head].prev
    ensures (forall x :: x in s <==> x == head || x in q)
    ensures forall m: Heap, n: nat {:trigger Ring(m, [s[0]] + [n] + s[1..])} | Ring(m, [s[0]] + [n] + s[1..]) ::
              IsList(m, head, q + [n])
  {
    hide Ring;
    RingEnds(mem, [head] + q);
    if q == [] {
      s := [head];
      assert [head] + q == s;
      forall m: Heap, n: nat | Ring(m, [s[0]] + [n] + s[1..]) ensures IsList(m, head, q + [n]) {
        assert [s[0]] + [n] + s[1..] == [head] + (q + [n]);
      }
    } else {
      var init, last := q[..|q| - 1], q[|q| - 1];
      assert [head] + q == ([head] + init) + [last];
      Rotate(mem, [head] + init, [last]);
      s := [last] + ([head] + init);
      assert q == init + [last];
      forall m: Heap, n: nat | Ring(m, [s[0]] + [n] + s[1..]) ensures IsList(m, head, q + [n]) {
        assert [s[0]] + [n] + s[1..] == ([last] + [n]) + ([head] + init);
        Rotate(m, [last] + [n], [head] + init);
        assert ([head] + init) + ([last] + [n]) == [head] + (q + [n]);
      }
    }
  }

  class Queue {
    const ring: Nodes
    const head: nat
    ghost var items: seq<nat>

    ghost predicate Valid()
      reads this, ring
    {
      head != 0 && IsList(ring.mem, head, items)
    }

    /** `init_list_node` of the head. */
    constructor (h: nat)
      requires h != 0
      ensures Valid() && items == [] && fresh(ring) && head == h
    {
      ring := new Nodes();
      head, items := h, [];
      new;
      ring.Init(h);
      assert [h] + [] == [h];
    }

    /** `_insert_into_list(head, n)` */
    method PushFront(n: nat)
      requires Valid() && n != 0 && n != head && n !in items
      modifies `items, ring
      ensures Valid() && items == [n] + old(items)
    {
      hide Ring, Merged;
      ghost var s := [head] + items;
      Outside(ring.mem, s, n);
      ring.Init(n);
      var _ := ring.MergeList(head, n, s, [n]);
      items := [n] + items;
      assert [head] + [n] + s[1..] == [head] + items;
    }

    /** `_insert_into_list(head->prev, n)` */
    method PushBack(n: nat)
      requires Valid() && n != 0 && n != head && n !in items && 0 !in items
      modifies `items, ring
      ensures Valid() && items == old(items) + [n]
    {
      hide Ring, Merged;
      ghost var s := FromLast(ring.mem, head, items);
      assert s[0] in s;
      Outside(ring.mem, s, n);
      var last := ring.mem[head].prev;
      ring.Init(n);
      var _ := ring.MergeList(last, n, s, [n]);
      assert Ring(ring.mem, [s[0]] + [n] + s[1..]);
      items := items + [n];
    }

    /** `_detach_from_list(x)` */
    method Remove(x: nat)
      requires Valid() && x in items
      modifies `items, ring
      ensures Valid() && items == Detached(old(items), x) && Ring(ring.mem, [x])
    {
      hide Ring, Detached;
      ghost var a, b := Around(ring.mem, head, items, x);
      ghost var s := [x] + b + [head] + a;
      var _ := ring.Detach(x, s);
      assert s[1..] == b + [head] + a;
      Closed(ring.mem, head, a, b);
      items := a + b;
    }

    /** `head->prev` */
    method Last() returns (x: nat)
      requires Valid()
      ensures x == if items == [] then head else items[|items| - 1]
    {
      RingEnds(ring.mem, [head] + items);
      x := ring.mem[head].prev;
    }

    /** `head->prev` is detached. */
    method TakeLast() returns (x: nat)
      requires Valid() && items != []
      modifies `items, ring
      ensures Valid() && old(items) == items + [x]
    {
      hide Ring, Detached;
      x := Last();
      ghost var rest := items[..|items| - 1];
      assert items == rest + [x] + [];
      AroundAt(ring.mem, head, rest, x, []);
      assert rest + [] == rest;
      Remove(x);
    }

    /**
      `_merge_list(head, other->next)` and `_detach_from_list(other)`: the nodes of a list that is not
      empty come in front of this one's.
     */
    method Absorb(other: Queue)
      requires Valid() && other.Valid() && other.ring == ring && other.items != [] && 0 !in other.items
               && forall y | y in [head] + items :: y !in [other.head] + other.items
      modifies `items, other`items, ring
      ensures Valid() && other.Valid() && items == old(other.items) + old(items) && other.items == []
    {
      hide Ring;
      ghost var s, cs, h := [head] + items, other.items, other.head;
      ghost var t := cs + [h];
      Rotate(ring.mem, [h], cs);
      RingEnds(ring.mem, [h] + cs);
      forall y | y in s ensures y !in t { assert y !in [h] + cs; }
      var first := ring.mem[other.head].next;
      assert first in cs;
      var _ := ring.MergeList(head, first, s, t);
      assert [head] + t + s[1..] == ([head] + cs) + ([h] + old(items));
      Rotate(ring.mem, [head] + cs, [h] + old(items));
      ghost var u := ([h] + old(items)) + ([head] + cs);
      var _ := ring.Detach(other.head, u);
      assert u[1..] == old(items) + [head] + cs;
      Closed(ring.mem, head, cs, old(items));
      assert head in s && h in [h] + cs;
      items, other.items := cs + old(items), [];
      assert [h] + [] == [h];
    }

    /** `_for_in_list`: the node behind x, or the head. */
    method After(x: nat, ghost i: nat) returns (y: nat)
      requires Valid() && i <= |items| && x == ([head] + items)[i]
      ensures y == if i < |items| then items[i] else head
    {
      ghost var s := [head] + items;
      assert LinkedTo(ring.mem, s[i], Succ(s, i));
      y := ring.mem[x].next;
    }
  }

  lemma {:induction false} ItemsDistinct(q: Queue)
    requires q.Valid()
    ensures Distinct(q.items)
  {
    assert forall i: nat | i < |q.items| :: ([q.head] + q.items)[i + 1] == q.items[i];
  }
}
