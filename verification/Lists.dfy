/** Who holds a spinlock. */
module SpinLocks {
  datatype Holder = Nobody | By(p: nat)
}

/** The intrusive lists of `src/common/list.c`, as sequences without repetition. */
module Lists {
  ghost predicate Distinct(q: seq<nat>) {
    forall i, j | 0 <= i < j < |q| :: q[i] != q[j]
  }

  /** `_detach_from_list`, of a queue seen as a sequence. */
  function Detached(q: seq<nat>, p: nat): (r: seq<nat>)
    ensures forall x :: x in r <==> x in q && x != p
    ensures |r| <= |q|
  {
    if q == [] then [] else if q[0] == p then Detached(q[1..], p) else [q[0]] + Detached(q[1..], p)
  }

  lemma {:induction false} DetachedDistinct(q: seq<nat>, p: nat)
    requires Distinct(q)
    ensures Distinct(Detached(q, p)) && |Detached(q, p)| == |q| - (if p in q then 1 else 0)
  {
    if q != [] {
      DetachedDistinct(q[1..], p);
      assert q[0] !in q[1..];
    }
  }

  lemma {:induction false} AddedDistinct(q: seq<nat>, p: nat)
    requires Distinct(q) && p !in q
    ensures Distinct([p] + q) && Distinct(q + [p])
  {
  }

  lemma {:induction false} TailDistinct(q: seq<nat>)
    requires q != [] && Distinct(q)
    ensures Distinct(q[1..]) && q[0] !in q[1..]
  {
  }

  lemma {:induction false} JoinedDistinct(a: seq<nat>, b: seq<nat>)
    requires Distinct(a) && Distinct(b) && forall x | x in a :: x !in b
    ensures Distinct(a + b)
  {
    forall i, j | 0 <= i < j < |a + b| ensures (a + b)[i] != (a + b)[j] {
      if i < |a| <= j { assert a[i] in a && b[j - |a|] in b; }
    }
  }

  // ----- order -----

  /** x stands before y in the queue. */
  ghost predicate Before(q: seq<nat>, x: nat, y: nat) {
    exists i: nat, j: nat :: i < j < |q| && q[i] == x && q[j] == y
  }

  lemma {:induction false} BeforeTail(q: seq<nat>, x: nat, y: nat)
    requires q != []
    ensures Before(q, x, y) <==> (q[0] == x && y in q[1..]) || Before(q[1..], x, y)
  {
    if Before(q, x, y) {
      var i: nat, j: nat :| i < j < |q| && q[i] == x && q[j] == y;
      assert q[1..][j - 1] == y;
      if i > 0 { assert q[1..][i - 1] == x; }
    }
    if q[0] == x && y in q[1..] {
      var j: nat :| j < |q[1..]| && q[1..][j] == y;
      assert q[j + 1] == y;
    }
    if Before(q[1..], x, y) {
      var i: nat, j: nat :| i < j < |q[1..]| && q[1..][i] == x && q[1..][j] == y;
      assert q[i + 1] == x && q[j + 1] == y;
    }
  }

  lemma {:induction false} DetachedOrder(q: seq<nat>, p: nat, x: nat, y: nat)
    requires x != p && y != p
    ensures Before(Detached(q, p), x, y) <==> Before(q, x, y)
  {
    if q != [] {
      DetachedOrder(q[1..], p, x, y);
      BeforeTail(q, x, y);
      if q[0] != p {
        var r := Detached(q, p);
        assert r[1..] == Detached(q[1..], p);
        BeforeTail(r, x, y);
      }
    }
  }

  lemma {:induction false} AppendedOrder(q: seq<nat>, p: nat, x: nat, y: nat)
    ensures y != p ==> (Before(q + [p], x, y) <==> Before(q, x, y))
    ensures x in q ==> Before(q + [p], x, p)
  {
    var r := q + [p];
    if y != p && Before(r, x, y) {
      var i: nat, j: nat :| i < j < |r| && r[i] == x && r[j] == y;
      assert q[i] == x && q[j] == y;
    }
    if Before(q, x, y) {
      var i: nat, j: nat :| i < j < |q| && q[i] == x && q[j] == y;
      assert r[i] == x && r[j] == y;
    }
    if x in q {
      var i: nat :| i < |q| && q[i] == x;
      assert r[i] == x && r[|q|] == p;
    }
  }

  lemma {:induction false} NotTwice(q: seq<nat>, x: nat)
    requires q != [] && Distinct(q)
    ensures !Before(q, x, q[0])
  {
  }

  lemma {:induction false} BeforeIn(q: seq<nat>, x: nat, y: nat)
    ensures Before(q, x, y) ==> x in q && y in q
  {
  }

  lemma {:induction false} BeforeConcat(a: seq<nat>, b: seq<nat>, x: nat, y: nat)
    ensures Before(a + b, x, y) <==> Before(a, x, y) || Before(b, x, y) || (x in a && y in b)
  {
    var r := a + b;
    if Before(r, x, y) {
      var i: nat, j: nat :| i < j < |r| && r[i] == x && r[j] == y;
      if j < |a| {
        assert a[i] == x && a[j] == y;
      } else if i >= |a| {
        assert b[i - |a|] == x && b[j - |a|] == y;
      } else {
        assert a[i] == x && b[j - |a|] == y;
      }
    }
    if Before(a, x, y) {
      var i: nat, j: nat :| i < j < |a| && a[i] == x && a[j] == y;
      assert r[i] == x && r[j] == y;
    }
    if Before(b, x, y) {
      var i: nat, j: nat :| i < j < |b| && b[i] == x && b[j] == y;
      assert r[|a| + i] == x && r[|a| + j] == y;
    }
    if x in a && y in b {
      var i: nat :| i < |a| && a[i] == x;
      var j: nat :| j < |b| && b[j] == y;
      assert r[i] == x && r[|a| + j] == y;
    }
  }

  lemma {:induction false} SplitApart(a: seq<nat>, b: seq<nat>)
    requires Distinct(a + b)
    ensures forall x | x in a :: x !in b
  {
    forall i: nat, j: nat | i < |a| && j < |b| ensures a[i] != b[j] {
      assert (a + b)[i] == a[i] && (a + b)[|a| + j] == b[j];
    }
  }

  /** A list without repetition whose elements are all in another is no longer than that one. */
  lemma {:induction false} FitsInto(a: seq<nat>, b: seq<nat>)
    requires Distinct(a) && forall x | x in a :: x in b
    ensures |a| <= |b|
  {
    if a != [] {
      TailDistinct(a);
      var x := a[0];
      assert x in a;
      var j: nat :| j < |b| && b[j] == x;
      var rest := b[..j] + b[j + 1..];
      forall y | y in a[1..] ensures y in rest {
        assert y in a;
        var k: nat :| k < |b| && b[k] == y;
        assert rest[if k < j then k else k - 1] == y;
      }
      FitsInto(a[1..], rest);
    }
  }

  lemma {:induction false} FitsSet(a: seq<nat>, s: set<nat>)
    requires Distinct(a) && forall x | x in a :: x in s
    ensures |a| <= |s|
  {
    if a != [] {
      TailDistinct(a);
      assert a[0] in a;
      forall y | y in a[1..] ensures y in s - {a[0]} { assert y in a; }
      FitsSet(a[1..], s - {a[0]});
    }
  }
}
