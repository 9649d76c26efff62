/**
  The kernel heap of `src/kernel/mem.c`: each CPU has a list of blocks, each block a 16-byte header
  followed by its payload, first fit, split and merged in place inside 4096-byte pages.
 */
module Heap {
  import opened Common
  import opened Lists

  const HEADER := 16       // sizeof(node)

  /** `used` means nothing while the block is free. */
  datatype Node = Node(addr: nat, size: nat, used: nat, free: bool)

  function End(n: Node): nat {
    n.addr + HEADER + n.size
  }

  function PageBase(a: nat): nat {
    a - a % PAGE_SIZE
  }

  // ----- lists that tile their pages -----

  predicate NodeOk(n: Node) {
    n.addr > 0 && n.addr % 4 == 0 && OnPage(n) && (!n.free ==> n.used <= n.size)
  }

  /** The next block starts where this one ends, or a new page starts because this one is full. */
  predicate Follows(m: Node, n: Node) {
    if End(m) % PAGE_SIZE == 0 then n.addr % PAGE_SIZE == 0 else n.addr == End(m)
  }

  ghost predicate Bases(list: seq<Node>, b: nat) {
    exists i: nat :: i < |list| && list[i].addr == b && b % PAGE_SIZE == 0
  }

  ghost predicate Tiled(list: seq<Node>) {
    && (forall i: nat | i < |list| :: NodeOk(list[i]))
    && (forall i: nat, j: nat | i < |list| && j == i + 1 && j < |list| :: Follows(list[i], list[j]))
    && (list != [] ==> list[0].addr % PAGE_SIZE == 0 && End(list[|list| - 1]) % PAGE_SIZE == 0)
    && (forall i: nat, j: nat | i < j < |list| && list[i].addr % PAGE_SIZE == 0 :: list[i].addr != list[j].addr)
  }

  lemma {:induction false} SamePage(m: Node, n: Node)
    requires NodeOk(m) && Follows(m, n) && n.addr % PAGE_SIZE != 0
    ensures n.addr == End(m) && PageBase(n.addr) == PageBase(m.addr)
  {
    var q, r := m.addr / PAGE_SIZE, m.addr % PAGE_SIZE;
    assert m.addr == PAGE_SIZE * q + r;
    assert r + HEADER + m.size == PAGE_SIZE ==> End(m) == PAGE_SIZE * (q + 1);
  }

  lemma {:induction false} PageListed(list: seq<Node>, i: nat)
    requires Tiled(list) && i < |list|
    ensures Bases(list, PageBase(list[i].addr))
  {
    if list[i].addr % PAGE_SIZE != 0 {
      PageListed(list, i - 1);
      SamePage(list[i - 1], list[i]);
    }
  }

  /** Within a page, list order is address order. */
  lemma {:induction false} InOrder(list: seq<Node>, i: nat, j: nat)
    requires Tiled(list) && i < j < |list| && PageBase(list[i].addr) == PageBase(list[j].addr)
    ensures End(list[i]) <= list[j].addr && list[j].addr % PAGE_SIZE != 0
    decreases j
  {
    if list[j].addr % PAGE_SIZE == 0 {
      StartBefore(list, i, list[j].addr);
      assert false;
    }
    SamePage(list[j - 1], list[j]);
    if i < j - 1 { InOrder(list, i, j - 1); }
  }

  lemma {:induction false} StartBefore(list: seq<Node>, i: nat, b: nat)
    requires Tiled(list) && i < |list| && PageBase(list[i].addr) == b
    ensures exists k: nat :: k <= i && list[k].addr == b
  {
    if list[i].addr % PAGE_SIZE != 0 {
      SamePage(list[i - 1], list[i]);
      StartBefore(list, i - 1, b);
    }
  }

  /** Two blocks of a list never overlap, header or payload. */
  lemma {:induction false} Apart(list: seq<Node>, i: nat, j: nat)
    requires Tiled(list) && i < j < |list|
    ensures End(list[i]) <= list[j].addr || End(list[j]) <= list[i].addr
  {
    if PageBase(list[i].addr) == PageBase(list[j].addr) {
      InOrder(list, i, j);
    } else {
      PagesApart(list[i], list[j]);
    }
  }

  predicate OnPage(n: Node) {
    n.addr % PAGE_SIZE + HEADER + n.size <= PAGE_SIZE
  }

  lemma {:induction false} PagesApart(m: Node, n: Node)
    requires OnPage(m) && OnPage(n) && PageBase(m.addr) != PageBase(n.addr)
    ensures End(m) <= n.addr || End(n) <= m.addr
  {
    var a, b := m.addr / PAGE_SIZE, n.addr / PAGE_SIZE;
    assert m.addr == PAGE_SIZE * a + m.addr % PAGE_SIZE && n.addr == PAGE_SIZE * b + n.addr % PAGE_SIZE;
  }

  // ----- what is allocated -----

  /** Address and size of the live blocks. */
  ghost function Live(list: seq<Node>): set<(nat, nat)> {
    set i: nat | i < |list| && !list[i].free :: (list[i].addr, list[i].used)
  }

  lemma {:induction false} LiveConcat(a: seq<Node>, b: seq<Node>)
    ensures Live(a + b) == Live(a) + Live(b)
  {
    forall x ensures x in Live(a + b) <==> x in Live(a) || x in Live(b) {
      if x in Live(a) {
        var i: nat :| i < |a| && !a[i].free && (a[i].addr, a[i].used) == x;
        assert (a + b)[i] == a[i];
      }
      if x in Live(b) {
        var i: nat :| i < |b| && !b[i].free && (b[i].addr, b[i].used) == x;
        assert (a + b)[|a| + i] == b[i];
      }
    }
  }

  // ----- one change of the list -----

  /** list with its blocks i .. j replaced by others that cover the same bytes. */
  ghost predicate Covers(list: seq<Node>, i: nat, j: nat, mid: seq<Node>) {
    && i < j <= |list| && mid != []
    && (forall k: nat | k < |mid| :: NodeOk(mid[k]))
    && (forall k: nat, l: nat | k < |mid| && l == k + 1 && l < |mid| :: mid[l].addr == End(mid[k]))
    && (forall l: nat | 0 < l < |mid| :: mid[l].addr % PAGE_SIZE != 0)
    && mid[0].addr == list[i].addr && End(mid[|mid| - 1]) == End(list[j - 1])
    && (forall k: nat | i < k < j :: list[k].addr % PAGE_SIZE != 0)
  }

  function Replace(list: seq<Node>, i: nat, j: nat, mid: seq<Node>): seq<Node>
    requires i <= j <= |list|
  {
    list[..i] + mid + list[j..]
  }

  lemma {:induction false} CoverFollows(list: seq<Node>, i: nat, j: nat, mid: seq<Node>, k: nat)
    requires Tiled(list) && Covers(list, i, j, mid) && k + 1 < |Replace(list, i, j, mid)|
    ensures NodeOk(Replace(list, i, j, mid)[k]) && Follows(Replace(list, i, j, mid)[k], Replace(list, i, j, mid)[k + 1])
  {
    var r, m := Replace(list, i, j, mid), |mid|;
    if k + 1 < i {
      assert r[k] == list[k] && r[k + 1] == list[k + 1];
    } else if k + 1 == i {
      assert r[k] == list[k] && r[k + 1] == mid[0];
      assert Follows(list[k], list[i]);
    } else if k + 1 < i + m {
      assert r[k] == mid[k - i] && r[k + 1] == mid[k + 1 - i];
    } else {
      assert r[k + 1] == list[k + 1 - i - m + j];
      if k + 1 == i + m {
        assert r[k] == mid[m - 1] && Follows(list[j - 1], list[j]);
      } else {
        assert r[k] == list[k - i - m + j];
        assert Follows(list[k - i - m + j], list[k - i - m + j + 1]);
      }
    }
  }

  /** Page starts of the new list are those of the old one, at shifted places. */
  lemma {:induction false} CoverStart(list: seq<Node>, i: nat, j: nat, mid: seq<Node>, k: nat) returns (o: nat)
    requires Covers(list, i, j, mid) && k < |Replace(list, i, j, mid)|
             && Replace(list, i, j, mid)[k].addr % PAGE_SIZE == 0
    ensures o < |list| && list[o].addr == Replace(list, i, j, mid)[k].addr
    ensures o == if k <= i then k else k - |mid| + (j - i)
    ensures k <= i || k >= i + |mid|
  {
    var m := |mid|;
    var r := Replace(list, i, j, mid);
    assert forall x: nat | i < x < i + m :: r[x] == mid[x - i];
    o := if k <= i then k else k - m + (j - i);
    if k == i { assert Replace(list, i, j, mid)[k] == mid[0]; }
  }

  lemma {:induction false} CoverTiled(list: seq<Node>, i: nat, j: nat, mid: seq<Node>)
    requires Tiled(list) && Covers(list, i, j, mid)
    ensures Tiled(Replace(list, i, j, mid))
    ensures forall b: nat :: Bases(Replace(list, i, j, mid), b) <==> Bases(list, b)
  {
    var r, m := Replace(list, i, j, mid), |mid|;
    forall k: nat, l: nat | k < |r| && l == k + 1 && l < |r| ensures Follows(r[k], r[l]) && NodeOk(r[k]) {
      CoverFollows(list, i, j, mid, k);
    }
    CoverLast(list, i, j, mid);
    assert r[0].addr == list[0].addr by { if i == 0 { assert r[0] == mid[0]; } }
    forall k: nat, l: nat | k < l < |r| && r[k].addr % PAGE_SIZE == 0 ensures r[k].addr != r[l].addr {
      if r[l].addr % PAGE_SIZE == 0 {
        var a := CoverStart(list, i, j, mid, k);
        var b := CoverStart(list, i, j, mid, l);
      }
    }
    forall k: nat | k < |r| ensures NodeOk(r[k]) { if k == |r| - 1 { } else { CoverFollows(list, i, j, mid, k); } }
    forall b: nat ensures Bases(r, b) <==> Bases(list, b) { CoverBases(list, i, j, mid, b); }
  }

  lemma {:induction false} CoverLast(list: seq<Node>, i: nat, j: nat, mid: seq<Node>)
    requires Tiled(list) && Covers(list, i, j, mid)
    ensures var r := Replace(list, i, j, mid); r != [] && NodeOk(r[|r| - 1]) && End(r[|r| - 1]) % PAGE_SIZE == 0
  {
    var r := Replace(list, i, j, mid);
    if j == |list| {
      assert r[|r| - 1] == mid[|mid| - 1];
    } else {
      assert r[|r| - 1] == list[|list| - 1];
    }
  }

  lemma {:induction false} CoverBases(list: seq<Node>, i: nat, j: nat, mid: seq<Node>, b: nat)
    requires Tiled(list) && Covers(list, i, j, mid)
    ensures Bases(Replace(list, i, j, mid), b) <==> Bases(list, b)
  {
    hide Tiled, NodeOk;
    var r := Replace(list, i, j, mid);
    if Bases(r, b) {
      var k: nat :| k < |r| && r[k].addr == b && b % PAGE_SIZE == 0;
      var o := CoverStart(list, i, j, mid, k);
    }
    if Bases(list, b) {
      var o: nat :| o < |list| && list[o].addr == b && b % PAGE_SIZE == 0;
      assert o <= i || o >= j;
      if o < i { assert r[o] == list[o]; } else if o == i { assert r[i] == mid[0]; } else {
        assert r[o - j + i + |mid|] == list[o];
      }
    }
  }

  lemma {:induction false} CoverLive(list: seq<Node>, i: nat, j: nat, mid: seq<Node>)
    requires i <= j <= |list|
    ensures Live(Replace(list, i, j, mid)) == Live(list[..i]) + Live(mid) + Live(list[j..])
    ensures Live(list) == Live(list[..i]) + Live(list[i..j]) + Live(list[j..])
  {
    LiveConcat(list[..i] + mid, list[j..]);
    LiveConcat(list[..i], mid);
    assert list == list[..i] + list[i..j] + list[j..];
    LiveConcat(list[..i] + list[i..j], list[j..]);
    LiveConcat(list[..i], list[i..j]);
  }

  // ----- merging, splitting, taking, freeing -----

  /** Block i swallows block i + 1, which is free and on the same page. */
  function Merged(list: seq<Node>, i: nat): seq<Node>
    requires i + 1 < |list|
  {
    Replace(list, i, i + 2, [list[i].(size := list[i].size + list[i + 1].size + HEADER)])
  }

  lemma {:induction false} MergeKeeps(list: seq<Node>, i: nat)
    requires Tiled(list) && i + 1 < |list| && list[i + 1].free && PageBase(list[i].addr) == PageBase(list[i + 1].addr)
    ensures Tiled(Merged(list, i)) && Live(Merged(list, i)) == Live(list)
    ensures forall b: nat :: Bases(Merged(list, i), b) <==> Bases(list, b)
  {
    var h, p := list[i], list[i + 1];
    var h' := h.(size := h.size + p.size + HEADER);
    MergeCovers(list, i);
    hide Tiled, Covers, Live, Replace;
    CoverTiled(list, i, i + 2, [h']);
    CoverLive(list, i, i + 2, [h']);
    assert list[i..i + 2] == [h, p];
    LiveOne(h); LiveOne(h'); LiveOne(p); LiveTwo(h, p);
  }

  lemma {:induction false} MergeCovers(list: seq<Node>, i: nat)
    requires Tiled(list) && i + 1 < |list| && PageBase(list[i].addr) == PageBase(list[i + 1].addr)
    ensures Covers(list, i, i + 2, [list[i].(size := list[i].size + list[i + 1].size + HEADER)])
  {
    var h, p := list[i], list[i + 1];
    InOrder(list, i, i + 1);
    assert NodeOk(h) && NodeOk(p) && Follows(h, p);
    hide Tiled;
    SamePage(h, p);
    MergedNode(h, p);
  }

  lemma {:induction false} MergedNode(h: Node, p: Node)
    requires NodeOk(h) && NodeOk(p) && p.addr == End(h) && PageBase(p.addr) == PageBase(h.addr)
    ensures var h' := h.(size := h.size + p.size + HEADER); NodeOk(h') && End(h') == End(p)
  {
  }

  lemma {:induction false} LiveOne(n: Node)
    ensures Live([n]) == if n.free then {} else {(n.addr, n.used)}
  {
    var s := [n];
    assert s[0] == n;
    if !n.free { assert (s[0].addr, s[0].used) in Live(s); }
  }

  lemma {:induction false} LiveTwo(m: Node, n: Node)
    ensures Live([m, n]) == Live([m]) + Live([n])
  {
    assert [m, n] == [m] + [n];
    LiveConcat([m], [n]);
  }

  /** Block i is cut at `temp`; what follows the cut is a free block. */
  function Split(list: seq<Node>, i: nat, temp: nat): seq<Node>
    requires i < |list| && list[i].addr + HEADER <= temp && temp + HEADER <= End(list[i])
  {
    var h := list[i];
    var s := temp - h.addr - HEADER;
    Replace(list, i, i + 1, [h.(size := s), Node(temp, h.size - s - HEADER, 0, true)])
  }

  lemma {:induction false} SplitKeeps(list: seq<Node>, i: nat, temp: nat)
    requires Tiled(list) && i < |list| && list[i].addr + HEADER <= temp && temp + HEADER <= End(list[i])
             && temp % 4 == 0
    requires !list[i].free ==> list[i].addr + HEADER + list[i].used <= temp
    ensures Tiled(Split(list, i, temp)) && Live(Split(list, i, temp)) == Live(list)
    ensures forall b: nat :: Bases(Split(list, i, temp), b) <==> Bases(list, b)
  {
    var h := list[i];
    var s := temp - h.addr - HEADER;
    var h', p := h.(size := s), Node(temp, h.size - s - HEADER, 0, true);
    hide Tiled, NodeOk, Live, Replace, Covers, Bases;
    SplitCovers(list, i, temp);
    CoverTiled(list, i, i + 1, [h', p]);
    SplitLive(h, h', p);
    CoverSame(list, i, i + 1, [h', p]);
    assert Split(list, i, temp) == Replace(list, i, i + 1, [h', p]);
    hide Split;
  }

  lemma {:induction false} SplitLive(h: Node, h': Node, p: Node)
    requires h' == h.(size := h'.size) && p.free
    ensures Live([h', p]) == Live([h])
  {
    LiveOne(h); LiveOne(h'); LiveOne(p); LiveTwo(h', p);
    hide Live;
  }

  /** Replacing blocks by others with the same live ones. */
  lemma {:induction false} CoverSame(list: seq<Node>, i: nat, j: nat, mid: seq<Node>)
    requires i < j <= |list| && (j == i + 1 ==> Live(mid) == Live([list[i]]))
             && (j > i + 1 ==> Live(mid) == Live(list[i..j]))
    ensures Live(Replace(list, i, j, mid)) == Live(list)
  {
    CoverLive(list, i, j, mid);
    if j == i + 1 { assert list[i..j] == [list[i]]; }
    hide Live, Replace;
  }

  lemma {:induction false} SplitCovers(list: seq<Node>, i: nat, temp: nat)
    requires Tiled(list) && i < |list| && list[i].addr + HEADER <= temp && temp + HEADER <= End(list[i])
             && temp % 4 == 0
    requires !list[i].free ==> list[i].addr + HEADER + list[i].used <= temp
    ensures var h := list[i];
            var s := temp - h.addr - HEADER;
            Covers(list, i, i + 1, [h.(size := s), Node(temp, h.size - s - HEADER, 0, true)])
  {
    var h := list[i];
    assert NodeOk(h);
    hide Tiled;
    Inside(h, temp);
  }

  lemma {:induction false} Inside(h: Node, a: nat)
    requires NodeOk(h) && h.addr < a < End(h)
    ensures a % PAGE_SIZE == h.addr % PAGE_SIZE + (a - h.addr) && a % PAGE_SIZE != 0
  {
    var q, r := h.addr / PAGE_SIZE, h.addr % PAGE_SIZE;
    assert a == PAGE_SIZE * q + (r + (a - h.addr));
  }

  lemma {:induction false} SetKeeps(list: seq<Node>, i: nat, n: Node)
    requires Tiled(list) && i < |list| && n.addr == list[i].addr && n.size == list[i].size && NodeOk(n)
    ensures Tiled(list[i := n]) && forall b: nat :: Bases(list[i := n], b) <==> Bases(list, b)
    ensures Live(list[i := n]) == Live(list[..i]) + Live([n]) + Live(list[i + 1..])
    ensures Live(list) == Live(list[..i]) + Live([list[i]]) + Live(list[i + 1..])
  {
    SetCovers(list, i, n);
    CoverTiled(list, i, i + 1, [n]);
    CoverLive(list, i, i + 1, [n]);
    SetIsReplace(list, i, n);
    hide Tiled, Covers, Live, Bases, Replace;
  }

  lemma {:induction false} SetIsReplace(list: seq<Node>, i: nat, n: Node)
    requires i < |list|
    ensures list[i := n] == Replace(list, i, i + 1, [n]) && list[i..i + 1] == [list[i]]
  {
  }

  lemma {:induction false} SetCovers(list: seq<Node>, i: nat, n: Node)
    requires i < |list| && n.addr == list[i].addr && n.size == list[i].size && NodeOk(n)
    ensures Covers(list, i, i + 1, [n])
  {
  }

  /** A free block becomes live. */
  lemma {:induction false} TakeKeeps(list: seq<Node>, i: nat, size: nat)
    requires Tiled(list) && i < |list| && list[i].free && size <= list[i].size
    ensures var l := list[i := list[i].(used := size, free := false)];
            Tiled(l) && Live(l) == Live(list) + {(list[i].addr, size)}
                && forall b: nat :: Bases(l, b) <==> Bases(list, b)
  {
    var n := list[i].(used := size, free := false);
    SetKeeps(list, i, n);
    LiveOne(n);
    LiveOne(list[i]);
  }

  /** Each address occurs once. */
  lemma {:induction false} LiveElsewhere(list: seq<Node>, i: nat, u: nat)
    requires Tiled(list) && i < |list|
    ensures (list[i].addr, u) !in Live(list[..i]) && (list[i].addr, u) !in Live(list[i + 1..])
  {
    forall k: nat | k < |list| && k != i ensures list[k].addr != list[i].addr {
      if k < i { Apart(list, k, i); } else { Apart(list, i, k); }
    }
    var a, b := list[..i], list[i + 1..];
    assert forall k: nat | k < |a| :: a[k] == list[k];
    assert forall k: nat | k < |b| :: b[k] == list[i + 1 + k];
  }

  lemma {:induction false} FreeKeeps(list: seq<Node>, i: nat)
    requires Tiled(list) && i < |list| && !list[i].free
    ensures var l := list[i := list[i].(free := true)];
            Tiled(l) && Live(l) == Live(list) - {(list[i].addr, list[i].used)}
                && forall b: nat :: Bases(l, b) <==> Bases(list, b)
  {
    var n := list[i].(free := true);
    SetKeeps(list, i, n);
    LiveOne(n);
    LiveOne(list[i]);
    LiveElsewhere(list, i, list[i].used);
  }

  /** A new page in front. */
  lemma {:induction false} PageKeeps(list: seq<Node>, page: nat)
    requires Tiled(list) && page > 0 && page % PAGE_SIZE == 0 && !Bases(list, page)
    ensures var l := [Node(page, PAGE_SIZE - HEADER, 0, true)] + list;
            Tiled(l) && Live(l) == Live(list) && forall b: nat :: Bases(l, b) <==> b == page || Bases(list, b)
  {
    var n := Node(page, PAGE_SIZE - HEADER, 0, true);
    var l := [n] + list;
    LiveConcat([n], list);
    LiveOne(n);
    hide Live;
    WholePage(n);
    forall b: nat ensures Bases(l, b) <==> b == page || Bases(list, b) { PageBases(list, n, b); }
    PageTiled(list, n);
    hide Tiled, Bases;
  }

  lemma {:induction false} WholePage(n: Node)
    requires n.addr > 0 && n.addr % PAGE_SIZE == 0 && n.size == PAGE_SIZE - HEADER && n.free
    ensures NodeOk(n) && End(n) % PAGE_SIZE == 0
  {
    var q := n.addr / PAGE_SIZE;
    assert n.addr == PAGE_SIZE * q && End(n) == PAGE_SIZE * (q + 1);
    assert n.addr == 4 * (1024 * q);
  }

  lemma {:induction false} PageBases(list: seq<Node>, n: Node, b: nat)
    requires n.addr % PAGE_SIZE == 0
    ensures Bases([n] + list, b) <==> b == n.addr || Bases(list, b)
  {
    var l := [n] + list;
    if Bases(list, b) {
      var k: nat :| k < |list| && list[k].addr == b && b % PAGE_SIZE == 0;
      assert l[k + 1].addr == b;
    }
    if b == n.addr { assert l[0].addr == b; }
  }

  lemma {:induction false} PageTiled(list: seq<Node>, n: Node)
    requires Tiled(list) && NodeOk(n) && n.addr % PAGE_SIZE == 0 && End(n) % PAGE_SIZE == 0 && !Bases(list, n.addr)
    ensures Tiled([n] + list)
  {
    hide NodeOk;
    var l := [n] + list;
    forall k: nat | k < |list| ensures list[k].addr != n.addr {}
    forall k: nat, m: nat | k < |l| && m == k + 1 && m < |l| ensures Follows(l[k], l[m]) {
      if k > 0 { assert l[k] == list[k - 1] && l[m] == list[k]; }
    }
  }

  // ----- headers are never written over live payloads -----

  /** A header written at w leaves the payload of live block x alone. */
  predicate Clear(w: nat, x: (nat, nat)) {
    w + HEADER <= x.0 + HEADER || x.0 + HEADER + x.1 <= w
  }

  /** w is the place of a header in a page of the list. */
  ghost predicate InPages(list: seq<Node>, w: nat) {
    w % PAGE_SIZE + HEADER <= PAGE_SIZE && Bases(list, PageBase(w))
  }

  ghost predicate Harmless(list: seq<Node>, w: nat) {
    && InPages(list, w)
    && forall x | x in Live(list) :: Clear(w, x)
  }

  lemma {:induction false} HeaderHarmless(list: seq<Node>, i: nat)
    requires Tiled(list) && i < |list|
    ensures Harmless(list, list[i].addr)
  {
    PageListed(list, i);
    forall x | x in Live(list) ensures Clear(list[i].addr, x) {
      var k: nat :| k < |list| && !list[k].free && (list[k].addr, list[k].used) == x;
      if k < i { Apart(list, k, i); } else if i < k { Apart(list, i, k); }
    }
  }

  /** What a walk may do to a list: same pages, same live blocks, harmless writes only. */
  ghost predicate Tidied(list: seq<Node>, list': seq<Node>, wrote: set<nat>) {
    && Tiled(list') && Live(list') == Live(list)
    && (forall b: nat :: Bases(list', b) <==> Bases(list, b))
    && (forall w | w in wrote :: Harmless(list, w))
  }

  lemma {:induction false} TidyMore(list: seq<Node>, l1: seq<Node>, l2: seq<Node>, w1: set<nat>, i: nat)
    requires Tidied(list, l1, w1) && Tidied(l1, l2, {}) && i < |l2|
    ensures Tidied(list, l2, w1) && Tidied(list, l2, w1 + {l2[i].addr})
  {
    HeaderHarmless(l2, i);
  }

  // ----- the walk -----

  function Align(size: nat): nat {
    if size % 8 == 0 then 8 else 4
  }

  function RoundUp(x: nat, a: nat): (r: nat)
    requires a == 4 || a == 8
    ensures r >= x && r % a == 0 && r < x + a && r % 4 == 0 && (x % a == 0 ==> r == x)
  {
    (x / a + (if x % a != 0 then 1 else 0)) * a
  }

  /** A free block that can hold the request, as it stands or after a cut to align it. */
  predicate Suits(n: Node, size: nat) {
    var a := Align(size);
    n.free && (if n.addr % a == 0 then n.size >= size
        else n.size >= size + (RoundUp(n.addr + HEADER, a) - n.addr - HEADER) + HEADER)
  }

  lemma {:induction false} SamePrefix(l: seq<Node>, m: seq<Node>, i: nat, size: nat)
    requires i <= |l| && i <= |m| && l[..i] == m[..i] && forall j: nat | j < i :: !Suits(l[j], size)
    ensures forall j: nat | j < i :: !Suits(m[j], size)
  {
    forall j: nat | j < i ensures !Suits(m[j], size) { assert m[j] == m[..i][j] == l[..i][j] == l[j]; }
  }

  // ----- where a request fits -----

  /** Where the free blocks end that follow block i on its page. */
  function GapEnd(list: seq<Node>, i: nat): nat
    requires i < |list|
    decreases |list| - i
  {
    if i + 1 < |list| && list[i + 1].free && PageBase(list[i].addr) == PageBase(list[i + 1].addr)
        then GapEnd(list, i + 1)
    else End(list[i])
  }

  /** The free space that starts at s and ends at e, as one block. */
  function Gap(s: nat, e: nat): Node {
    Node(s, if s + HEADER <= e then e - s - HEADER else 0, 0, true)
  }

  /** Where the free space of block i starts: at the block if it is free, else behind what is used of it. */
  function GapStart(n: Node, size: nat): nat {
    if n.free then n.addr else RoundUp(n.addr + HEADER + n.used, Align(size))
  }

  /** Block i, or the unused part of it, can hold the request together with the free blocks that follow it. */
  predicate Roomy(list: seq<Node>, i: nat, size: nat)
    requires i < |list|
  {
    var n := list[i];
    && (n.free || GapStart(n, size) + HEADER <= End(n))
    && Suits(Gap(GapStart(n, size), GapEnd(list, i)), size)
  }

  /** The first place where the request fits. */
  ghost predicate FirstRoomy(list: seq<Node>, k: nat, size: nat) {
    k < |list| && Roomy(list, k, size) && forall j: nat | j < k :: !Roomy(list, j, size)
  }

  /** The address of the block that will hold it. */
  function Place(list: seq<Node>, k: nat, size: nat): nat
    requires k < |list|
  {
    var s, a := GapStart(list[k], size), Align(size);
    if s % a == 0 then s else RoundUp(s + HEADER, a)
  }

  /** What suits behind a block start suits in front of it, if the space is free from there on. */
  lemma {:induction false} GapGrows(s: nat, t: nat, e: nat, size: nat)
    requires s % 4 == 0 && t % 4 == 0 && s + HEADER <= t && t + HEADER <= e && Suits(Gap(t, e), size)
    ensures Suits(Gap(s, e), size)
  {
    GapSuits(s, e, size);
    GapSuits(t, e, size);
    hide Suits, Gap;
    if s % 8 != 0 && t % 8 == 0 { FourMore(s, t); }
  }

  /** A block that is not aligned loses 20 bytes. */
  lemma {:induction false} GapSuits(s: nat, e: nat, size: nat)
    requires s % 4 == 0 && s + HEADER <= e
    ensures Suits(Gap(s, e), size) <==> e - s - HEADER >= size + (if s % Align(size) == 0 then 0 else 20)
  {
    if s % Align(size) != 0 {
      FourOff(s);
      RoundFour(s);
    }
  }

  lemma {:induction false} FourOff(s: nat)
    requires s % 4 == 0 && s % 8 != 0
    ensures s % 8 == 4
  {
  }

  lemma {:induction false} FourMore(s: nat, t: nat)
    requires s % 4 == 0 && s % 8 != 0 && t % 8 == 0 && s + HEADER <= t
    ensures s + 20 <= t
  {
    FourOff(s);
    assert t == 8 * (t / 8) && s == 8 * (s / 8) + 4;
  }

  lemma {:induction false} RoundFour(s: nat)
    requires s % 8 == 4
    ensures RoundUp(s + HEADER, 8) == s + HEADER + 4
  {
  }

  /** The blocks behind i are free and on its page. */
  ghost predicate Swallowed(list: seq<Node>, i: nat, n: nat) {
    && i + n < |list|
    && forall t: nat | i < t <= i + n :: list[t].free && PageBase(list[t].addr) == PageBase(list[i].addr)
  }

  lemma {:induction false} GapSame(list: seq<Node>, i: nat, n: nat)
    requires Swallowed(list, i, n)
    ensures GapEnd(list, i) == GapEnd(list, i + n)
    decreases n
  {
    if n > 0 {
      GapSame(list, i, n - 1);
      assert list[i + n].free && PageBase(list[i + n].addr) == PageBase(list[i].addr);
      if n > 1 { assert PageBase(list[i + n - 1].addr) == PageBase(list[i].addr); }
    }
  }

  /** A gap ends behind each of its blocks. */
  lemma {:induction false} GapLong(list: seq<Node>, i: nat)
    requires Tiled(list) && i < |list|
    ensures GapEnd(list, i) >= End(list[i])
    decreases |list| - i
  {
    if i + 1 < |list| && list[i + 1].free && PageBase(list[i].addr) == PageBase(list[i + 1].addr) {
      GapLong(list, i + 1);
      InOrder(list, i, i + 1);
    }
  }

  /** If one of the blocks swallowed from s on were roomy, the space from s on would be. */
  lemma {:induction false} SwallowerRoomy(list: seq<Node>, i: nat, n: nat, t: nat, s: nat, size: nat)
    requires Tiled(list) && Swallowed(list, i, n) && i < t <= i + n && Roomy(list, t, size)
    requires s % 4 == 0 && s + HEADER <= End(list[i])
    ensures Suits(Gap(s, GapEnd(list, i)), size)
  {
    assert list[t].free && PageBase(list[t].addr) == PageBase(list[i].addr) && NodeOk(list[t]);
    GapSame(list, i, t - i);
    GapLong(list, t);
    InOrder(list, i, t);
    GapGrows(s, list[t].addr, GapEnd(list, t), size);
  }

  /** `merge`: the n free blocks behind block i on its page, and no more, become part of it. */
  method Merge(list: seq<Node>, i: nat) returns (l: seq<Node>, ghost wrote: set<nat>, ghost n: nat)
    requires Tiled(list) && i < |list|
    ensures Tidied(list, l, wrote) && i < |l| <= |list| && l[..i] == list[..i]
    ensures l[i] == list[i].(size := l[i].size)
    ensures i + 1 < |l| ==> !(l[i + 1].free && PageBase(l[i].addr) == PageBase(l[i + 1].addr))
    ensures Swallowed(list, i, n) && End(l[i]) == End(list[i + n]) && l[i + 1..] == list[i + n + 1..]
  {
    hide Live, Harmless, Bases, Tiled;
    l, wrote, n := list, {}, 0;
    TidySelf(list);
    while i + 1 < |l| && l[i + 1].free && PageBase(l[i].addr) == PageBase(l[i + 1].addr)
      invariant i < |l| <= |list| && l[..i] == list[..i] && l[i] == list[i].(size := l[i].size)
      invariant Tidied(list, l, wrote)
      invariant Swallowed(list, i, n) && End(l[i]) == End(list[i + n]) && l[i + 1..] == list[i + n + 1..]
      decreases |l|
    {
      MergeKeeps(l, i);
      NextInPage(l, i);
      var m := Merged(l, i);
      TidyMore(list, l, m, wrote, i);
      assert l[i + 1] == l[i + 1..][0] && list[i + n + 1] == list[i + n + 1..][0];
      assert m[i + 1..] == l[i + 1..][1..] && list[i + n + 1..][1..] == list[i + n + 2..];
      wrote := wrote + {m[i].addr};
      l, n := m, n + 1;
    }
  }

  lemma {:induction false} TidySelf(list: seq<Node>)
    requires Tiled(list)
    ensures Tidied(list, list, {})
  {
  }

  lemma {:induction false} NextInPage(list: seq<Node>, i: nat)
    requires Tiled(list) && i + 1 < |list| && PageBase(list[i].addr) == PageBase(list[i + 1].addr)
    ensures list[i + 1].addr == End(list[i])
  {
    InOrder(list, i, i + 1);
    SamePage(list[i], list[i + 1]);
  }

  /** The cut that `kalloc` makes in block i. */
  method SplitAt(list: seq<Node>, i: nat, temp: nat) returns (l: seq<Node>, ghost wrote: set<nat>)
    requires Tiled(list) && i < |list| && list[i].addr + HEADER <= temp && temp + HEADER <= End(list[i])
             && temp % 4 == 0
    requires !list[i].free ==> list[i].addr + HEADER + list[i].used <= temp
    ensures Tidied(list, l, wrote) && |l| == |list| + 1 && l[i + 1].free && l[i + 1].addr == temp
    ensures l[i + 1].size == End(list[i]) - temp - HEADER && l[i] == list[i].(size := temp - list[i].addr - HEADER)
    ensures l[..i] == list[..i] && l[i + 2..] == list[i + 1..]
  {
    hide Live, Harmless, Bases, Tiled;
    SplitKeeps(list, i, temp);
    l := Split(list, i, temp);
    TidyMore(list, list, l, {}, i);
    TidyMore(list, list, l, {l[i].addr}, i + 1);
    wrote := {l[i].addr} + {l[i + 1].addr};
  }

  /**
    What lies ahead of a walk that has come to block i: the blocks of the original list from b on,
    except that of a used block b only the unused part is left.  Before b nothing was roomy.
   */
  ghost predicate Ahead(list: seq<Node>, l: seq<Node>, i: nat, b: nat, size: nat) {
    && i <= |l| && (i == |l| <==> b == |list|) && b <= |list| && (forall j: nat | j < b :: !Roomy(list, j, size))
    && (b < |list| ==>
          && l[i + 1..] == list[b + 1..] && End(l[i]) == End(list[b]) && PageBase(l[i].addr) == PageBase(list[b].addr)
          && (l[i] == list[b]
              || (l[i].free && l[i].addr == GapStart(list[b], size) && l[i].addr + HEADER <= End(list[b]))))
  }

  lemma {:induction false} AheadStart(list: seq<Node>, size: nat)
    ensures Ahead(list, list, 0, 0, size)
  {
  }

  /** A used block that is left as it is has no room. */
  lemma {:induction false} UsedKept(list: seq<Node>, l: seq<Node>, i: nat, b: nat, size: nat)
    requires Ahead(list, l, i, b, size) && i < |l| && !l[i].free && GapStart(l[i], size) + HEADER > End(l[i])
    ensures Ahead(list, l, i + 1, b + 1, size)
  {
    AheadNext(list, l, i, b, 0);
  }

  /** Of a used block that is cut the unused part lies ahead. */
  lemma {:induction false} UsedCut(list: seq<Node>, l: seq<Node>, m: seq<Node>, i: nat, b: nat, size: nat)
    requires Ahead(list, l, i, b, size) && i < |l| && !l[i].free && NodeOk(l[i])
    requires GapStart(l[i], size) + HEADER <= End(l[i])
    requires i + 1 < |m| && m[i + 1].free && m[i + 1].addr == GapStart(l[i], size) && End(m[i + 1]) == End(l[i])
             && m[i + 2..] == l[i + 1..]
    ensures Ahead(list, m, i + 1, b, size)
  {
    Inside(l[i], m[i + 1].addr);
  }

  /** The tails agree further on, too. */
  lemma {:induction false} AheadNext(list: seq<Node>, l: seq<Node>, i: nat, b: nat, n: nat)
    requires i < |l| && b + n < |list| && l[i + 1..] == list[b + n + 1..]
    ensures i + 1 == |l| <==> b + n + 1 == |list|
    ensures i + 1 < |l| ==> l[i + 1] == list[b + n + 1] && l[i + 2..] == list[b + n + 2..]
  {
    if i + 1 < |l| {
      assert l[i + 1] == l[i + 1..][0] && list[b + n + 1] == list[b + n + 1..][0];
      assert l[i + 2..] == l[i + 1..][1..] && list[b + n + 2..] == list[b + n + 1..][1..];
    }
  }

  /** What `merge` swallows in the list of the walk it swallows of the original one. */
  lemma {:induction false} MergeAhead(list: seq<Node>, l: seq<Node>, m: seq<Node>, i: nat, b: nat, n: nat, size: nat)
    requires Tiled(list) && Ahead(list, l, i, b, size) && i < |l| && l[i].free
             && GapStart(list[b], size) >= list[b].addr
    requires Swallowed(l, i, n) && i < |m| && m[i] == l[i].(size := m[i].size) && End(m[i]) == End(l[i + n])
    requires m[i + 1..] == l[i + n + 1..]
    requires i + 1 < |m| ==> !(m[i + 1].free && PageBase(m[i].addr) == PageBase(m[i + 1].addr))
    ensures Swallowed(list, b, n) && m[i + 1..] == list[b + n + 1..] && End(m[i]) == GapEnd(list, b)
    ensures m[i].addr == GapStart(list[b], size) && m[i].addr + HEADER <= End(list[b])
  {
    forall t: nat | b <= t <= b + n ensures t < |list| && (t > b ==> list[t] == l[i + (t - b)]) {
      if t > b { assert l[i + (t - b)] == l[i + 1..][t - b - 1] == list[b + 1..][t - b - 1]; }
    }
    assert m[i + 1..] == l[i + 1..][n..] == list[b + 1..][n..];
    forall t: nat | b < t <= b + n ensures list[t].free && PageBase(list[t].addr) == PageBase(list[b].addr) {
      assert list[b + (t - b)] == l[i + (t - b)];
    }
    GapSame(list, b, n);
    if b + n + 1 < |list| {
      assert m[i + 1] == m[i + 1..][0] == list[b + n + 1..][0] == list[b + n + 1];
      assert PageBase(list[b + n].addr) == PageBase(list[b].addr);
    }
    assert GapEnd(list, b + n) == End(list[b + n]);
    assert End(l[i + n]) == End(list[b + n]);
  }

  /** A gap that cannot hold the request: none of its blocks is roomy, and the walk goes on behind it. */
  lemma {:induction false} GapSkipped(list: seq<Node>, m: seq<Node>, i: nat, b: nat, n: nat, size: nat)
    requires Tiled(list) && i < |m| && b + n < |list| && (forall j: nat | j < b :: !Roomy(list, j, size))
    requires Swallowed(list, b, n) && m[i + 1..] == list[b + n + 1..] && End(m[i]) == GapEnd(list, b)
    requires m[i].addr == GapStart(list[b], size) && m[i].addr + HEADER <= End(list[b]) && m[i].addr % 4 == 0
    requires m[i].free && !Suits(m[i], size)
    ensures Ahead(list, m, i + 1, b + n + 1, size)
  {
    assert !Suits(Gap(m[i].addr, GapEnd(list, b)), size);
    forall j: nat | j < b + n + 1 ensures !Roomy(list, j, size) {
      if j > b && Roomy(list, j, size) { SwallowerRoomy(list, b, n, j, m[i].addr, size); }
    }
    AheadNext(list, m, i, b, n);
  }

  /** A gap that can hold it is the first. */
  lemma {:induction false} GapFound(list: seq<Node>, m: seq<Node>, i: nat, b: nat, size: nat)
    requires i < |m| && b < |list| && (forall j: nat | j < b :: !Roomy(list, j, size))
    requires End(m[i]) == GapEnd(list, b) && m[i].addr == GapStart(list[b], size) && m[i].addr + HEADER <= End(list[b])
    requires m[i].free && Suits(m[i], size)
    ensures FirstRoomy(list, b, size)
  {
  }

  /**
    The walk at a free block: it takes in the free blocks behind it, and then it holds the request or
    is left behind.
   */
  method TryBlock(list: seq<Node>, before: seq<Node>, i: nat, ghost b: nat, ghost written: set<nat>, size: nat)
    returns (l: seq<Node>, found: bool, at: nat, ghost wrote: set<nat>, ghost n: nat)
    requires Tiled(list) && Tidied(list, before, written) && Ahead(list, before, i, b, size) && i < |before|
    requires before[i].free && forall j: nat | j < i :: !Suits(before[j], size)
    ensures Tidied(list, l, wrote) && at <= |l| && forall j: nat | j < at :: !Suits(l[j], size)
    ensures found ==> at < |l| && l[at].free && l[at].size >= size && l[at].addr % Align(size) == 0
    ensures found ==> FirstRoomy(list, b, size) && l[at].addr == Place(list, b, size)
    ensures !found ==> at == i + 1 && |l| <= |before| && Ahead(list, l, at, b + n + 1, size)
  {
    hide Live, Harmless, Bases, NodeOk, Follows, Roomy, Swallowed, Tiled, GapEnd, Ahead, FirstRoomy, RoundUp;
    var a := Align(size);
    ghost var more;
    AheadBlock(list, before, i, b, size);
    l, more, n := Merge(before, i);
    TidyJoin(list, before, l, written, more);
    SamePrefix(before, l, i, size);
    BlockOk(l, i);
    MergeAhead(list, before, l, i, b, n, size);
    wrote := written + more;
    var h := l[i];
    var temp := RoundUp(h.addr + HEADER, a);
    if h.addr % a == 0 && h.size >= size {
      GapFound(list, l, i, b, size);
      return l, true, i, wrote, n;
    } else if h.addr % a != 0 && h.size >= size + (temp - h.addr - HEADER) + HEADER {
      GapFound(list, l, i, b, size);
      ghost var whole := l;
      l, more := SplitAt(l, i, temp);
      TidyJoin(list, whole, l, wrote, more);
      SamePrefix(whole, l, i, size);
      wrote := wrote + more;
      return l, true, i + 1, wrote, n;
    }
    GapSkipped(list, l, i, b, n, size);
    found, at := false, i + 1;
  }

  lemma {:induction false} AheadBlock(list: seq<Node>, l: seq<Node>, i: nat, b: nat, size: nat)
    requires Ahead(list, l, i, b, size) && i < |l|
    ensures b < |list| && GapStart(list[b], size) >= list[b].addr && forall j: nat | j < b :: !Roomy(list, j, size)
  {
  }

  /**
    The walk of `kalloc`: first fit, splitting and merging on its way.  b is the block of the list
    as it was that has room.
   */
  method Walk(list: seq<Node>, size: nat)
    returns (l: seq<Node>, found: bool, i: nat, ghost wrote: set<nat>, ghost b: nat)
    requires Tiled(list)
    ensures Tidied(list, l, wrote)
    ensures found ==> i < |l| && l[i].free && l[i].size >= size && l[i].addr % Align(size) == 0
    ensures forall j: nat | j < |l| && (found ==> j < i) :: !Suits(l[j], size)
    ensures found ==> FirstRoomy(list, b, size) && l[i].addr == Place(list, b, size)
    ensures !found ==> forall j: nat | j < |list| :: !Roomy(list, j, size)
  {
    hide Live, Harmless, Bases, NodeOk, Follows, Roomy, Swallowed, Tiled, GapEnd, FirstRoomy;
    var a := Align(size);
    l, i, wrote, b, found := list, 0, {}, 0, false;
    AheadStart(list, size);
    while i < |l|
      invariant Tidied(list, l, wrote) && i <= |l|
      invariant forall j: nat | j < i :: !Suits(l[j], size)
      invariant Ahead(list, l, i, b, size) && !found
      decreases |l| - i, if i < |l| && !l[i].free then 1 else 0
    {
      if !l[i].free {
        ghost var before := l;
        var temp := RoundUp(l[i].addr + HEADER + l[i].used, a);
        if l[i].size >= temp - l[i].addr - HEADER + HEADER {
          ghost var more;
          l, more := SplitAt(l, i, temp);
          TidyJoin(list, before, l, wrote, more);
          SamePrefix(before, l, i, size);
          BlockOk(before, i);
          UsedCut(list, before, l, i, b, size);
          wrote := wrote + more;
        } else {
          UsedKept(list, l, i, b, size);
          b := b + 1;
        }
        i := i + 1;
      } else {
        ghost var n;
        l, found, i, wrote, n := TryBlock(list, l, i, b, wrote, size);
        if found { return; }
        b := b + n + 1;
      }
    }
  }

  lemma {:induction false} BlockOk(list: seq<Node>, i: nat)
    requires Tiled(list) && i < |list|
    ensures NodeOk(list[i]) && list[i].addr % 4 == 0
  {
  }

  lemma {:induction false} TidyJoin(list: seq<Node>, l1: seq<Node>, l2: seq<Node>, w1: set<nat>, w2: set<nat>)
    requires Tidied(list, l1, w1) && Tidied(l1, l2, w2)
    ensures Tidied(list, l2, w1 + w2)
  {
    hide Live, Bases, Tiled;
  }

  lemma {:induction false} PageAligned(a: nat, size: nat)
    requires a % 8 == 0
    ensures a % Align(size) == 0
  {
  }

  /** A header is as long as two alignment units, so the payload is aligned when the block is. */
  lemma {:induction false} PayloadAligned(a: nat, size: nat)
    requires a % Align(size) == 0
    ensures (a + HEADER) % Align(size) == 0
  {
  }

  // ----- is there room? -----

  /** Somewhere in the list the request fits. */
  ghost predicate HasRoom(list: seq<Node>, size: nat) {
    exists k: nat :: k < |list| && Roomy(list, k, size)
  }

  lemma {:induction false} RoomFirst(list: seq<Node>, k: nat, size: nat) returns (b: nat)
    requires k < |list| && Roomy(list, k, size)
    ensures b <= k && FirstRoomy(list, b, size)
    decreases k
  {
    if j: nat :| j < k && Roomy(list, j, size) {
      b := RoomFirst(list, j, size);
    } else {
      b := k;
    }
  }

  /** In particular a free block that suits the request as it stands is room for it. */
  lemma {:induction false} SuitableHasRoom(list: seq<Node>, k: nat, size: nat)
    requires Tiled(list) && k < |list| && Suits(list[k], size)
    ensures HasRoom(list, size)
  {
    var n := list[k];
    assert NodeOk(n);
    GapLong(list, k);
    assert Roomy(list, k, size);
  }

  // ----- room after a release -----

  /** Block j is free now, together with the n free blocks behind it; the rest of the list is as it was. */
  ghost predicate Reopened(list: seq<Node>, l: seq<Node>, j: nat, n: nat) {
    && Tiled(list) && Tiled(l) && Swallowed(list, j, n) && j < |l| && l[..j] == list[..j]
          && l[j + 1..] == list[j + n + 1..]
    && l[j].free && l[j].addr == list[j].addr && End(l[j]) == End(list[j + n])
  }

  lemma {:induction false} ReopenedBy(list: seq<Node>, l: seq<Node>, wrote: set<nat>, j: nat, n: nat)
    requires Tiled(list) && Tidied(list, l, wrote) && Swallowed(list, j, n) && j < |l| && l[..j] == list[..j]
             && l[j] == list[j].(size := l[j].size) && End(l[j]) == End(list[j + n]) && l[j + 1..] == list[j + n + 1..]
             && !l[j].free
    ensures Reopened(list, l[j := l[j].(free := true)], j, n)
  {
    FreeKeeps(l, j);
  }

  lemma {:induction false} GapLonger(s: nat, e: nat, f: nat, size: nat)
    requires s + HEADER <= e <= f && Suits(Gap(s, e), size)
    ensures Suits(Gap(s, f), size)
  {
  }

  lemma {:induction false} ReopenedTail(list: seq<Node>, l: seq<Node>, j: nat, n: nat, k: nat)
    requires Reopened(list, l, j, n) && j + n < k < |list|
    ensures j < k - n < |l| && l[k - n] == list[k] && GapEnd(l, k - n) == GapEnd(list, k)
    decreases |list| - k
  {
    hide Tiled, Swallowed, PageBase;
    assert |l[j + 1..]| == |list[j + n + 1..]|;
    assert l[k - n] == l[j + 1..][k - n - j - 1] == list[j + n + 1..][k - n - j - 1] == list[k];
    if k + 1 < |list| {
      ReopenedTail(list, l, j, n, k + 1);
    }
  }

  lemma {:induction false} ReopenedGap(list: seq<Node>, l: seq<Node>, j: nat, n: nat)
    requires Reopened(list, l, j, n)
    ensures GapEnd(l, j) == GapEnd(list, j)
  {
    GapSame(list, j, n);
    assert PageBase(list[j + n].addr) == PageBase(l[j].addr);
    assert |l[j + 1..]| == |list[j + n + 1..]|;
    if j + n + 1 < |list| { ReopenedTail(list, l, j, n, j + n + 1); }
  }

  lemma {:induction false} ReopenedFront(list: seq<Node>, l: seq<Node>, j: nat, n: nat, k: nat)
    requires Reopened(list, l, j, n) && k < j
    ensures l[k] == list[k] && GapEnd(l, k) >= GapEnd(list, k)
    decreases j - k
  {
    assert l[k] == l[..j][k] == list[..j][k];
    if k + 1 < j {
      ReopenedFront(list, l, j, n, k + 1);
    } else {
      ReopenedGap(list, l, j, n);
    }
    GapLong(l, k);
  }

  /** A release makes room for whatever the released block could hold. */
  lemma {:induction false} RoomReopened(list: seq<Node>, l: seq<Node>, j: nat, n: nat, size: nat)
    requires Reopened(list, l, j, n) && Suits(list[j].(free := true), size)
    ensures HasRoom(l, size)
  {
    BlockOk(list, j);
    ReopenedGap(list, l, j, n);
    GapLong(list, j);
    GapLonger(l[j].addr, End(list[j]), GapEnd(l, j), size);
    assert Roomy(l, j, size);
  }

  /** A release takes no room away. */
  lemma {:induction false} RoomKept(list: seq<Node>, l: seq<Node>, j: nat, n: nat, k: nat, size: nat)
    requires Reopened(list, l, j, n) && k < |list| && Roomy(list, k, size)
    ensures HasRoom(l, size)
  {
    hide GapEnd, Suits;
    var s := GapStart(list[k], size);
    GapLong(list, k);
    if k < j {
      ReopenedFront(list, l, j, n, k);
      BlockOk(list, k);
      GapLonger(s, GapEnd(list, k), GapEnd(l, k), size);
      assert Roomy(l, k, size);
    } else if k <= j + n {
      ReopenedGap(list, l, j, n);
      BlockOk(list, j);
      if k > j {
        SwallowerRoomy(list, j, n, k, l[j].addr, size);
      } else if !list[j].free {
        GapGrows(l[j].addr, s, GapEnd(list, j), size);
      }
      assert Roomy(l, j, size);
    } else {
      ReopenedTail(list, l, j, n, k);
      assert Roomy(l, k - n, size);
    }
  }

  // ----- the whole heap -----

  ghost predicate HeapOk(lists: seq<seq<Node>>, pages: seq<nat>) {
    && |lists| == NCPU && Distinct(pages)
    && (forall c: nat | c < NCPU :: Tiled(lists[c]))
    && (forall c: nat, d: nat, b: nat | c < NCPU && d < NCPU && Bases(lists[c], b) && Bases(lists[d], b) :: c == d)
    && (forall c: nat, b: nat | c < NCPU && Bases(lists[c], b) :: b !in pages)
    && (forall b | b in pages :: b > 0 && b % PAGE_SIZE == 0)
  }

  lemma {:induction false} ListKeeps(lists: seq<seq<Node>>, pages: seq<nat>, c: nat, list: seq<Node>)
    requires HeapOk(lists, pages) && c < NCPU && Tiled(list) && forall b: nat :: Bases(list, b) <==> Bases(lists[c], b)
    ensures HeapOk(lists[c := list], pages)
  {
    hide Bases, Tiled, Distinct;
  }

  lemma {:induction false} PageTaken(lists: seq<seq<Node>>, pages: seq<nat>, c: nat, list: seq<Node>)
    requires HeapOk(lists, pages) && c < NCPU && pages != [] && Tiled(list)
             && forall b: nat :: Bases(list, b) <==> b == pages[0] || Bases(lists[c], b)
    ensures HeapOk(lists[c := list], pages[1..])
  {
    TailDistinct(pages);
    hide Bases, Tiled, Distinct;
    var l' := lists[c := list];
    assert pages[0] in pages;
    forall b | b in pages[1..] ensures b in pages && b != pages[0] {}
  }

  class KernelHeap {
    var lists: seq<seq<Node>>       // `free`, one list per CPU
    var pages: seq<nat>             // the page pool, last freed first

    constructor (pages: seq<nat>)
      requires Distinct(pages) && forall b | b in pages :: b > 0 && b % PAGE_SIZE == 0
      ensures HeapOk(lists, this.pages) && this.pages == pages && forall c: nat | c < NCPU :: lists[c] == []
    {
      lists := [[], [], [], []];
      this.pages := pages;
    }

    /**
      `kalloc`: one more live block, aligned for its size, and nothing live is touched.  It lies where
      the CPU's list first has room; the pool is used, for one page, exactly when the list has none,
      and then the request fails exactly when the pool is empty.
     */
    method Kalloc(c: nat, size: nat) returns (ok: bool, r: nat, ghost wrote: set<nat>)
      requires HeapOk(lists, pages) && c < NCPU && size <= PAGE_SIZE - HEADER
      modifies this
      ensures !ok ==> old(pages) == []
      ensures |old(lists)| == NCPU && (HasRoom(old(lists)[c], size) ==> ok && pages == old(pages))
      ensures ok ==> forall b | FirstRoomy(old(lists)[c], b, size) :: r == Place(old(lists)[c], b, size) + HEADER
      ensures !HasRoom(old(lists)[c], size) ==> (ok <==> old(pages) != [])
      ensures ok && !HasRoom(old(lists)[c], size) ==>
              pages == old(pages)[1..] && r == old(pages)[0] + HEADER
      ensures |old(lists)| == NCPU
              && (ok ==>
              HeapOk(lists, pages) && lists == old(lists)[c := lists[c]]
              && (pages == old(pages) || (old(pages) != [] && pages == old(pages)[1..])))
      ensures ok ==> r >= HEADER && r % Align(size) == 0
      ensures ok ==>
              Live(lists[c]) == Live(old(lists)[c]) + {(r - HEADER, size)}
              && forall x | x in Live(old(lists)[c]) :: x.0 != r - HEADER
      ensures ok ==> forall w, d: nat, x | w in wrote && d < NCPU && x in Live(old(lists)[d]) :: Clear(w, x)
    {
      hide Live, Harmless, Bases, Tiled, HeapOk, Tidied, InPages, Clear, Prepared, Align;
      var l, found, i;
      HeapList(lists, pages, c);
      ghost var b;
      l, found, i, wrote, b := Walk(lists[c], size);
      if !found {
        if pages == [] { return false, 0, wrote; }
        TidyPage(lists, pages, c, l, wrote);
        PageAligned(pages[0], size);
        l := [Node(pages[0], PAGE_SIZE - HEADER, 0, true)] + l;
        i := 0;
        wrote := wrote + {pages[0]};
        pages := pages[1..];
      } else {
        TidyFound(lists, pages, c, l, wrote);
      }
      Taken(lists, pages, c, l, wrote, i, size);
      PayloadAligned(l[i].addr, size);
      l := l[i := l[i].(used := size, free := false)];
      wrote := wrote + {l[i].addr};
      ClearOfAll(lists, lists[c := l], pages, c, wrote);
      lists := lists[c := l];
      ok, r := true, l[i].addr + HEADER;
    }

    /** `kfree` of a live block: it is live no more, nothing else changes state, and nothing live is touched. */
    method Kfree(ptr: nat) returns (ghost wrote: set<nat>)
      requires HeapOk(lists, pages) && ptr >= HEADER && exists d: nat :: d < NCPU && LiveAt(lists[d], ptr - HEADER)
      modifies `lists
      ensures HeapOk(lists, pages)
      ensures forall d: nat | d < NCPU :: Live(lists[d]) == Without(old(lists)[d], ptr - HEADER)
      ensures forall w, d: nat, x | w in wrote && d < NCPU && x in Live(old(lists)[d]) :: Clear(w, x)
      ensures |lists| == NCPU && forall d: nat | d < NCPU :: Roomier(old(lists)[d], lists[d], ptr - HEADER)
    {
      hide Live, Harmless, Bases, Tiled, HeapOk, Tidied, InPages, Clear;
      assert |lists| == NCPU by { HeapList(lists, pages, 0); }
      var d: nat :| d < NCPU && LiveAt(lists[d], ptr - HEADER);
      var j: nat :| j < |lists[d]| && lists[d][j].addr == ptr - HEADER && !lists[d][j].free;
      HeapList(lists, pages, d);
      var l;
      ghost var n;
      l, wrote, n := Merge(lists[d], j);
      TidyFound(lists, pages, d, l, wrote);
      Released(lists, pages, d, l, wrote, j);
      ReleasedOnce(lists, pages, d, j);
      ReopenedBy(lists[d], l, wrote, j, n);
      l := l[j := l[j].(free := true)];
      wrote := wrote + {l[j].addr};
      ClearOfAll(lists, lists[d := l], pages, d, wrote);
      RoomierAll(lists, pages, d, l, j, n);
      lists := lists[d := l];
    }
  }

  /** What had room still has, and what the block at address a could hold has. */
  ghost predicate Roomier(list: seq<Node>, l: seq<Node>, a: nat) {
    && (forall size: nat | HasRoom(list, size) :: HasRoom(l, size))
    && (forall k: nat, size: nat | k < |list| && list[k].addr == a && Suits(list[k].(free := true), size) ::
          HasRoom(l, size))
  }

  lemma {:induction false} OneBlockAt(lists: seq<seq<Node>>, pages: seq<nat>, d: nat, j: nat, e: nat, k: nat)
    requires HeapOk(lists, pages) && d < NCPU && j < |lists[d]| && e < NCPU && k < |lists[e]|
             && lists[e][k].addr == lists[d][j].addr
    ensures d == e && j == k
  {
    PageListed(lists[d], j);
    PageListed(lists[e], k);
    hide Bases;
    if j < k { InOrder(lists[d], j, k); }
    if k < j { InOrder(lists[d], k, j); }
  }

  lemma {:induction false} RoomierAll(lists: seq<seq<Node>>, pages: seq<nat>, d: nat, l: seq<Node>, j: nat, n: nat)
    requires HeapOk(lists, pages) && d < NCPU && j < |lists[d]| && Reopened(lists[d], l, j, n)
    ensures forall e: nat | e < NCPU :: Roomier(lists[e], lists[d := l][e], lists[d][j].addr)
  {
    hide Reopened, Roomy, Suits, Tiled, Bases;
    forall e: nat | e < NCPU ensures Roomier(lists[e], lists[d := l][e], lists[d][j].addr) {
      forall size: nat | HasRoom(lists[e], size) ensures HasRoom(lists[d := l][e], size) {
        if e == d {
          var k: nat :| k < |lists[d]| && Roomy(lists[d], k, size);
          RoomKept(lists[d], l, j, n, k, size);
        }
      }
      forall k: nat, size: nat | k < |lists[e]| && lists[e][k].addr == lists[d][j].addr
        && Suits(lists[e][k].(free := true), size) ensures HasRoom(lists[d := l][e], size)
      {
        OneBlockAt(lists, pages, d, j, e, k);
        RoomReopened(lists[d], l, j, n, size);
      }
    }
  }

  predicate LiveAt(list: seq<Node>, a: nat) {
    exists j: nat :: j < |list| && list[j].addr == a && !list[j].free
  }

  ghost function Without(list: seq<Node>, a: nat): set<(nat, nat)> {
    set x | x in Live(list) && x.0 != a
  }

  /** The block at j of list d is the only one at its address. */
  lemma {:induction false} ReleasedOnce(lists: seq<seq<Node>>, pages: seq<nat>, d: nat, j: nat)
    requires HeapOk(lists, pages) && d < NCPU && j < |lists[d]| && !lists[d][j].free
    ensures forall e: nat | e < NCPU && e != d :: Without(lists[e], lists[d][j].addr) == Live(lists[e])
    ensures Without(lists[d], lists[d][j].addr) == Live(lists[d]) - {(lists[d][j].addr, lists[d][j].used)}
  {
    var y := (lists[d][j].addr, lists[d][j].used);
    assert y in Live(lists[d]);
    forall e: nat, x | e < NCPU && x in Live(lists[e]) && (e != d || x != y) ensures x.0 != y.0 {
      PayloadsApart(lists, pages, e, x, d, y);
    }
  }

  lemma {:induction false} ClearOfAll(lists: seq<seq<Node>>, lists': seq<seq<Node>>, pages: seq<nat>, c: nat,
                                      wrote: set<nat>)
    requires |lists| == NCPU && HeapOk(lists', pages) && c < NCPU && lists' == lists[c := lists'[c]]
    requires forall w | w in wrote :: InPages(lists'[c], w) && forall x | x in Live(lists[c]) :: Clear(w, x)
    ensures forall w, d: nat, x | w in wrote && d < NCPU && x in Live(lists[d]) :: Clear(w, x)
  {
    forall w, d: nat, x | w in wrote && d < NCPU && x in Live(lists[d]) ensures Clear(w, x) {
      if d != c { OtherLists(lists', pages, c, w, d, x); }
    }
  }

  lemma {:induction false} HeapList(lists: seq<seq<Node>>, pages: seq<nat>, c: nat)
    requires HeapOk(lists, pages) && c < NCPU
    ensures |lists| == NCPU && Tiled(lists[c])
  {
  }

  /** The list is ready for its block to be taken. */
  ghost predicate Prepared(lists: seq<seq<Node>>, pages: seq<nat>, c: nat, l: seq<Node>, wrote: set<nat>)
    requires c < |lists|
  {
    HeapOk(lists[c := l], pages) && Tiled(l) && Live(l) == Live(lists[c]) && forall w | w in wrote :: Harmless(l, w)
  }

  lemma {:induction false} TidyFound(lists: seq<seq<Node>>, pages: seq<nat>, c: nat, l: seq<Node>, wrote: set<nat>)
    requires HeapOk(lists, pages) && c < NCPU && Tidied(lists[c], l, wrote)
    ensures Prepared(lists, pages, c, l, wrote)
  {
    ListKeeps(lists, pages, c, l);
    hide HeapOk, Tiled, Live, Bases, Clear;
  }

  lemma {:induction false} TidyPage(lists: seq<seq<Node>>, pages: seq<nat>, c: nat, l: seq<Node>, wrote: set<nat>)
    requires HeapOk(lists, pages) && c < NCPU && pages != [] && Tidied(lists[c], l, wrote)
    ensures Prepared(lists, pages[1..], c, [Node(pages[0], PAGE_SIZE - HEADER, 0, true)] + l, wrote + {pages[0]})
    ensures pages[0] % 8 == 0
  {
    var m := [Node(pages[0], PAGE_SIZE - HEADER, 0, true)] + l;
    PageFree(lists, pages, c);
    PageKeeps(l, pages[0]);
    PageTaken(lists, pages, c, m);
    HeaderHarmless(m, 0);
    hide HeapOk, Tiled, Live, Bases, Clear;
  }

  lemma {:induction false} PageFree(lists: seq<seq<Node>>, pages: seq<nat>, c: nat)
    requires HeapOk(lists, pages) && c < NCPU && pages != []
    ensures pages[0] > 0 && pages[0] % PAGE_SIZE == 0 && pages[0] % 8 == 0 && !Bases(lists[c], pages[0])
  {
    assert pages[0] in pages;
    hide Tiled, Bases;
    assert pages[0] == 8 * (512 * (pages[0] / PAGE_SIZE));
  }

  lemma {:induction false} Taken(lists: seq<seq<Node>>, pages: seq<nat>, c: nat, l: seq<Node>, wrote: set<nat>,
                                 i: nat, size: nat)
    requires c < |lists| == NCPU && Prepared(lists, pages, c, l, wrote) && i < |l| && l[i].free && size <= l[i].size
    ensures var l' := l[i := l[i].(used := size, free := false)];
            && HeapOk(lists[c := l'], pages) && Live(l') == Live(lists[c]) + {(l[i].addr, size)}
            && (forall x | x in Live(lists[c]) :: x.0 != l[i].addr)
            && (forall w | w in wrote + {l[i].addr} :: InPages(l', w) && forall x | x in Live(lists[c]) :: Clear(w, x))
  {
    var l' := l[i := l[i].(used := size, free := false)];
    TakeKeeps(l, i, size);
    HeaderHarmless(l, i);
    ListKeeps(lists[c := l], pages, c, l');
    assert lists[c := l][c := l'] == lists[c := l'];
    NotLive(l, i);
    hide HeapOk, Tiled, Live, Bases, Clear;
  }

  lemma {:induction false} Released(lists: seq<seq<Node>>, pages: seq<nat>, c: nat, l: seq<Node>, wrote: set<nat>,
                                    i: nat)
    requires c < |lists| == NCPU && Prepared(lists, pages, c, l, wrote) && i < |l| && !l[i].free
    ensures var l' := l[i := l[i].(free := true)];
            && HeapOk(lists[c := l'], pages) && Live(l') == Live(lists[c]) - {(l[i].addr, l[i].used)}
            && (forall w | w in wrote + {l[i].addr} :: InPages(l', w) && forall x | x in Live(lists[c]) :: Clear(w, x))
  {
    var l' := l[i := l[i].(free := true)];
    FreeKeeps(l, i);
    HeaderHarmless(l, i);
    ListKeeps(lists[c := l], pages, c, l');
    assert lists[c := l][c := l'] == lists[c := l'];
    hide HeapOk, Tiled, Live, Bases, Clear;
  }

  /** A header written in one CPU's pages leaves the blocks of every other CPU alone, and live blocks never overlap. */
  lemma {:induction false} OtherLists(lists: seq<seq<Node>>, pages: seq<nat>, c: nat, w: nat, d: nat, x: (nat, nat))
    requires HeapOk(lists, pages) && c < NCPU && d < NCPU && c != d && InPages(lists[c], w) && x in Live(lists[d])
    ensures Clear(w, x)
  {
    var k: nat :| k < |lists[d]| && !lists[d][k].free && (lists[d][k].addr, lists[d][k].used) == x;
    PageListed(lists[d], k);
    assert PageBase(w) != PageBase(x.0) && NodeOk(lists[d][k]);
    hide HeapOk, Tiled, Bases, Live;
    PagesApart(Node(w, 0, 0, true), lists[d][k]);
  }

  /** Any two live blocks, of the same CPU or not, have disjoint payloads, inside one page each. */
  lemma {:induction false} PayloadsApart(lists: seq<seq<Node>>, pages: seq<nat>, c: nat, x: (nat, nat), d: nat,
                                         y: (nat, nat))
    requires HeapOk(lists, pages) && c < NCPU && d < NCPU && x in Live(lists[c]) && y in Live(lists[d])
             && (c != d || x != y)
    ensures x.0 + HEADER + x.1 <= y.0 || y.0 + HEADER + y.1 <= x.0
    ensures x.0 % PAGE_SIZE + HEADER + x.1 <= PAGE_SIZE
  {
    var i: nat :| i < |lists[c]| && !lists[c][i].free && (lists[c][i].addr, lists[c][i].used) == x;
    var j: nat :| j < |lists[d]| && !lists[d][j].free && (lists[d][j].addr, lists[d][j].used) == y;
    if c == d {
      if i < j { Apart(lists[c], i, j); } else if j < i { Apart(lists[c], j, i); }
    } else {
      PageListed(lists[c], i);
      PageListed(lists[d], j);
      PagesApart(lists[c][i], lists[d][j]);
    }
  }

  // ----- headers and payloads fill each page -----

  /** Bytes that the blocks on page b take, headers included. */
  ghost function Filled(list: seq<Node>, b: nat): nat {
    if list == [] then 0 else (if PageBase(list[0].addr) == b then HEADER + list[0].size else 0) + Filled(list[1..], b)
  }

  lemma {:induction false} NotListed(list: seq<Node>, b: nat)
    requires forall i: nat | i < |list| :: PageBase(list[i].addr) != b
    ensures Filled(list, b) == 0
  {
    if list != [] {
      assert forall i: nat | i < |list| - 1 :: list[1..][i] == list[i + 1];
      NotListed(list[1..], b);
    }
  }

  /** From block i of page b on, the blocks reach exactly to the end of the page. */
  lemma {:induction false} FilledFrom(list: seq<Node>, i: nat, b: nat)
    requires Tiled(list) && i < |list| && PageBase(list[i].addr) == b
    ensures list[i].addr + Filled(list[i..], b) == b + PAGE_SIZE
    decreases |list| - i
  {
    var h := list[i];
    var q, r := h.addr / PAGE_SIZE, h.addr % PAGE_SIZE;
    assert b == PAGE_SIZE * q && h.addr == b + r && NodeOk(h);
    assert list[i..][0] == h && list[i..][1..] == list[i + 1..];
    if i + 1 < |list| && list[i + 1].addr % PAGE_SIZE != 0 {
      assert Follows(h, list[i + 1]);
      SamePage(h, list[i + 1]);
      FilledFrom(list, i + 1, b);
    } else {
      EndsPage(h, list, i);
      var rest := list[i + 1..];
      forall k: nat | k < |rest| ensures PageBase(rest[k].addr) != b {
        assert rest[k] == list[i + 1 + k];
        LaterPages(list, i, i + 1 + k);
      }
      NotListed(rest, b);
    }
  }

  lemma {:induction false} PageEnd(a: nat, n: nat)
    requires 0 < n && a % PAGE_SIZE + n <= PAGE_SIZE && (a + n) % PAGE_SIZE == 0
    ensures a + n == a / PAGE_SIZE * PAGE_SIZE + PAGE_SIZE
  {
    var q, r := a / PAGE_SIZE, a % PAGE_SIZE;
    assert a == PAGE_SIZE * q + r;
    assert a + n == PAGE_SIZE * q + (r + n);
  }

  lemma {:induction false} EndsPage(h: Node, list: seq<Node>, i: nat)
    requires Tiled(list) && i < |list| && h == list[i] && (i + 1 < |list| ==> list[i + 1].addr % PAGE_SIZE == 0)
    ensures End(h) == PageBase(h.addr) + PAGE_SIZE
  {
    assert NodeOk(h);
    if i + 1 < |list| { assert Follows(h, list[i + 1]); }
    assert End(h) % PAGE_SIZE == 0;
    PageEnd(h.addr, HEADER + h.size);
  }

  /** After a page start, no block belongs to an earlier page. */
  lemma {:induction false} LaterPages(list: seq<Node>, i: nat, j: nat)
    requires Tiled(list) && i < j < |list| && list[i + 1].addr % PAGE_SIZE == 0
    ensures PageBase(list[i].addr) != PageBase(list[j].addr)
    decreases j
  {
    if PageBase(list[i].addr) == PageBase(list[j].addr) {
      InOrder(list, i, j);
      SamePage(list[j - 1], list[j]);
      if j == i + 1 { assert false; } else { LaterPages(list, i, j - 1); }
    }
  }

  /** Headers and sizes of the blocks of every page of every list sum to 4096. */
  lemma {:induction false} PagesFull(list: seq<Node>, b: nat)
    requires Tiled(list) && Bases(list, b)
    ensures Filled(list, b) == PAGE_SIZE
  {
    var i: nat :| i < |list| && list[i].addr == b && b % PAGE_SIZE == 0;
    FilledFrom(list, i, b);
    FilledBefore(list, i, b);
  }

  lemma {:induction false} FilledBefore(list: seq<Node>, i: nat, b: nat)
    requires Tiled(list) && i < |list| && list[i].addr == b && b % PAGE_SIZE == 0
    ensures Filled(list, b) == Filled(list[i..], b)
  {
    forall k: nat | k < i ensures PageBase(list[k].addr) != b {
      if PageBase(list[k].addr) == b { InOrder(list, k, i); }
    }
    FilledSkip(list, i, b);
  }

  lemma {:induction false} FilledSkip(list: seq<Node>, i: nat, b: nat)
    requires i <= |list| && forall k: nat | k < i :: PageBase(list[k].addr) != b
    ensures Filled(list, b) == Filled(list[i..], b)
    decreases i
  {
    if i > 0 {
      FilledSkip(list, i - 1, b);
      assert list[i - 1..][0] == list[i - 1] && list[i - 1..][1..] == list[i..];
    } else {
      assert list[0..] == list;
    }
  }

  lemma {:induction false} NotLive(l: seq<Node>, i: nat)
    requires Tiled(l) && i < |l| && l[i].free
    ensures forall x | x in Live(l) :: x.0 != l[i].addr
  {
    forall x | x in Live(l) ensures x.0 != l[i].addr {
      var k: nat :| k < |l| && !l[k].free && (l[k].addr, l[k].used) == x;
      if k < i { Apart(l, k, i); } else { Apart(l, i, k); }
    }
  }
}
