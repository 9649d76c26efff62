/**
  User memory over the page tables: the copy that `fork` makes (`src/kernel/proc.c`) and `copyout`
  (`src/kernel/pt.c`).
 */
module UserMemory {
  import opened Common
  import opened LogHeaders
  import opened Lists
  import opened PageTable

  const PTE_USER_DATA := 0x647      // PTE_USER | PTE_NORMAL | PTE_PAGE

  type Space = map<Path, nat>
  type Pages = map<nat, seq<byte>>

  // ----- addresses from indices -----

  function VaOf(vpn: nat): nat {
    vpn * 0x1000
  }

  lemma {:induction false} VaParts(i0: nat, i1: nat, i2: nat, i3: nat)
    requires i0 < N && i1 < N && i2 < N && i3 < N
    ensures var va := VaOf(Join(i0, i1, i2, i3));
            Vpn(va) == Join(i0, i1, i2, i3) < VPAGES && Part(va, 0) == i0 && Part(va, 1) == i1 && Part(va, 2) == i2
                && Part(va, 3) == i3
  {
    hide Vpn, VaOf, Part;
    var n := Join(i0, i1, i2, i3);
    var va := VaOf(n);
    JoinBound(i0, i1, i2, i3);
    VpnOfVa(n);
    VpnJoin(va);
    hide Join;
    JoinUnique(Part(va, 0), Part(va, 1), Part(va, 2), Part(va, 3), i0, i1, i2, i3);
  }

  lemma {:induction false} JoinBound(i0: nat, i1: nat, i2: nat, i3: nat)
    requires i0 < N && i1 < N && i2 < N && i3 < N
    ensures Join(i0, i1, i2, i3) < VPAGES
  {
  }

  lemma {:induction false} VpnOfVa(n: nat)
    requires n < VPAGES
    ensures Vpn(VaOf(n)) == n
  {
  }

  /** Addresses whose page number lies below one table entry walk through that entry. */
  lemma {:induction false} Within2(i0: nat, i1: nat, i2: nat, va: nat)
    requires i0 < N && i1 < N && i2 < N && Join(i0, i1, i2, 0) <= Vpn(va) < Join(i0, i1, i2 + 1, 0)
    ensures Part(va, 0) == i0 && Part(va, 1) == i1 && Part(va, 2) == i2
  {
    VpnJoin(va);
    var i3 := Vpn(va) - Join(i0, i1, i2, 0);
    assert Join(i0, i1, i2, i3) == Vpn(va);
    JoinUnique(Part(va, 0), Part(va, 1), Part(va, 2), Part(va, 3), i0, i1, i2, i3);
  }

  lemma {:induction false} Within1(i0: nat, i1: nat, va: nat)
    requires i0 < N && i1 < N && Join(i0, i1, 0, 0) <= Vpn(va) < Join(i0, i1 + 1, 0, 0)
    ensures Part(va, 0) == i0 && Part(va, 1) == i1
  {
    var i2 := (Vpn(va) - Join(i0, i1, 0, 0)) / N;
    Within2(i0, i1, i2, va);
  }

  lemma {:induction false} Within0(i0: nat, va: nat)
    requires i0 < N && Join(i0, 0, 0, 0) <= Vpn(va) < Join(i0 + 1, 0, 0, 0)
    ensures Part(va, 0) == i0
  {
    var i1 := (Vpn(va) - Join(i0, 0, 0, 0)) / (N * N);
    Within1(i0, i1, va);
  }

  // ----- the copy in progress -----

  /** Both translate or neither does, to different pages with the same contents. */
  ghost predicate Twins(mem: Memory, pat: Space, cat: Space, data: Pages, va: nat) {
    var a, b := Translate(mem, pat, va), Translate(mem, cat, va);
    if a == Zero then b == Zero
    else b.Valid? && b.flags == PTE_USER_DATA && a.page in data && b.page in data && data[b.page] == data[a.page]
  }

  ghost predicate Leaf(mem: Memory, at: Space, n: nat) {
    exists va: nat :: Translate(mem, at, va).Valid? && Translate(mem, at, va).page == n
  }

  /** a and b are mapped to one physical page. */
  ghost predicate SamePage(mem: Memory, at: Space, a: nat, b: nat) {
    Translate(mem, at, a).Valid? && Translate(mem, at, b).Valid?
        && Translate(mem, at, a).page == Translate(mem, at, b).page
  }

  /** No physical page is mapped twice. */
  ghost predicate Alone(mem: Memory, at: Space) {
    forall a: nat, b: nat | SamePage(mem, at, a, b) :: Vpn(a) == Vpn(b)
  }

  lemma {:induction false} SameAlone(mem: Memory, mem': Memory, at: Space, at': Space)
    requires Alone(mem, at) && forall va: nat :: Translate(mem', at', va) == Translate(mem, at, va)
    ensures Alone(mem', at')
  {
    hide Translate;
    forall a: nat, b: nat | SamePage(mem', at', a, b) ensures Vpn(a) == Vpn(b) { assert SamePage(mem, at, a, b); }
  }

  /** The parent's pages and the child's, tables or not, are apart from each other and from the pool. */
  ghost predicate Apart(mem: Memory, pat: Space, cat: Space, data: Pages, pool: seq<nat>) {
    && TreeOk(mem, pat) && Ready(mem, cat, pool) && pat.Values !! cat.Values
    && (forall n | n in pool :: n !in pat.Values && !Leaf(mem, pat, n) && !Leaf(mem, cat, n))
    && (forall n | Leaf(mem, pat, n) :: n in data && n !in cat.Values && !Leaf(mem, cat, n))
    && (forall n | Leaf(mem, cat, n) :: n !in cat.Values && n !in pat.Values)
  }

  /** The pages below n are copied, the others are not there yet. */
  ghost predicate Copied(mem: Memory, pat: Space, cat: Space, data: Pages, n: nat) {
    forall va: nat :: if Vpn(va) < n then Twins(mem, pat, cat, data, va) else Translate(mem, cat, va) == Zero
  }

  lemma {:induction false} CopySkip(mem: Memory, pat: Space, cat: Space, data: Pages, n: nat, m: nat)
    requires Copied(mem, pat, cat, data, n) && n <= m
             && forall va: nat | n <= Vpn(va) < m :: Translate(mem, pat, va) == Zero
    ensures Copied(mem, pat, cat, data, m)
  {
  }

  /** The state after a page of the pool has been filled and entered for va. */
  lemma {:induction false} LeafStored(mem: Memory, at: Space, va: nat, np: nat, flags: nat, n: nat)
    requires TreeOk(mem, at) && Reaches(mem, at, va) && Translate(mem, at, va) == Zero
    ensures Leaf(Stored(mem, at, va, Valid(np, flags)), at, n) <==> n == np || Leaf(mem, at, n)
  {
    var mem' := Stored(mem, at, va, Valid(np, flags));
    if Leaf(mem', at, n) {
      var a: nat :| Translate(mem', at, a).Valid? && Translate(mem', at, a).page == n;
      StoreTranslate(mem, at, va, Valid(np, flags), a);
    }
    if n == np { StoreTranslate(mem, at, va, Valid(np, flags), va); }
    if Leaf(mem, at, n) {
      var a: nat :| Translate(mem, at, a).Valid? && Translate(mem, at, a).page == n;
      StoreTranslate(mem, at, va, Valid(np, flags), a);
      SameZero(mem, at, va, a);
    }
  }

  /** Addresses on one page translate alike. */
  lemma {:induction false} SameZero(mem: Memory, at: Space, va: nat, a: nat)
    ensures Vpn(a) == Vpn(va) ==> Translate(mem, at, a) == Translate(mem, at, va)
  {
    SameSlot(a, va);
  }

  lemma {:induction false} SameLeaves(mem: Memory, mem': Memory, at: Space, at': Space)
    requires forall va: nat :: Translate(mem', at', va) == Translate(mem, at, va)
    ensures forall n: nat :: Leaf(mem', at', n) <==> Leaf(mem, at, n)
  {
    forall n: nat ensures Leaf(mem', at', n) <==> Leaf(mem, at, n) {
      if Leaf(mem, at, n) {
        var va: nat :| Translate(mem, at, va).Valid? && Translate(mem, at, va).page == n;
        assert Translate(mem', at', va).page == n;
      }
      if Leaf(mem', at', n) {
        var va: nat :| Translate(mem', at', va).Valid? && Translate(mem', at', va).page == n;
        assert Translate(mem, at, va).page == n;
      }
    }
  }

  // ----- one page -----

  /** np has left the pool and belongs to nobody. */
  ghost predicate Loose(mem: Memory, pat: Space, cat: Space, pool: seq<nat>, np: nat) {
    np !in pool && np !in pat.Values && np !in cat.Values && !Leaf(mem, pat, np) && !Leaf(mem, cat, np)
  }

  lemma {:induction false} PopApart(mem: Memory, pat: Space, cat: Space, data: Pages, pool: seq<nat>, c: seq<byte>)
    requires Apart(mem, pat, cat, data, pool) && pool != []
    ensures Apart(mem, pat, cat, data[pool[0] := c], pool[1..]) && Loose(mem, pat, cat, pool[1..], pool[0])
  {
    hide TreeOk, Leaf, Translate;
    assert pool[0] in pool;
    TailDistinct(pool);
    forall n | n in pool[1..] ensures n in pool {}
    hide Distinct;
  }

  /** Growing the child's tables leaves the parent alone. */
  lemma {:induction false} GrowApart(mem: Memory, pat: Space, cat: Space, data: Pages, pool: seq<nat>, mem': Memory,
                                     cat': Space, pool': seq<nat>, np: nat)
    requires Apart(mem, pat, cat, data, pool) && Loose(mem, pat, cat, pool, np)
             && Extends(mem, cat, pool, mem', cat', pool')
    ensures Apart(mem', pat, cat', data, pool') && Loose(mem', pat, cat', pool', np)
    ensures forall va: nat :: Translate(mem', pat, va) == Translate(mem, pat, va)
  {
    ParentFrame(mem, pat, cat, pool, mem', cat', pool');
    SameLeaves(mem, mem', pat, pat);
    SameLeaves(mem, mem', cat, cat');
    hide TreeOk, Leaf, Ready, Translate;
    forall n | n in pool' ensures n in pool {}
    forall n | n in cat'.Values ensures n in cat.Values || n in pool { var p :| p in cat' && cat'[p] == n; }
  }

  lemma {:induction false} ParentFrame(mem: Memory, pat: Space, cat: Space, pool: seq<nat>, mem': Memory, cat': Space,
                                       pool': seq<nat>)
    requires TreeOk(mem, pat) && pat.Values !! cat.Values && (forall n | n in pool :: n !in pat.Values)
             && Extends(mem, cat, pool, mem', cat', pool')
    ensures TreeOk(mem', pat) && forall va: nat :: Translate(mem', pat, va) == Translate(mem, pat, va)
  {
    hide Translate, Ready;
    forall n | n in pat.Values ensures n in mem && n in mem' && mem'[n] == mem[n] {
      var p :| p in pat && pat[p] == n;
      assert TableAt(mem, pat, p);
      assert n !in cat.Values && n !in pool;
    }
    TreeFrame(mem, mem', pat);
  }

  lemma {:induction false} StoreApart(mem: Memory, pat: Space, cat: Space, data: Pages, pool: seq<nat>, va: nat,
                                      np: nat, flags: nat)
    requires Apart(mem, pat, cat, data, pool) && Loose(mem, pat, cat, pool, np) && Reaches(mem, cat, va)
             && Translate(mem, cat, va) == Zero
    ensures Apart(Stored(mem, cat, va, Valid(np, flags)), pat, cat, data, pool)
    ensures forall a: nat :: Translate(Stored(mem, cat, va, Valid(np, flags)), pat, a) == Translate(mem, pat, a)
  {
    var mem' := Stored(mem, cat, va, Valid(np, flags));
    StoreTree(mem, cat, va, Valid(np, flags));
    StoreFrame(mem, pat, cat, va, Valid(np, flags));
    SameLeaves(mem, mem', pat, pat);
    forall n: nat ensures Leaf(mem', cat, n) <==> n == np || Leaf(mem, cat, n) {
      LeafStored(mem, cat, va, np, flags, n);
    }
    forall a: nat
      ensures Translate(mem', cat, a) == if Vpn(a) == Vpn(va) then Valid(np, flags) else Translate(mem, cat, a)
    {
      StoreTranslate(mem, cat, va, Valid(np, flags), a);
    }
    hide TreeOk, Leaf, Translate, Stored, Distinct;
  }

  lemma {:induction false} StoreFrame(mem: Memory, pat: Space, cat: Space, va: nat, e: Entry)
    requires TreeOk(mem, pat) && pat.Values !! cat.Values && Reaches(mem, cat, va)
    ensures TreeOk(Stored(mem, cat, va, e), pat)
            && forall a: nat :: Translate(Stored(mem, cat, va, e), pat, a) == Translate(mem, pat, a)
  {
    hide Translate;
    var mem' := Stored(mem, cat, va, e);
    assert cat[Path3(va)] in cat.Values;
    forall n | n in pat.Values ensures n in mem && n in mem' && mem'[n] == mem[n] {
      var p :| p in pat && pat[p] == n;
      assert TableAt(mem, pat, p);
    }
    TreeFrame(mem, mem', pat);
  }

  /** The new page is nobody else's, so no two pages of the child share one. */
  lemma {:induction false} StoreAlone(mem: Memory, mem': Memory, cat: Space, va: nat, np: nat, flags: nat)
    requires !Leaf(mem, cat, np)
    requires Alone(mem, cat)
    requires forall a: nat ::
             Translate(mem', cat, a) == if Vpn(a) == Vpn(va) then Valid(np, flags) else Translate(mem, cat, a)
    ensures Alone(mem', cat)
  {
    hide Translate;
    forall a: nat | Translate(mem, cat, a).Valid? ensures Translate(mem, cat, a).page != np {}
    forall a: nat, b: nat | SamePage(mem', cat, a, b) ensures Vpn(a) == Vpn(b) {
      if Vpn(a) != Vpn(va) && Vpn(b) != Vpn(va) { assert SamePage(mem, cat, a, b); }
    }
  }

  lemma {:induction false} StoreCopied(mem: Memory, pat: Space, cat: Space, data: Pages, va: nat, np: nat)
    requires Copied(mem, pat, cat, data, Vpn(va)) && Reaches(mem, cat, va) && TreeOk(mem, cat)
             && Translate(mem, pat, va).Valid?
    requires Translate(mem, pat, va).page in data && np in data && data[np] == data[Translate(mem, pat, va).page]
    requires forall a: nat ::
             Translate(Stored(mem, cat, va, Valid(np, PTE_USER_DATA)), pat, a) == Translate(mem, pat, a)
    ensures Copied(Stored(mem, cat, va, Valid(np, PTE_USER_DATA)), pat, cat, data, Vpn(va) + 1)
  {
    var mem' := Stored(mem, cat, va, Valid(np, PTE_USER_DATA));
    forall a: nat
      ensures if Vpn(a) < Vpn(va) + 1 then Twins(mem', pat, cat, data, a) else Translate(mem', cat, a) == Zero
    {
      StoreTranslate(mem, cat, va, Valid(np, PTE_USER_DATA), a);
      SameZero(mem, pat, va, a);
      assert Vpn(a) < Vpn(va) ==> Twins(mem, pat, cat, data, a);
      assert Vpn(a) > Vpn(va) ==> Translate(mem, cat, a) == Zero;
    }
  }

  /** Filling a loose page and growing tables do not disturb what is copied. */
  lemma {:induction false} CopiedFrame(mem: Memory, pat: Space, cat: Space, data: Pages, mem': Memory, cat': Space,
                                       data': Pages, np: nat, n: nat)
    requires Copied(mem, pat, cat, data, n) && !Leaf(mem, pat, np) && !Leaf(mem, cat, np)
    requires forall x | x in data && x != np :: x in data' && data'[x] == data[x]
    requires forall va: nat ::
             Translate(mem', pat, va) == Translate(mem, pat, va) && Translate(mem', cat', va) == Translate(mem, cat, va)
    ensures Copied(mem', pat, cat', data', n)
  {
    hide Translate;
    forall va: nat
      ensures if Vpn(va) < n then Twins(mem', pat, cat', data', va) else Translate(mem', cat', va) == Zero
    {
      assert if Vpn(va) < n then Twins(mem, pat, cat, data, va) else Translate(mem, cat, va) == Zero;
      if Translate(mem, pat, va).Valid? { assert Translate(mem, pat, va).page != np; }
      if Translate(mem, cat, va).Valid? { assert Translate(mem, cat, va).page != np; }
    }
  }

  // ----- fork -----

  /** Everything the loops of `fork` keep, when the pages below n are done. */
  ghost predicate Forking(fr: Frames, parent: Pgdir, child: Pgdir, n: nat)
    reads fr, parent, child
  {
    && parent != child && RootOk(child.pt, child.at)
    && Apart(fr.tables, parent.at, child.at, fr.data, fr.pool) && Alone(fr.tables, child.at)
    && Copied(fr.tables, parent.at, child.at, fr.data, n)
  }

  /** The body of the innermost loop: pa is the page that the parent's entry names. */
  method CopyPage(fr: Frames, ghost parent: Pgdir, child: Pgdir, va: nat, pa: nat) returns (ok: bool)
    requires Forking(fr, parent, child, Vpn(va)) && Translate(fr.tables, parent.at, va).Valid?
             && pa == Translate(fr.tables, parent.at, va).page
    modifies fr`tables, fr`pool, fr`data, child
    ensures !ok ==> fr.pool == []
    ensures ok ==>
            Forking(fr, parent, child, Vpn(va) + 1)
            && ParentSame(old(fr.tables), fr.tables, old(fr.data), fr.data, parent.at)
  {
    ok := fr.pool != [];
    if !ok { return; }
    hide Translate, TreeOk, Leaf, Extends, Stored, Apart, Copied, Loose, Twins, Ready, ParentSame, Alone;
    ghost var m0, c0, d0, p0 := fr.tables, child.at, fr.data, fr.pool;
    BeforeGrowing(m0, parent.at, c0, d0, p0, va);
    var np := fr.pool[0];
    fr.pool := fr.pool[1..];
    fr.data := fr.data[np := fr.data[pa]];
    var page, i;
    ok, page, i := fr.GetPte(child, va, true);
    if !ok { return; }
    AfterGrowing(m0, parent.at, c0, d0, p0, fr.tables, child.at, fr.pool, va, page, i);
    fr.tables := fr.tables[page := fr.tables[page][i := Valid(np, PTE_USER_DATA)]];
  }

  lemma {:induction false} BeforeGrowing(m0: Memory, pat: Space, c0: Space, d0: Pages, p0: seq<nat>, va: nat)
    requires Apart(m0, pat, c0, d0, p0) && p0 != [] && Translate(m0, pat, va).Valid?
    ensures Translate(m0, pat, va).page in d0 && Ready(m0, c0, p0[1..])
  {
    LeafHere(m0, pat, c0, d0, p0, va);
    PopApart(m0, pat, c0, d0, p0, d0[Translate(m0, pat, va).page]);
    hide Translate, TreeOk, Leaf;
  }

  /** All that has happened to one page, once its entry is written. */
  lemma {:induction false} AfterGrowing(m0: Memory, pat: Space, c0: Space, d0: Pages, p0: seq<nat>, m1: Memory,
                                        c1: Space, p2: seq<nat>, va: nat, page: nat, i: nat)
    requires Apart(m0, pat, c0, d0, p0) && Alone(m0, c0) && Copied(m0, pat, c0, d0, Vpn(va)) && p0 != []
             && Translate(m0, pat, va).Valid? && Translate(m0, pat, va).page in d0
    requires Extends(m0, c0, p0[1..], m1, c1, p2) && Path3(va) in c1 && page == c1[Path3(va)] && i == Part(va, 3)
    ensures page in m1 && i < |m1[page]|
    ensures var data, m2 := d0[p0[0] := d0[Translate(m0, pat, va).page]],
            m1[page := m1[page][i := Valid(p0[0], PTE_USER_DATA)]];
            Apart(m2, pat, c1, data, p2) && Alone(m2, c1) && Copied(m2, pat, c1, data, Vpn(va) + 1)
                && ParentSame(m0, m2, d0, data, pat)
  {
    hide Translate, TreeOk, Leaf, Extends, Stored, Apart, Copied, Loose, Twins, Reaches, Alone;
    var np, pa, p1 := p0[0], Translate(m0, pat, va).page, p0[1..];
    var data := d0[np := d0[pa]];
    PopApart(m0, pat, c0, d0, p0, d0[pa]);
    LooseNotLeaf(m0, pat, c0, p1, np);
    LeafHere(m0, pat, c0, d0, p0, va);
    GrowApart(m0, pat, c0, data, p1, m1, c1, p2, np);
    GrownCopy(m0, pat, c0, d0, p1, m1, c1, p2, data, np, va);
    StoreApart(m1, pat, c1, data, p2, va, np, PTE_USER_DATA);
    StoreCopied(m1, pat, c1, data, va, np);
    StillAlone(m0, c0, p1, m1, c1, p2, pat, va, np);
    StoredIs(m1, c1, va, Valid(np, PTE_USER_DATA), page, i);
  }

  lemma {:induction false} StillAlone(m0: Memory, c0: Space, p1: seq<nat>, m1: Memory, c1: Space, p2: seq<nat>,
                                      pat: Space, va: nat, np: nat)
    requires Alone(m0, c0) && Extends(m0, c0, p1, m1, c1, p2) && Loose(m1, pat, c1, p2, np) && Reaches(m1, c1, va)
             && TreeOk(m1, c1)
    ensures Alone(Stored(m1, c1, va, Valid(np, PTE_USER_DATA)), c1)
  {
    hide TreeOk, Ready, Leaf, Translate, Stored, Alone;
    SameAlone(m0, m1, c0, c1);
    var m2 := Stored(m1, c1, va, Valid(np, PTE_USER_DATA));
    forall a: nat
      ensures Translate(m2, c1, a) == if Vpn(a) == Vpn(va) then Valid(np, PTE_USER_DATA) else Translate(m1, c1, a)
    {
      StoreTranslate(m1, c1, va, Valid(np, PTE_USER_DATA), a);
    }
    StoreAlone(m1, m2, c1, va, np, PTE_USER_DATA);
  }

  lemma {:induction false} LooseNotLeaf(mem: Memory, pat: Space, cat: Space, pool: seq<nat>, np: nat)
    requires Loose(mem, pat, cat, pool, np)
    ensures !Leaf(mem, pat, np)
  {
  }

  /** The parent sees the same entries and, behind them, the same contents. */
  ghost predicate ParentSame(mem: Memory, mem': Memory, data: Pages, data': Pages, pat: Space) {
    && (forall a: nat :: Translate(mem', pat, a) == Translate(mem, pat, a))
    && (forall n | Leaf(mem, pat, n) && n in data :: n in data' && data'[n] == data[n])
  }

  lemma {:induction false} LeafHere(mem: Memory, pat: Space, cat: Space, data: Pages, pool: seq<nat>, va: nat)
    requires Apart(mem, pat, cat, data, pool) && Translate(mem, pat, va).Valid?
    ensures Translate(mem, pat, va).page in data && Leaf(mem, pat, Translate(mem, pat, va).page)
  {
    hide Translate, TreeOk, Ready;
    assert Leaf(mem, pat, Translate(mem, pat, va).page);
  }

  lemma {:induction false} GrownCopy(m0: Memory, pat: Space, c0: Space, d0: Pages, p1: seq<nat>, m1: Memory,
                                     c1: Space, p2: seq<nat>, data: Pages, np: nat, va: nat)
    requires Copied(m0, pat, c0, d0, Vpn(va)) && Loose(m0, pat, c0, p1, np) && Extends(m0, c0, p1, m1, c1, p2)
    requires forall x | x in d0 && x != np :: x in data && data[x] == d0[x]
    requires forall a: nat :: Translate(m1, pat, a) == Translate(m0, pat, a)
    requires Path3(va) in c1
    ensures Copied(m1, pat, c1, data, Vpn(va)) && TreeOk(m1, c1) && Reaches(m1, c1, va) && Translate(m1, c1, va) == Zero
  {
    hide Translate, TreeOk, Leaf, Twins;
    CopiedFrame(m0, pat, c0, d0, m1, c1, data, np, Vpn(va));
    ReachesIt(m1, c1, va);
    assert Translate(m1, c1, va) == Zero by { assert !(Vpn(va) < Vpn(va)); }
  }

  lemma {:induction false} StoredIs(mem: Memory, at: Space, va: nat, e: Entry, page: nat, i: nat)
    requires Reaches(mem, at, va) && page == at[Path3(va)] && i == Part(va, 3)
    ensures page in mem && i < |mem[page]| && mem[page := mem[page][i := e]] == Stored(mem, at, va, e)
  {
  }

  lemma {:induction false} ParentSameTrans(m0: Memory, m1: Memory, m2: Memory, d0: Pages, d1: Pages, d2: Pages,
                                           pat: Space)
    requires ParentSame(m0, m1, d0, d1, pat) && ParentSame(m1, m2, d1, d2, pat)
    ensures ParentSame(m0, m2, d0, d2, pat)
  {
    SameLeaves(m0, m1, pat, pat);
    hide Translate, Leaf;
  }

  lemma {:induction false} ParentSameRefl(m: Memory, d: Pages, pat: Space)
    ensures ParentSame(m, m, d, d, pat)
  {
  }

  /** Reading an entry of the parent's tables. */
  lemma {:induction false} ParentTree(mem: Memory, pat: Space, cat: Space, data: Pages, pool: seq<nat>, p: Path)
    requires Apart(mem, pat, cat, data, pool) && p in pat
    ensures TreeOk(mem, pat) && pat[p] in mem && |mem[pat[p]]| == N
  {
    assert TableAt(mem, pat, p);
  }

  lemma {:induction false} LeafEntry(mem: Memory, pat: Space, i0: nat, i1: nat, i2: nat, i3: nat)
    requires TreeOk(mem, pat) && i0 < N && i1 < N && i2 < N && i3 < N && [i0, i1, i2] in pat
    ensures pat[[i0, i1, i2]] in mem && |mem[pat[[i0, i1, i2]]]| == N
    ensures Vpn(VaOf(Join(i0, i1, i2, i3))) == Join(i0, i1, i2, i3)
            && Translate(mem, pat, VaOf(Join(i0, i1, i2, i3))) == mem[pat[[i0, i1, i2]]][i3]
    ensures forall va: nat | Vpn(va) == Join(i0, i1, i2, i3) :: Translate(mem, pat, va) == mem[pat[[i0, i1, i2]]][i3]
  {
    assert TableAt(mem, pat, [i0, i1, i2]);
    VaParts(i0, i1, i2, i3);
    var v := VaOf(Join(i0, i1, i2, i3));
    assert Path3(v) == [i0, i1, i2];
    forall va: nat | Vpn(va) == Join(i0, i1, i2, i3) ensures Translate(mem, pat, va) == mem[pat[[i0, i1, i2]]][i3] {
      SameZero(mem, pat, v, va);
    }
  }

  /** The loop over the last level. */
  method ForkLast(fr: Frames, ghost parent: Pgdir, child: Pgdir, page: nat, i0: nat, i1: nat, i2: nat)
      returns (ok: bool)
    requires i0 < N && i1 < N && i2 < N && Forking(fr, parent, child, Join(i0, i1, i2, 0)) && [i0, i1, i2] in parent.at
             && page == parent.at[[i0, i1, i2]]
    modifies fr`tables, fr`pool, fr`data, child
    ensures ok ==>
            Forking(fr, parent, child, Join(i0, i1, i2 + 1, 0))
            && ParentSame(old(fr.tables), fr.tables, old(fr.data), fr.data, parent.at)
    ensures !ok ==> fr.pool == []
  {
    hide Translate, TreeOk, Apart, Copied, Twins, ParentSame, Alone, Vpn, VaOf;
    ghost var pat := parent.at;
    ParentSameRefl(fr.tables, fr.data, pat);
    var i3 := 0;
    while i3 < N
      invariant i3 <= N && parent.at == pat && Forking(fr, parent, child, Join(i0, i1, i2, i3))
      invariant ParentSame(old(fr.tables), fr.tables, old(fr.data), fr.data, pat)
    {
      ParentTree(fr.tables, pat, child.at, fr.data, fr.pool, [i0, i1, i2]);
      LeafEntry(fr.tables, pat, i0, i1, i2, i3);
      var e := fr.tables[page][i3];
      ghost var m, d := fr.tables, fr.data;
      if e.Valid? {
        ok := CopyPage(fr, parent, child, VaOf(Join(i0, i1, i2, i3)), e.page);
        if !ok { return; }
        ParentSameTrans(old(fr.tables), m, fr.tables, old(fr.data), d, fr.data, pat);
      } else {
        CopySkip(fr.tables, pat, child.at, fr.data, Join(i0, i1, i2, i3), Join(i0, i1, i2, i3) + 1);
      }
      assert Join(i0, i1, i2, i3 + 1) == Join(i0, i1, i2, i3) + 1;
      i3 := i3 + 1;
    }
    assert Join(i0, i1, i2, N) == Join(i0, i1, i2 + 1, 0);
    ok := true;
  }

  /** Below an entry that is not valid nothing translates. */
  lemma {:induction false} NothingBelow(mem: Memory, pat: Space, p: Path, i: nat, lo: nat, hi: nat)
    requires TreeOk(mem, pat) && p in pat && |p| < 3 && i < N && Child(p, i) !in pat
    requires forall va: nat | lo <= Vpn(va) < hi :: Path3(va)[..|p| + 1] == Child(p, i)
    ensures forall va: nat | lo <= Vpn(va) < hi :: Translate(mem, pat, va) == Zero
  {
    forall va: nat | lo <= Vpn(va) < hi ensures Translate(mem, pat, va) == Zero {
      var q := Path3(va);
      if q in pat { PrefixIn(mem, pat, q, |p| + 1); }
    }
  }

  lemma {:induction false} Entry2(mem: Memory, pat: Space, i0: nat, i1: nat, i2: nat)
    requires TreeOk(mem, pat) && i0 < N && i1 < N && i2 < N && [i0, i1] in pat
    ensures pat[[i0, i1]] in mem && |mem[pat[[i0, i1]]]| == N
    ensures mem[pat[[i0, i1]]][i2].Valid? ==> [i0, i1, i2] in pat && pat[[i0, i1, i2]] == mem[pat[[i0, i1]]][i2].page
    ensures !mem[pat[[i0, i1]]][i2].Valid? ==>
            forall va: nat | Join(i0, i1, i2, 0) <= Vpn(va) < Join(i0, i1, i2 + 1, 0) :: Translate(mem, pat, va) == Zero
  {
    hide Translate, TreeOk;
    var p := [i0, i1];
    ChildLinked(mem, pat, p, i2);
    assert Child(p, i2) == [i0, i1, i2];
    if !mem[pat[p]][i2].Valid? {
      forall va: nat | Join(i0, i1, i2, 0) <= Vpn(va) < Join(i0, i1, i2 + 1, 0) ensures Path3(va)[..3] == Child(p, i2) {
        Within2(i0, i1, i2, va);
      }
      NothingBelow(mem, pat, p, i2, Join(i0, i1, i2, 0), Join(i0, i1, i2 + 1, 0));
    }
  }

  lemma {:induction false} Entry1(mem: Memory, pat: Space, i0: nat, i1: nat)
    requires TreeOk(mem, pat) && i0 < N && i1 < N && [i0] in pat
    ensures pat[[i0]] in mem && |mem[pat[[i0]]]| == N
    ensures mem[pat[[i0]]][i1].Valid? ==> [i0, i1] in pat && pat[[i0, i1]] == mem[pat[[i0]]][i1].page
    ensures !mem[pat[[i0]]][i1].Valid? ==>
            forall va: nat | Join(i0, i1, 0, 0) <= Vpn(va) < Join(i0, i1 + 1, 0, 0) :: Translate(mem, pat, va) == Zero
  {
    hide Translate, TreeOk;
    var p := [i0];
    ChildLinked(mem, pat, p, i1);
    assert Child(p, i1) == [i0, i1];
    if !mem[pat[p]][i1].Valid? {
      forall va: nat | Join(i0, i1, 0, 0) <= Vpn(va) < Join(i0, i1 + 1, 0, 0) ensures Path3(va)[..2] == Child(p, i1) {
        Within1(i0, i1, va);
      }
      NothingBelow(mem, pat, p, i1, Join(i0, i1, 0, 0), Join(i0, i1 + 1, 0, 0));
    }
  }

  lemma {:induction false} Entry0(mem: Memory, pat: Space, i0: nat)
    requires TreeOk(mem, pat) && i0 < N && [] in pat
    ensures pat[[]] in mem && |mem[pat[[]]]| == N
    ensures mem[pat[[]]][i0].Valid? ==> [i0] in pat && pat[[i0]] == mem[pat[[]]][i0].page
    ensures !mem[pat[[]]][i0].Valid? ==>
            forall va: nat | Join(i0, 0, 0, 0) <= Vpn(va) < Join(i0 + 1, 0, 0, 0) :: Translate(mem, pat, va) == Zero
  {
    hide Translate, TreeOk;
    var p: Path := [];
    ChildLinked(mem, pat, p, i0);
    assert Child(p, i0) == [i0];
    if !mem[pat[p]][i0].Valid? {
      forall va: nat | Join(i0, 0, 0, 0) <= Vpn(va) < Join(i0 + 1, 0, 0, 0) ensures Path3(va)[..1] == Child(p, i0) {
        Within0(i0, va);
      }
      NothingBelow(mem, pat, p, i0, Join(i0, 0, 0, 0), Join(i0 + 1, 0, 0, 0));
    }
  }

  /** The loop over the third level. */
  method ForkThird(fr: Frames, ghost parent: Pgdir, child: Pgdir, page: nat, i0: nat, i1: nat) returns (ok: bool)
    requires i0 < N && i1 < N && Forking(fr, parent, child, Join(i0, i1, 0, 0)) && [i0, i1] in parent.at
             && page == parent.at[[i0, i1]]
    modifies fr`tables, fr`pool, fr`data, child
    ensures ok ==>
            Forking(fr, parent, child, Join(i0, i1 + 1, 0, 0))
            && ParentSame(old(fr.tables), fr.tables, old(fr.data), fr.data, parent.at)
    ensures !ok ==> fr.pool == []
  {
    hide Translate, TreeOk, Apart, Copied, Twins, ParentSame, Alone, Vpn;
    ghost var pat := parent.at;
    ParentSameRefl(fr.tables, fr.data, pat);
    var i2 := 0;
    while i2 < N
      invariant i2 <= N && parent.at == pat && Forking(fr, parent, child, Join(i0, i1, i2, 0))
      invariant ParentSame(old(fr.tables), fr.tables, old(fr.data), fr.data, pat)
    {
      ParentTree(fr.tables, pat, child.at, fr.data, fr.pool, [i0, i1]);
      Entry2(fr.tables, pat, i0, i1, i2);
      var e := fr.tables[page][i2];
      ghost var m, d := fr.tables, fr.data;
      if e.Valid? {
        ok := ForkLast(fr, parent, child, e.page, i0, i1, i2);
        if !ok { return; }
        ParentSameTrans(old(fr.tables), m, fr.tables, old(fr.data), d, fr.data, pat);
      } else {
        CopySkip(fr.tables, pat, child.at, fr.data, Join(i0, i1, i2, 0), Join(i0, i1, i2 + 1, 0));
      }
      i2 := i2 + 1;
    }
    assert Join(i0, i1, N, 0) == Join(i0, i1 + 1, 0, 0);
    ok := true;
  }

  /** The loop over the second level. */
  method ForkSecond(fr: Frames, ghost parent: Pgdir, child: Pgdir, page: nat, i0: nat) returns (ok: bool)
    requires i0 < N && Forking(fr, parent, child, Join(i0, 0, 0, 0)) && [i0] in parent.at && page == parent.at[[i0]]
    modifies fr`tables, fr`pool, fr`data, child
    ensures ok ==>
            Forking(fr, parent, child, Join(i0 + 1, 0, 0, 0))
            && ParentSame(old(fr.tables), fr.tables, old(fr.data), fr.data, parent.at)
    ensures !ok ==> fr.pool == []
  {
    hide Translate, TreeOk, Apart, Copied, Twins, ParentSame, Alone, Vpn;
    ghost var pat := parent.at;
    ParentSameRefl(fr.tables, fr.data, pat);
    var i1 := 0;
    while i1 < N
      invariant i1 <= N && parent.at == pat && Forking(fr, parent, child, Join(i0, i1, 0, 0))
      invariant ParentSame(old(fr.tables), fr.tables, old(fr.data), fr.data, pat)
    {
      ParentTree(fr.tables, pat, child.at, fr.data, fr.pool, [i0]);
      Entry1(fr.tables, pat, i0, i1);
      var e := fr.tables[page][i1];
      ghost var m, d := fr.tables, fr.data;
      if e.Valid? {
        ok := ForkThird(fr, parent, child, e.page, i0, i1);
        if !ok { return; }
        ParentSameTrans(old(fr.tables), m, fr.tables, old(fr.data), d, fr.data, pat);
      } else {
        CopySkip(fr.tables, pat, child.at, fr.data, Join(i0, i1, 0, 0), Join(i0, i1 + 1, 0, 0));
      }
      i1 := i1 + 1;
    }
    assert Join(i0, N, 0, 0) == Join(i0 + 1, 0, 0, 0);
    ok := true;
  }

  /**
    The page-table copy of `fork`: the child maps exactly the pages that the parent maps, with equal
    contents, on pages that neither the parent nor any table uses; the parent is as it was.  It stops
    only when the pool has run dry.
   */
  method ForkPages(fr: Frames, parent: Pgdir, child: Pgdir) returns (ok: bool)
    requires Forking(fr, parent, child, 0) && parent.pt != 0 && RootOk(parent.pt, parent.at)
    modifies fr`tables, fr`pool, fr`data, child
    ensures ok ==> forall va: nat :: Twins(fr.tables, parent.at, child.at, fr.data, va)
    ensures ok ==>
            Apart(fr.tables, parent.at, child.at, fr.data, fr.pool) && Alone(fr.tables, child.at)
            && RootOk(child.pt, child.at)
    ensures ok ==> ParentSame(old(fr.tables), fr.tables, old(fr.data), fr.data, parent.at)
    ensures !ok ==> fr.pool == []
  {
    hide Translate, TreeOk, Apart, Copied, Twins, ParentSame, Alone, Vpn;
    ghost var pat := parent.at;
    ParentSameRefl(fr.tables, fr.data, pat);
    var i0 := 0;
    while i0 < N
      invariant i0 <= N && parent.at == pat && parent.pt == old(parent.pt)
                && Forking(fr, parent, child, Join(i0, 0, 0, 0))
      invariant ParentSame(old(fr.tables), fr.tables, old(fr.data), fr.data, pat)
    {
      ParentTree(fr.tables, pat, child.at, fr.data, fr.pool, []);
      Entry0(fr.tables, pat, i0);
      var e := fr.tables[parent.pt][i0];
      ghost var m, d := fr.tables, fr.data;
      if e.Valid? {
        ok := ForkSecond(fr, parent, child, e.page, i0);
        if !ok { return; }
        ParentSameTrans(old(fr.tables), m, fr.tables, old(fr.data), d, fr.data, pat);
      } else {
        CopySkip(fr.tables, pat, child.at, fr.data, Join(i0, 0, 0, 0), Join(i0 + 1, 0, 0, 0));
      }
      i0 := i0 + 1;
    }
    AllCopied(fr.tables, pat, child.at, fr.data);
    ok := true;
  }

  lemma {:induction false} AllCopied(mem: Memory, pat: Space, cat: Space, data: Pages)
    requires Copied(mem, pat, cat, data, Join(N, 0, 0, 0))
    ensures forall va: nat :: Twins(mem, pat, cat, data, va)
  {
    hide Translate, Twins;
    forall va: nat ensures Twins(mem, pat, cat, data, va) { assert Vpn(va) < Join(N, 0, 0, 0); }
  }

  // ----- copyout -----

  const USERTOP := 0x1_0000_0000_0000

  /** One address space alone: pages apart, and whole. */
  ghost predicate SpaceOk(mem: Memory, at: Space, data: Pages, pool: seq<nat>) {
    && Apart(mem, map[], at, data, pool)
    && (forall n | n in pool || Leaf(mem, at, n) :: n in data && |data[n]| == PAGE_SIZE)
  }

  /** The byte that user address a shows. */
  ghost predicate Shows(mem: Memory, at: Space, data: Pages, a: nat, x: byte) {
    var e := Translate(mem, at, a);
    e.Valid? && e.page in data && |data[e.page]| == PAGE_SIZE && data[e.page][a % PAGE_SIZE] == x
  }

  ghost predicate ShowsFrom(mem: Memory, at: Space, data: Pages, a: nat, src: seq<byte>, va: nat)
    requires va <= a < va + |src|
  {
    Shows(mem, at, data, a, src[a - va])
  }

  /** a and b are the same byte of the same physical page. */
  ghost predicate SameByte(mem: Memory, at: Space, a: nat, b: nat) {
    SamePage(mem, at, a, b) && a % PAGE_SIZE == b % PAGE_SIZE
  }

  /** a is the same byte as an address of the range other than itself. */
  ghost predicate Doubled(mem: Memory, at: Space, a: nat, lo: nat, hi: nat) {
    exists b: nat :: lo <= b < hi && b != a && SameByte(mem, at, a, b)
  }

  /**
    An address of the range shows its byte of src, unless the range covers that physical byte twice;
    an address outside shows what it did, unless it is mapped to a physical byte of the range; pages
    that were mapped are mapped as they were; and pages newly mapped are user data under the range.
   */
  ghost predicate Written(m0: Memory, a0: Space, d0: Pages, mem: Memory, at: Space, data: Pages, va: nat,
                          src: seq<byte>)
  {
    && (forall a: nat | va <= a < va + |src| ::
          Translate(mem, at, a).Valid? && (Doubled(mem, at, a, va, va + |src|) || ShowsFrom(mem, at, data, a, src, va)))
    && (forall a: nat, x: byte | a < USERTOP && !(va <= a < va + |src|) && Shows(m0, a0, d0, a, x) ::
          Doubled(mem, at, a, va, va + |src|) || Shows(mem, at, data, a, x))
    && (forall a: nat | Translate(m0, a0, a).Valid? :: Translate(mem, at, a) == Translate(m0, a0, a))
    && (forall a: nat | !Translate(m0, a0, a).Valid? && Translate(mem, at, a).Valid? ::
          Translate(mem, at, a).flags == PTE_USER_DATA && Touched(a, va, va + |src|))
  }

  /** The page of a holds an address of the range. */
  ghost predicate Touched(a: nat, lo: nat, hi: nat) {
    exists b: nat :: lo <= b < hi && Vpn(b) == Vpn(a)
  }

  /** Where no physical page is mapped twice, that is: exactly the range changes. */
  lemma {:induction false} WrittenAlone(m0: Memory, a0: Space, d0: Pages, mem: Memory, at: Space, data: Pages,
                                        va: nat, src: seq<byte>)
    requires Written(m0, a0, d0, mem, at, data, va, src) && Alone(mem, at) && va + |src| <= USERTOP
    ensures forall a: nat | va <= a < va + |src| :: ShowsFrom(mem, at, data, a, src, va)
    ensures forall a: nat, x: byte | a < USERTOP && !(va <= a < va + |src|) && Shows(m0, a0, d0, a, x) ::
            Shows(mem, at, data, a, x)
  {
    hide Translate, Shows;
    var hi := va + |src|;
    forall a: nat | a < USERTOP ensures !Doubled(mem, at, a, va, hi) {
      forall b: nat | va <= b < hi && b != a ensures !SameByte(mem, at, a, b) {
        UserPages(a, b);
        assert a / PAGE_SIZE == b / PAGE_SIZE && a % PAGE_SIZE == b % PAGE_SIZE ==> a == b;
      }
    }
  }

  lemma {:induction false} WrittenNone(mem: Memory, at: Space, data: Pages, va: nat)
    ensures Written(mem, at, data, mem, at, data, va, [])
  {
  }

  /** The page of `cur` is mapped to `page`; nothing else has moved. */
  ghost predicate MappedAt(m0: Memory, a0: Space, mem: Memory, at: Space, cur: nat, page: nat) {
    && Translate(mem, at, cur).Valid? && Translate(mem, at, cur).page == page
    && (!Translate(m0, a0, cur).Valid? ==> Translate(mem, at, cur).flags == PTE_USER_DATA)
    && (forall a: nat ::
          Translate(mem, at, a) == Translate(m0, a0, a) || (Vpn(a) == Vpn(cur) && Translate(m0, a0, a) == Zero))
  }

  function Patch(d: seq<byte>, off: nat, bytes: seq<byte>): (r: seq<byte>)
    requires off + |bytes| <= |d|
    ensures |r| == |d| && forall i: nat | i < |d| :: r[i] == if off <= i < off + |bytes| then bytes[i - off] else d[i]
  {
    d[..off] + bytes + d[off + |bytes|..]
  }

  lemma {:induction false} UserPages(a: nat, b: nat)
    requires a < USERTOP && b < USERTOP
    ensures Vpn(a) == Vpn(b) <==> a / PAGE_SIZE == b / PAGE_SIZE
  {
  }

  /** a is one of the bytes that a piece of n bytes at cur is copied to. */
  ghost predicate Hit(mem: Memory, at: Space, a: nat, cur: nat, n: nat) {
    SamePage(mem, at, a, cur) && cur % PAGE_SIZE <= a % PAGE_SIZE < cur % PAGE_SIZE + n
  }

  /** What one address shows after the piece has been copied. */
  lemma {:induction false} PatchShows(mem: Memory, at: Space, data: Pages, cur: nat, bytes: seq<byte>, a: nat, x: byte)
    requires Translate(mem, at, cur).Valid? && cur % PAGE_SIZE + |bytes| <= PAGE_SIZE
    requires Translate(mem, at, cur).page in data && |data[Translate(mem, at, cur).page]| == PAGE_SIZE
    ensures var pg := Translate(mem, at, cur).page;
            var data' := data[pg := Patch(data[pg], cur % PAGE_SIZE, bytes)];
            Shows(mem, at, data', a, x) <==>
              if Hit(mem, at, a, cur, |bytes|) then bytes[a % PAGE_SIZE - cur % PAGE_SIZE] == x
              else Shows(mem, at, data, a, x)
  {
    hide Translate;
  }

  /** An address that is hit is the same byte as one of the piece. */
  lemma {:induction false} HitDoubles(mem: Memory, at: Space, a: nat, cur: nat, n: nat)
    requires Hit(mem, at, a, cur, n) && cur % PAGE_SIZE + n <= PAGE_SIZE && cur + n <= USERTOP
    ensures var b := cur + (a % PAGE_SIZE - cur % PAGE_SIZE); cur <= b < cur + n && SameByte(mem, at, a, b)
  {
    var b := cur + (a % PAGE_SIZE - cur % PAGE_SIZE);
    SamePlace(cur, a % PAGE_SIZE);
    UserPages(b, cur);
    SameZero(mem, at, cur, b);
    hide Translate;
  }

  lemma {:induction false} SamePlace(cur: nat, off: nat)
    requires cur % PAGE_SIZE <= off < PAGE_SIZE
    ensures var b := cur + (off - cur % PAGE_SIZE); b % PAGE_SIZE == off && b / PAGE_SIZE == cur / PAGE_SIZE
  {
    var q := cur / PAGE_SIZE;
    assert cur == PAGE_SIZE * q + cur % PAGE_SIZE;
    assert cur + (off - cur % PAGE_SIZE) == PAGE_SIZE * q + off;
  }

  /** An address of the piece itself is hit, at its own place. */
  lemma {:induction false} HitItself(mem: Memory, at: Space, a: nat, cur: nat, n: nat)
    requires cur <= a < cur + n && cur % PAGE_SIZE + n <= PAGE_SIZE && cur + n <= USERTOP
             && Translate(mem, at, cur).Valid?
    ensures Translate(mem, at, a).Valid? && Hit(mem, at, a, cur, n) && a % PAGE_SIZE - cur % PAGE_SIZE == a - cur
  {
    SamePlace(cur, cur % PAGE_SIZE + (a - cur));
    UserPages(a, cur);
    SameZero(mem, at, cur, a);
    hide Translate;
  }

  lemma {:induction false} MovedShows(mem: Memory, at: Space, mem': Memory, at': Space, data: Pages, cur: nat,
                                      page: nat, a: nat, x: byte)
    requires MappedAt(mem, at, mem', at', cur, page) && Shows(mem, at, data, a, x)
    ensures Shows(mem', at', data, a, x)
  {
    assert Translate(mem', at', a) == Translate(mem, at, a);
  }

  /** What is the same byte before a page is mapped is so afterwards, and the other way round for mapped addresses. */
  lemma {:induction false} MovedBytes(mem: Memory, at: Space, mem': Memory, at': Space, cur: nat, page: nat, a: nat,
                                      lo: nat, hi: nat)
    requires MappedAt(mem, at, mem', at', cur, page) && Doubled(mem, at, a, lo, hi)
    ensures Doubled(mem', at', a, lo, hi)
  {
    hide Translate, Vpn;
    var b: nat :| lo <= b < hi && b != a && SameByte(mem, at, a, b);
    assert Translate(mem', at', a) == Translate(mem, at, a) && Translate(mem', at', b) == Translate(mem, at, b);
    assert SameByte(mem', at', a, b);
  }

  lemma {:induction false} DoubledMore(mem: Memory, at: Space, a: nat, lo: nat, hi: nat, hi': nat)
    requires Doubled(mem, at, a, lo, hi) && hi <= hi'
    ensures Doubled(mem, at, a, lo, hi')
  {
    hide SameByte;
    var b: nat :| lo <= b < hi && b != a && SameByte(mem, at, a, b);
    assert lo <= b < hi';
  }

  lemma {:induction false} HitThenDoubled(mem: Memory, at: Space, a: nat, cur: nat, n: nat, va: nat)
    requires Hit(mem, at, a, cur, n) && cur % PAGE_SIZE + n <= PAGE_SIZE && cur + n <= USERTOP && va <= cur
             && !(cur <= a < cur + n)
    ensures Doubled(mem, at, a, va, cur + n)
  {
    HitDoubles(mem, at, a, cur, n);
    hide SameByte, Hit;
    var b := cur + (a % PAGE_SIZE - cur % PAGE_SIZE);
    assert va <= b < cur + n && b != a && SameByte(mem, at, a, b);
  }

  /** One address of the old part of the range, or of memory outside it, when the next piece is copied. */
  lemma {:induction false} ByteKept(mem: Memory, at: Space, data: Pages, mem': Memory, at': Space, va: nat, cur: nat,
                                    bytes: seq<byte>, page: nat, a: nat, x: byte)
    requires va <= cur && cur + |bytes| <= USERTOP && cur % PAGE_SIZE + |bytes| <= PAGE_SIZE
             && !(cur <= a < cur + |bytes|)
    requires MappedAt(mem, at, mem', at', cur, page) && page in data && |data[page]| == PAGE_SIZE
    requires Doubled(mem, at, a, va, cur) || Shows(mem, at, data, a, x)
    ensures Doubled(mem', at', a, va, cur + |bytes|)
            || Shows(mem', at', data[page := Patch(data[page], cur % PAGE_SIZE, bytes)], a, x)
  {
    hide Translate, Shows, Vpn, Doubled, Hit, Patch;
    if Doubled(mem, at, a, va, cur) {
      MovedBytes(mem, at, mem', at', cur, page, a, va, cur);
      DoubledMore(mem', at', a, va, cur, cur + |bytes|);
    } else {
      MovedShows(mem, at, mem', at', data, cur, page, a, x);
      PatchShows(mem', at', data, cur, bytes, a, x);
      if Hit(mem', at', a, cur, |bytes|) { HitThenDoubled(mem', at', a, cur, |bytes|, va); }
    }
  }

  lemma {:induction false} WrittenStep(m0: Memory, a0: Space, d0: Pages, mem: Memory, at: Space, data: Pages,
                                       mem': Memory, at': Space, va: nat, src: seq<byte>, k: nat, n: nat, page: nat)
    requires k + n <= |src| && va + |src| <= USERTOP && n > 0 && (va + k) % PAGE_SIZE + n <= PAGE_SIZE
    requires Written(m0, a0, d0, mem, at, data, va, src[..k]) && MappedAt(mem, at, mem', at', va + k, page)
    requires page in data && |data[page]| == PAGE_SIZE
    ensures Written(m0, a0, d0, mem', at', data[page := Patch(data[page], (va + k) % PAGE_SIZE, src[k..k + n])], va,
            src[..k + n])
  {
    hide Translate, Shows, Vpn, Doubled, Hit, Patch;
    var cur, bytes := va + k, src[k..k + n];
    var data', now := data[page := Patch(data[page], cur % PAGE_SIZE, bytes)], src[..k + n];
    forall a: nat | va <= a < va + |now|
      ensures Translate(mem', at', a).Valid?
              && (Doubled(mem', at', a, va, va + |now|) || ShowsFrom(mem', at', data', a, now, va))
    {
      if a < cur {
        assert now[a - va] == src[..k][a - va];
        assert Translate(mem', at', a) == Translate(mem, at, a);
        ByteKept(mem, at, data, mem', at', va, cur, bytes, page, a, now[a - va]);
      } else {
        HitItself(mem', at', a, cur, n);
        PatchShows(mem', at', data, cur, bytes, a, now[a - va]);
      }
    }
    forall a: nat, x: byte | a < USERTOP && !(va <= a < va + |now|) && Shows(m0, a0, d0, a, x)
      ensures Doubled(mem', at', a, va, va + |now|) || Shows(mem', at', data', a, x)
    {
      assert Doubled(mem, at, a, va, va + |src[..k]|) || Shows(mem, at, data, a, x);
      ByteKept(mem, at, data, mem', at', va, cur, bytes, page, a, x);
    }
    forall a: nat | Translate(m0, a0, a).Valid? ensures Translate(mem', at', a) == Translate(m0, a0, a) {
      assert Translate(mem, at, a) == Translate(m0, a0, a);
    }
    forall a: nat | !Translate(m0, a0, a).Valid? && Translate(mem', at', a).Valid?
      ensures Translate(mem', at', a).flags == PTE_USER_DATA && Touched(a, va, va + |now|)
    {
      NewlyMapped(m0, a0, d0, mem, at, data, mem', at', va, src[..k], n, page, a);
    }
  }

  lemma {:induction false} NewlyMapped(m0: Memory, a0: Space, d0: Pages, mem: Memory, at: Space, data: Pages,
                                       mem': Memory, at': Space, va: nat, src: seq<byte>, n: nat, page: nat, a: nat)
    requires Written(m0, a0, d0, mem, at, data, va, src) && MappedAt(mem, at, mem', at', va + |src|, page) && n > 0
    requires !Translate(m0, a0, a).Valid? && Translate(mem', at', a).Valid?
    ensures Translate(mem', at', a).flags == PTE_USER_DATA && Touched(a, va, va + |src| + n)
  {
    hide Translate, Shows, Vpn, Doubled;
    var cur := va + |src|;
    if Translate(mem, at, a).Valid? {
      var b: nat :| va <= b < cur && Vpn(b) == Vpn(a);
    } else {
      SameZero(mem', at', cur, a);
      SameZero(mem, at, cur, a);
      assert va <= cur < va + |src| + n && Vpn(cur) == Vpn(a);
    }
  }

  // ----- making sure a page is there -----

  lemma {:induction false} GrowSpace(mem: Memory, at: Space, data: Pages, pool: seq<nat>, mem': Memory, at': Space,
                                     pool': seq<nat>)
    requires SpaceOk(mem, at, data, pool) && Extends(mem, at, pool, mem', at', pool')
    ensures SpaceOk(mem', at', data, pool')
  {
    ParentFrame(mem, map[], at, pool, mem', at', pool');
    SameLeaves(mem, mem', map[], map[]);
    SameLeaves(mem, mem', at, at');
    hide TreeOk, Leaf, Ready, Translate;
    forall n | n in pool' ensures n in pool {}
    forall n | n in at'.Values ensures n in at.Values || n in pool { var p :| p in at' && at'[p] == n; }
  }

  /** A page of the pool is entered for va. */
  lemma {:induction false} MapSpace(mem: Memory, at: Space, data: Pages, pool: seq<nat>, va: nat)
    requires SpaceOk(mem, at, data, pool) && pool != [] && Reaches(mem, at, va) && Translate(mem, at, va) == Zero
    ensures SpaceOk(Stored(mem, at, va, Valid(pool[0], PTE_USER_DATA)), at, data, pool[1..])
    ensures MappedAt(mem, at, Stored(mem, at, va, Valid(pool[0], PTE_USER_DATA)), at, va, pool[0])
    ensures pool[0] in data && |data[pool[0]]| == PAGE_SIZE
  {
    var np := pool[0];
    assert np in pool;
    var mem' := Stored(mem, at, va, Valid(np, PTE_USER_DATA));
    PopApart(mem, map[], at, data, pool, data[np]);
    assert data[np := data[np]] == data;
    StoreApart(mem, map[], at, data, pool[1..], va, np, PTE_USER_DATA);
    assert TreeOk(mem, at);
    forall n: nat ensures Leaf(mem', at, n) <==> n == np || Leaf(mem, at, n) {
      LeafStored(mem, at, va, np, PTE_USER_DATA, n);
    }
    forall a: nat
      ensures Translate(mem', at, a) == Translate(mem, at, a) || (Vpn(a) == Vpn(va) && Translate(mem, at, a) == Zero)
    {
      StoreTranslate(mem, at, va, Valid(np, PTE_USER_DATA), a);
      SameZero(mem, at, va, a);
    }
    StoreTranslate(mem, at, va, Valid(np, PTE_USER_DATA), va);
    forall n | n in pool[1..] ensures n in pool {}
    hide TreeOk, Leaf, Apart, Translate, Stored;
  }

  lemma {:induction false} PagePresent(mem: Memory, at: Space, data: Pages, pool: seq<nat>, va: nat)
    requires SpaceOk(mem, at, data, pool) && Translate(mem, at, va).Valid?
    ensures Translate(mem, at, va).page in data && |data[Translate(mem, at, va).page]| == PAGE_SIZE
  {
    hide Apart, Translate;
    assert Leaf(mem, at, Translate(mem, at, va).page);
  }

  /** `get_pte` and, if the entry is not valid, a new page for it; it fails only when the pool is empty. */
  method EnsurePage(fr: Frames, pd: Pgdir, va: nat) returns (ok: bool, page: nat)
    requires SpaceOk(fr.tables, pd.at, fr.data, fr.pool) && RootOk(pd.pt, pd.at)
    modifies fr`tables, fr`pool, pd
    ensures SpaceOk(fr.tables, pd.at, fr.data, fr.pool) && RootOk(pd.pt, pd.at)
    ensures !ok ==> fr.pool == []
    ensures ok ==>
            MappedAt(old(fr.tables), old(pd.at), fr.tables, pd.at, va, page) && page in fr.data
            && |fr.data[page]| == PAGE_SIZE
  {
    assert Ready(fr.tables, pd.at, fr.pool);
    hide SpaceOk, Translate, Extends, Reaches, TreeOk, Stored, Ready;
    ghost var m0, a0, p0 := fr.tables, pd.at, fr.pool;
    var tab, i;
    page := 0;
    ok, tab, i := fr.GetPte(pd, va, true);
    GrowSpace(m0, a0, fr.data, p0, fr.tables, pd.at, fr.pool);
    if !ok { return; }
    Unmoved(m0, a0, p0, fr.tables, pd.at, fr.pool, va);
    ghost var m1 := fr.tables;
    StoredIs(m1, pd.at, va, Valid(0, 0), tab, i);
    var e := fr.tables[tab][i];
    if e.Valid? {
      PagePresent(fr.tables, pd.at, fr.data, fr.pool, va);
      page := e.page;
      Already(m0, a0, m1, pd.at, va);
    } else {
      if fr.pool == [] { return false, 0; }
      page := fr.pool[0];
      MapSpace(m1, pd.at, fr.data, fr.pool, va);
      StoredIs(m1, pd.at, va, Valid(page, PTE_USER_DATA), tab, i);
      fr.pool := fr.pool[1..];
      fr.tables := fr.tables[tab := fr.tables[tab][i := Valid(page, PTE_USER_DATA)]];
      MovedTwice(m0, a0, m1, pd.at, fr.tables, va, page);
    }
  }

  lemma {:induction false} Unmoved(m0: Memory, a0: Space, p0: seq<nat>, mem: Memory, at: Space, pool: seq<nat>, va: nat)
    requires Extends(m0, a0, p0, mem, at, pool) && Path3(va) in at
    ensures Reaches(mem, at, va) && Translate(mem, at, va) == mem[at[Path3(va)]][Part(va, 3)]
            && (forall a: nat :: Translate(mem, at, a) == Translate(m0, a0, a))
  {
    hide Translate;
    ReachesIt(mem, at, va);
  }

  lemma {:induction false} Already(m0: Memory, a0: Space, mem: Memory, at: Space, va: nat)
    requires Translate(mem, at, va).Valid? && forall a: nat :: Translate(mem, at, a) == Translate(m0, a0, a)
    ensures MappedAt(m0, a0, mem, at, va, Translate(mem, at, va).page)
  {
  }

  lemma {:induction false} MovedTwice(m0: Memory, a0: Space, m1: Memory, a1: Space, m2: Memory, va: nat, page: nat)
    requires (forall a: nat :: Translate(m1, a1, a) == Translate(m0, a0, a)) && MappedAt(m1, a1, m2, a1, va, page)
    ensures MappedAt(m0, a0, m2, a1, va, page)
  {
    hide Translate;
  }

  /** Writing into a page of the space does not change which pages it has. */
  lemma {:induction false} PatchSpace(mem: Memory, at: Space, data: Pages, pool: seq<nat>, page: nat, c: seq<byte>)
    requires SpaceOk(mem, at, data, pool) && |c| == PAGE_SIZE
    ensures SpaceOk(mem, at, data[page := c], pool)
  {
    hide TreeOk, Ready;
    forall n ensures !Leaf(mem, map[], n) {}
    hide Leaf;
  }

  /**
    `copyout` of bytes: exactly the range, with whatever else is mapped to its physical bytes, shows
    them afterwards, and mapped memory elsewhere is unchanged.  -1 when the range leaves user space,
    with nothing done, and when the pool runs dry.
   */
  method CopyOut(fr: Frames, pd: Pgdir, va: nat, src: seq<byte>) returns (r: int)
    requires SpaceOk(fr.tables, pd.at, fr.data, fr.pool) && RootOk(pd.pt, pd.at)
    modifies fr`tables, fr`pool, fr`data, pd
    ensures r == 0 || r == -1
    ensures va + |src| > USERTOP ==>
            r == -1 && fr.tables == old(fr.tables) && fr.data == old(fr.data) && pd.at == old(pd.at)
    ensures va + |src| <= USERTOP && r == -1 ==> fr.pool == []
    ensures SpaceOk(fr.tables, pd.at, fr.data, fr.pool) && RootOk(pd.pt, pd.at)
    ensures r == 0 ==> Written(old(fr.tables), old(pd.at), old(fr.data), fr.tables, pd.at, fr.data, va, src)
  {
    hide SpaceOk, Translate, Written, Shows, Vpn, MappedAt;
    if va + |src| > USERTOP { return -1; }
    ghost var m0, a0, d0 := fr.tables, pd.at, fr.data;
    WrittenNone(m0, a0, d0, va);
    var k := 0;
    assert src[..0] == [];
    while k < |src|
      invariant k <= |src| && SpaceOk(fr.tables, pd.at, fr.data, fr.pool) && RootOk(pd.pt, pd.at)
      invariant Written(m0, a0, d0, fr.tables, pd.at, fr.data, va, src[..k])
    {
      var off := (va + k) % PAGE_SIZE;
      ghost var m1, a1 := fr.tables, pd.at;
      var ok, page := EnsurePage(fr, pd, va + k);
      if !ok { return -1; }
      var n := Min(|src| - k, PAGE_SIZE - off);
      WrittenStep(m0, a0, d0, m1, a1, fr.data, fr.tables, pd.at, va, src, k, n, page);
      PatchSpace(fr.tables, pd.at, fr.data, fr.pool, page, Patch(fr.data[page], off, src[k..k + n]));
      fr.data := fr.data[page := Patch(fr.data[page], off, src[k..k + n])];
      k := k + n;
    }
    assert src[..k] == src;
    r := 0;
  }
}
