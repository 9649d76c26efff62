/**
  The four-level page tables of `src/kernel/pt.c`, 512 entries a level, seen as a flat map from
  virtual pages to entries.
 */
module PageTable {
  import opened Lists
  import opened LogHeaders

  const N := 512                 // N_PTE_PER_TABLE
  const PTE_TABLE := 3           // PTE_VALID, and not a block
  const VPAGES := 0x10_0000_0000 // 2^36 virtual pages

  /** What a walk tells apart: no entry, or a page with its flags. */
  datatype Entry = Zero | Valid(page: nat, flags: nat)

  type Path = seq<nat>
  type Memory = map<nat, seq<Entry>>

  // ----- addresses -----

  /** VA_PART0 .. VA_PART3 */
  function Part(va: nat, level: nat): (r: nat)
    requires level < 4
    ensures r < N
  {
    if level == 0 then va / 0x80_0000_0000 % N
    else if level == 1 then va / 0x4000_0000 % N
    else if level == 2 then va / 0x20_0000 % N
    else va / 0x1000 % N
  }

  /** Bits 12 .. 47. */
  function Vpn(va: nat): (r: nat)
    ensures r < VPAGES
  {
    va / 0x1000 % VPAGES
  }

  function Join(i0: nat, i1: nat, i2: nat, i3: nat): nat {
    ((i0 * N + i1) * N + i2) * N + i3
  }

  lemma {:induction false} Shift1(va: nat)
    ensures va / 0x20_0000 == va / 0x1000 / N
  {
    var q, r := va / 0x20_0000, va % 0x20_0000;
    assert va == 0x20_0000 * q + r && va / 0x1000 == N * q + r / 0x1000;
  }

  lemma {:induction false} Shift2(va: nat)
    ensures va / 0x4000_0000 == va / 0x20_0000 / N
  {
    var q, r := va / 0x4000_0000, va % 0x4000_0000;
    assert va == 0x4000_0000 * q + r && va / 0x20_0000 == N * q + r / 0x20_0000;
  }

  lemma {:induction false} Shift3(va: nat)
    ensures va / 0x80_0000_0000 == va / 0x4000_0000 / N
  {
    var q, r := va / 0x80_0000_0000, va % 0x80_0000_0000;
    assert va == 0x80_0000_0000 * q + r && va / 0x4000_0000 == N * q + r / 0x4000_0000;
  }

  /** The four indices are the digits of the virtual page number. */
  lemma {:induction false} VpnJoin(va: nat)
    ensures Vpn(va) == Join(Part(va, 0), Part(va, 1), Part(va, 2), Part(va, 3))
  {
    Shift1(va);
    Shift2(va);
    Shift3(va);
    var a0, a1, a2, a3 := va / 0x1000, va / 0x20_0000, va / 0x4000_0000, va / 0x80_0000_0000;
    Combine(a0, a1, a2, a3);
  }

  lemma {:induction false} Combine(a0: nat, a1: nat, a2: nat, a3: nat)
    requires a1 == a0 / N && a2 == a1 / N && a3 == a2 / N
    ensures a0 % VPAGES == Join(a3 % N, a2 % N, a1 % N, a0 % N)
  {
    var a4 := a3 / N;
    assert a3 == N * a4 + a3 % N && a2 == N * a3 + a2 % N && a1 == N * a2 + a1 % N && a0 == N * a1 + a0 % N;
    assert a0 == VPAGES * a4 + Join(a3 % N, a2 % N, a1 % N, a0 % N);
  }

  lemma {:induction false} JoinUnique(i0: nat, i1: nat, i2: nat, i3: nat, j0: nat, j1: nat, j2: nat, j3: nat)
    requires i0 < N && i1 < N && i2 < N && i3 < N && j0 < N && j1 < N && j2 < N && j3 < N
    requires Join(i0, i1, i2, i3) == Join(j0, j1, j2, j3)
    ensures i0 == j0 && i1 == j1 && i2 == j2 && i3 == j3
  {
  }

  function Path3(va: nat): Path {
    [Part(va, 0), Part(va, 1), Part(va, 2)]
  }

  /** Two addresses walk to the same slot if and only if bits 12 to 47 agree. */
  lemma {:induction false} SameSlot(a: nat, b: nat)
    ensures Path3(a) == Path3(b) && Part(a, 3) == Part(b, 3) <==> Vpn(a) == Vpn(b)
  {
    VpnJoin(a);
    VpnJoin(b);
    if Vpn(a) == Vpn(b) {
      JoinUnique(Part(a, 0), Part(a, 1), Part(a, 2), Part(a, 3), Part(b, 0), Part(b, 1), Part(b, 2), Part(b, 3));
    }
    if Path3(a) == Path3(b) {
      assert Path3(a)[0] == Path3(b)[0] && Path3(a)[1] == Path3(b)[1] && Path3(a)[2] == Path3(b)[2];
    }
  }

  // ----- tables as a tree of pages -----

  function Child(p: Path, i: nat): Path {
    p + [i]
  }

  /** Which page holds the table at each path; no page holds two. */
  ghost predicate TableAt(mem: Memory, at: map<Path, nat>, p: Path)
    requires p in at
  {
    && |p| <= 3 && at[p] in mem && |mem[at[p]]| == N
    && (p != [] ==> p[..|p| - 1] in at && p[|p| - 1] < N && Linked(mem, at, p[..|p| - 1], p[|p| - 1], p))
    && (|p| < 3 ==> forall i: nat | i < N && mem[at[p]][i].Valid? :: Child(p, i) in at)
  }

  ghost predicate Linked(mem: Memory, at: map<Path, nat>, p: Path, i: nat, c: Path) {
    p in at && c in at && at[p] in mem && i < |mem[at[p]]| && mem[at[p]][i] == Valid(at[c], PTE_TABLE)
  }

  ghost predicate TreeOk(mem: Memory, at: map<Path, nat>) {
    && (forall p {:trigger TableAt(mem, at, p)} | p in at :: TableAt(mem, at, p))
    && (forall p, q | p in at && q in at && at[p] == at[q] :: p == q)
    && (at != map[] ==> [] in at)
  }

  function ZeroTable(): (t: seq<Entry>)
    ensures |t| == N && forall i: nat | i < N :: t[i] == Zero
  {
    seq(N, i => Zero)
  }

  /** The entry an address translates to. */
  ghost function Translate(mem: Memory, at: map<Path, nat>, va: nat): Entry {
    var p := Path3(va);
    if p in at && at[p] in mem && Part(va, 3) < |mem[at[p]]| then mem[at[p]][Part(va, 3)] else Zero
  }

  // ----- one more table -----

  /** A fresh page n becomes the table at Child(p, i). */
  function Grown(mem: Memory, at: map<Path, nat>, p: Path, i: nat, n: nat): Memory
    requires p in at && at[p] in mem && i < |mem[at[p]]|
  {
    mem[n := ZeroTable()][at[p] := mem[at[p]][i := Valid(n, PTE_TABLE)]]
  }

  lemma {:induction false} ChildPrefix(p: Path, i: nat)
    ensures Child(p, i) != [] && Child(p, i)[..|p|] == p && Child(p, i)[|p|] == i && |Child(p, i)| == |p| + 1
  {
  }

  lemma {:induction false} GrowAt(mem: Memory, at: map<Path, nat>, p: Path, i: nat, n: nat, q: Path)
    requires TreeOk(mem, at) && p in at && |p| < 3 && i < N && at[p] in mem && |mem[at[p]]| == N
             && !mem[at[p]][i].Valid? && n !in at.Values && Child(p, i) !in at
    requires q in at
    ensures TableAt(Grown(mem, at, p, i, n), at[Child(p, i) := n], q)
  {
    var c := Child(p, i);
    var mem', at' := Grown(mem, at, p, i, n), at[c := n];
    assert TableAt(mem, at, q);
    ChildPrefix(p, i);
    assert at[p] in at.Values && at[q] in at.Values;
    if q != [] {
      var u := q[..|q| - 1];
      assert Linked(mem, at, u, q[|q| - 1], q) && at[u] in at.Values;
      assert Linked(mem', at', u, q[|q| - 1], q);
    }
    if |q| < 3 {
      forall j: nat | j < N && mem'[at'[q]][j].Valid? ensures Child(q, j) in at' {}
    }
  }

  lemma {:induction false} GrowKeeps(mem: Memory, at: map<Path, nat>, p: Path, i: nat, n: nat)
    requires TreeOk(mem, at) && p in at && |p| < 3 && i < N && at[p] in mem && |mem[at[p]]| == N
             && !mem[at[p]][i].Valid? && n !in at.Values
    ensures Child(p, i) !in at && TreeOk(Grown(mem, at, p, i, n), at[Child(p, i) := n])
    ensures forall va: nat ::
            Translate(Grown(mem, at, p, i, n), at[Child(p, i) := n], va) == Translate(mem, at, va)
  {
    var c := Child(p, i);
    ChildPrefix(p, i);
    assert c in at ==> TableAt(mem, at, c);
    var mem', at' := Grown(mem, at, p, i, n), at[c := n];
    forall q | q in at' ensures TableAt(mem', at', q) {
      if q == c {
        assert at[p] in at.Values;
        assert Linked(mem', at', p, i, c);
      } else {
        GrowAt(mem, at, p, i, n, q);
      }
    }
    forall q, r | q in at' && r in at' && at'[q] == at'[r] ensures q == r {
      if q in at { assert at[q] in at.Values; }
      if r in at { assert at[r] in at.Values; }
    }
    forall va: nat ensures Translate(mem', at', va) == Translate(mem, at, va) {
      GrowTranslate(mem, at, p, i, n, va);
    }
  }

  lemma {:induction false} GrowTranslate(mem: Memory, at: map<Path, nat>, p: Path, i: nat, n: nat, va: nat)
    requires TreeOk(mem, at) && p in at && |p| < 3 && i < N && at[p] in mem && |mem[at[p]]| == N && n !in at.Values
             && Child(p, i) !in at
    ensures Translate(Grown(mem, at, p, i, n), at[Child(p, i) := n], va) == Translate(mem, at, va)
  {
    var q := Path3(va);
    if q in at {
      assert TableAt(mem, at, q) && at[q] in at.Values && at[p] in at.Values;
      assert at[q] != at[p];
    }
  }

  // ----- what growing does -----

  ghost predicate Ready(mem: Memory, at: map<Path, nat>, pool: seq<nat>) {
    && TreeOk(mem, at) && Distinct(pool)
    && (forall n | n in pool :: n > 0 && n !in at.Values)
  }

  /** Tables may have been added from the pool; no address translates differently and no other page has changed. */
  ghost predicate Extends(mem: Memory, at: map<Path, nat>, pool: seq<nat>, mem': Memory, at': map<Path, nat>,
                          pool': seq<nat>)
  {
    && Ready(mem', at', pool')
    && |pool'| <= |pool| && pool' == pool[|pool| - |pool'|..]
    && (forall p | p in at :: p in at' && at'[p] == at[p])
    && (forall p | p in at' :: at'[p] in at.Values || at'[p] in pool)
    && (forall va: nat :: Translate(mem', at', va) == Translate(mem, at, va))
    && (forall n | n in mem && n !in at.Values && n !in pool :: n in mem' && mem'[n] == mem[n])
  }

  lemma {:induction false} ExtendsSame(mem: Memory, at: map<Path, nat>, pool: seq<nat>)
    requires Ready(mem, at, pool)
    ensures Extends(mem, at, pool, mem, at, pool)
  {
    assert pool[0..] == pool;
    forall p | p in at ensures at[p] in at.Values {}
  }

  lemma {:induction false} ExtendsTrans(m0: Memory, a0: map<Path, nat>, p0: seq<nat>, m1: Memory, a1: map<Path, nat>,
                                        p1: seq<nat>, m2: Memory, a2: map<Path, nat>, p2: seq<nat>)
    requires Extends(m0, a0, p0, m1, a1, p1) && Extends(m1, a1, p1, m2, a2, p2)
    ensures Extends(m0, a0, p0, m2, a2, p2)
  {
    hide Ready, Translate;
    forall n | n in p1 ensures n in p0 {}
    forall n | n in a1.Values ensures n in a0.Values || n in p0 {
      var p :| p in a1 && a1[p] == n;
    }
    forall p | p in a2 ensures a2[p] in a0.Values || a2[p] in p0 {}
    assert p2 == p0[|p0| - |p2|..];
    forall n | n in m0 && n !in a0.Values && n !in p0 ensures n in m2 && m2[n] == m0[n] {
      assert n in m1 && n !in a1.Values && n !in p1;
    }
  }

  lemma {:induction false} GrowExtends(mem: Memory, at: map<Path, nat>, pool: seq<nat>, p: Path, i: nat)
    requires Ready(mem, at, pool) && pool != [] && p in at && |p| < 3 && i < N
    requires at[p] in mem && |mem[at[p]]| == N && !mem[at[p]][i].Valid?
    ensures Extends(mem, at, pool, Grown(mem, at, p, i, pool[0]), at[Child(p, i) := pool[0]], pool[1..])
  {
    var n := pool[0];
    assert n in pool;
    GrowKeeps(mem, at, p, i, n);
    TailDistinct(pool);
    var mem', at' := Grown(mem, at, p, i, n), at[Child(p, i) := n];
    hide TreeOk, Translate;
    forall q | q in at ensures at[q] in at.Values {}
    forall m | m in pool[1..] ensures m > 0 && m !in at'.Values {
      assert m in pool;
    }
  }

  /** The very first table. */
  lemma {:induction false} RootExtends(mem: Memory, pool: seq<nat>)
    requires Ready(mem, map[], pool) && pool != []
    ensures Extends(mem, map[], pool, mem[pool[0] := ZeroTable()], map[[] := pool[0]], pool[1..])
  {
    var n := pool[0];
    assert n in pool;
    TailDistinct(pool);
    var mem', at': map<Path, nat> := mem[n := ZeroTable()], map[[] := n];
    assert TableAt(mem', at', []);
    forall va: nat ensures Translate(mem', at', va) == Translate(mem, map[], va) { assert Path3(va) != []; }
    forall m | m in pool[1..] ensures m > 0 && m !in at'.Values { assert m in pool; }
  }

  /** `struct pgdir`; pt is 0 for NULL. */
  class Pgdir {
    var pt: nat
    ghost var at: map<Path, nat>

    constructor ()
      ensures pt == 0 && at == map[]
    {
      pt, at := 0, map[];
    }
  }

  ghost predicate RootOk(pt: nat, at: map<Path, nat>) {
    if pt == 0 then at == map[] else [] in at && at[[]] == pt
  }

  class Frames {
    var tables: Memory
    var data: map<nat, seq<byte>>      // pages that are not tables
    var pool: seq<nat>

    /**
      One level of `get_pte`: the table below entry i of the table at path p.  The state before the
      whole walk is m0, a0 and p0.
     */
    method Level(pd: Pgdir, ghost m0: Memory, ghost a0: map<Path, nat>, ghost p0: seq<nat>, ghost p: Path, page: nat,
                 i: nat, alloc: bool)
      returns (ok: bool, next: nat)
      requires Extends(m0, a0, p0, tables, pd.at, pool) && p in pd.at && |p| < 3 && i < N && page == pd.at[p]
      modifies `tables, `pool, pd`at
      ensures Extends(m0, a0, p0, tables, pd.at, pool) && [] in pd.at && pd.at[[]] == old(pd.at)[[]]
      ensures |pool| >= |old(pool)| - 1
      ensures !ok ==> Child(p, i) !in a0 && (alloc ==> pool == [])
      ensures ok ==> Child(p, i) in pd.at && next == pd.at[Child(p, i)]
      ensures !alloc ==> tables == old(tables) && pd.at == old(pd.at) && pool == old(pool)
    {
      hide Extends, Translate;
      StillReady(m0, a0, p0, tables, pd.at, pool);
      assert TableAt(tables, pd.at, p) && [] in pd.at;
      ChildLinked(tables, pd.at, p, i);
      if !tables[page][i].Valid? {
        if !alloc || pool == [] { return false, 0; }
        GrowExtends(tables, pd.at, pool, p, i);
        ghost var m1, a1, p1 := tables, pd.at, pool;
        var made := pool[0];
        ghost var at' := pd.at[Child(p, i) := made];
        pool := pool[1..];
        tables := tables[made := ZeroTable()];
        tables := tables[page := tables[page][i := Valid(made, PTE_TABLE)]];
        pd.at := at';
        assert made in p1 && page in a1.Values;
        assert tables == Grown(m1, a1, p, i, made);
        ExtendsTrans(m0, a0, p0, m1, a1, p1, tables, pd.at, pool);
      }
      ok, next := true, tables[page][i].page;
    }

    /** The root of `get_pte`: allocated on first use. */
    method Root(pd: Pgdir, alloc: bool) returns (ok: bool)
      requires Ready(tables, pd.at, pool) && RootOk(pd.pt, pd.at)
      modifies `tables, `pool, pd
      ensures Extends(old(tables), old(pd.at), old(pool), tables, pd.at, pool) && RootOk(pd.pt, pd.at)
      ensures !ok ==> old(pd.at) == map[] && (alloc ==> pool == [])
      ensures (ok ==> pd.pt != 0) && |pool| >= |old(pool)| - 1
      ensures !alloc ==> tables == old(tables) && pd.at == old(pd.at) && pool == old(pool) && pd.pt == old(pd.pt)
    {
      hide Extends, Translate;
      ExtendsSame(tables, pd.at, pool);
      if pd.pt == 0 {
        if !alloc || pool == [] { return false; }
        RootExtends(tables, pool);
        var made := pool[0];
        assert made in pool;
        pool := pool[1..];
        tables := tables[made := ZeroTable()];
        pd.pt, pd.at := made, map[[] := made];
      }
      ok := true;
    }

    /**
      `get_pte`: the slot of the address.  With `alloc` the missing tables are made, as long as the
      pool lasts; whether made or found, no address translates differently.
     */
    method GetPte(pd: Pgdir, va: nat, alloc: bool) returns (ok: bool, page: nat, i: nat)
      requires Ready(tables, pd.at, pool) && RootOk(pd.pt, pd.at)
      modifies `tables, `pool, pd
      ensures Extends(old(tables), old(pd.at), old(pool), tables, pd.at, pool) && RootOk(pd.pt, pd.at)
      ensures |pool| >= |old(pool)| - 4
      ensures !ok ==> Path3(va) !in old(pd.at) && (alloc ==> pool == [])
      ensures ok ==> Path3(va) in pd.at && page == pd.at[Path3(va)] && i == Part(va, 3)
      ensures !alloc ==> tables == old(tables) && pd.at == old(pd.at) && pool == old(pool) && pd.pt == old(pd.pt)
    {
      ghost var m0, a0, p0 := tables, pd.at, pool;
      ghost var c1: Path, c2: Path := Child([], Part(va, 0)), Child(Child([], Part(va, 0)), Part(va, 1));
      PathsDown(tables, pd.at, va);
      hide Extends, Translate, TreeOk, Child, Path3, Part, Ready;
      page, i := 0, 0;
      ok := Root(pd, alloc);
      if !ok { return; }
      page := pd.pt;
      ok, page := Level(pd, m0, a0, p0, [], page, Part(va, 0), alloc);
      if !ok { return; }
      ok, page := Level(pd, m0, a0, p0, c1, page, Part(va, 1), alloc);
      if !ok { return; }
      ok, page := Level(pd, m0, a0, p0, c2, page, Part(va, 2), alloc);
      i := Part(va, 3);
    }
  }

  /** The three paths down to a leaf table. */
  lemma {:induction false} PathsDown(mem: Memory, at: map<Path, nat>, va: nat)
    requires TreeOk(mem, at)
    ensures Child(Child(Child([], Part(va, 0)), Part(va, 1)), Part(va, 2)) == Path3(va)
    ensures |Child([], Part(va, 0))| == 1 && |Child(Child([], Part(va, 0)), Part(va, 1))| == 2
    ensures Path3(va) in at ==>
            Child(Child([], Part(va, 0)), Part(va, 1)) in at && Child([], Part(va, 0)) in at && [] in at
  {
    var a, b, c := Part(va, 0), Part(va, 1), Part(va, 2);
    var p1 := Child([], a);
    var p2 := Child(p1, b);
    ChildPrefix([], a);
    ChildPrefix(p1, b);
    ChildPrefix(p2, c);
    var p3 := Path3(va);
    assert p3 == Child(p2, c);
    if p3 in at {
      assert TableAt(mem, at, p3) && p3[..|p3| - 1] == p2;
      assert TableAt(mem, at, p2) && p2[..|p2| - 1] == p1;
      assert TableAt(mem, at, p1) && p1[..|p1| - 1] == [];
    }
  }

  lemma {:induction false} StillReady(m0: Memory, a0: map<Path, nat>, p0: seq<nat>, m1: Memory, a1: map<Path, nat>,
                                      p1: seq<nat>)
    requires Extends(m0, a0, p0, m1, a1, p1)
    ensures Ready(m1, a1, p1) && (forall p | p in a0 :: p in a1 && a1[p] == a0[p]) && |p1| <= |p0|
  {
  }

  // ----- writing one entry -----

  ghost predicate Reaches(mem: Memory, at: map<Path, nat>, va: nat) {
    Path3(va) in at && at[Path3(va)] in mem && |mem[at[Path3(va)]]| == N
  }

  ghost function Stored(mem: Memory, at: map<Path, nat>, va: nat, e: Entry): Memory
    requires Reaches(mem, at, va)
  {
    mem[at[Path3(va)] := mem[at[Path3(va)]][Part(va, 3) := e]]
  }

  lemma {:induction false} StoreTree(mem: Memory, at: map<Path, nat>, va: nat, e: Entry)
    requires TreeOk(mem, at) && Reaches(mem, at, va)
    ensures TreeOk(Stored(mem, at, va, e), at)
  {
    var mem' := Stored(mem, at, va, e);
    forall q | q in at ensures TableAt(mem', at, q) {
      assert TableAt(mem, at, q);
      if q != [] {
        var u := q[..|q| - 1];
        assert u in at && at[u] != at[Path3(va)];
        assert Linked(mem', at, u, q[|q| - 1], q);
      }
    }
  }

  /** Exactly the addresses of that page translate differently. */
  lemma {:induction false} StoreTranslate(mem: Memory, at: map<Path, nat>, va: nat, e: Entry, a: nat)
    requires TreeOk(mem, at) && Reaches(mem, at, va)
    ensures Translate(Stored(mem, at, va, e), at, a) == if Vpn(a) == Vpn(va) then e else Translate(mem, at, a)
  {
    SameSlot(a, va);
  }

  /** Pages outside a tree do not matter to it. */
  lemma {:induction false} TreeFrame(mem: Memory, mem': Memory, at: map<Path, nat>)
    requires TreeOk(mem, at) && forall n | n in at.Values :: n in mem && n in mem' && mem'[n] == mem[n]
    ensures TreeOk(mem', at) && forall va: nat :: Translate(mem', at, va) == Translate(mem, at, va)
  {
    forall q | q in at ensures TableAt(mem', at, q) {
      assert TableAt(mem, at, q) && at[q] in at.Values;
      if q != [] {
        var u := q[..|q| - 1];
        assert Linked(mem, at, u, q[|q| - 1], q) && at[u] in at.Values;
        assert Linked(mem', at, u, q[|q| - 1], q);
      }
    }
    forall va: nat ensures Translate(mem', at, va) == Translate(mem, at, va) {
      if Path3(va) in at { assert at[Path3(va)] in at.Values; }
    }
  }

  lemma {:induction false} ReachesIt(mem: Memory, at: map<Path, nat>, va: nat)
    requires TreeOk(mem, at) && Path3(va) in at
    ensures Reaches(mem, at, va) && Translate(mem, at, va) == mem[at[Path3(va)]][Part(va, 3)]
  {
    assert TableAt(mem, at, Path3(va));
  }

  lemma {:induction false} ChildLinked(mem: Memory, at: map<Path, nat>, p: Path, i: nat)
    requires TreeOk(mem, at) && p in at && |p| < 3 && i < N
    ensures at[p] in mem && |mem[at[p]]| == N && (mem[at[p]][i].Valid? <==> Child(p, i) in at)
    ensures Child(p, i) in at ==> mem[at[p]][i].page == at[Child(p, i)]
  {
    assert TableAt(mem, at, p);
    ChildPrefix(p, i);
    if Child(p, i) in at { assert TableAt(mem, at, Child(p, i)); }
  }

  // ----- freeing the tables -----

  /** The pages `free_pt_pages` frees, in order. */
  function FreeList(mem: Memory, page: nat, deep: nat): seq<nat>
    decreases 4 - deep, N + 1
  {
    if deep >= 3 || page !in mem then [page] else FreeFrom(mem, page, deep, 0) + [page]
  }

  function FreeFrom(mem: Memory, page: nat, deep: nat, i: nat): seq<nat>
    requires deep < 3 && page in mem && i <= N
    decreases 4 - deep, N - i
  {
    if i == N || i >= |mem[page]| then []
    else
      (if mem[page][i] == Zero then [] else FreeList(mem, mem[page][i].page, deep + 1))
      + FreeFrom(mem, page, deep, i + 1)
  }

  predicate Under(p: Path, q: Path) {
    |p| <= |q| && q[..|p|] == p
  }

  /** n is the table at p or below it. */
  ghost predicate Below(at: map<Path, nat>, p: Path, n: nat) {
    exists q :: q in at && Under(p, q) && at[q] == n
  }

  /** n is a table below entry i of p, or a later entry. */
  ghost predicate BelowFrom(at: map<Path, nat>, p: Path, i: nat, n: nat) {
    exists q :: q in at && Under(p, q) && |q| > |p| && q[|p|] >= i && at[q] == n
  }

  lemma {:induction false} BelowChild(at: map<Path, nat>, p: Path, i: nat, n: nat)
    ensures BelowFrom(at, p, i, n) <==> Below(at, Child(p, i), n) || BelowFrom(at, p, i + 1, n)
  {
    ChildPrefix(p, i);
    var c := Child(p, i);
    if Below(at, c, n) {
      var q :| q in at && Under(c, q) && at[q] == n;
      assert q[..|p|] == c[..|p|] && q[|p|] == c[|p|];
    }
    if BelowFrom(at, p, i, n) {
      var q :| q in at && Under(p, q) && |q| > |p| && q[|p|] >= i && at[q] == n;
      if q[|p|] == i { assert q[..|c|] == c; }
    }
  }

  lemma {:induction false} BelowNone(mem: Memory, at: map<Path, nat>, p: Path, n: nat)
    requires TreeOk(mem, at) && p !in at
    ensures !Below(at, p, n)
  {
    forall q | q in at ensures !Under(p, q) { PrefixIn(mem, at, q, |p|); }
  }

  /** Every prefix of a path in the tree is in the tree. */
  lemma {:induction false} PrefixIn(mem: Memory, at: map<Path, nat>, q: Path, k: nat)
    requires TreeOk(mem, at) && q in at
    ensures k <= |q| ==> q[..k] in at && (k < |q| ==> q[k] < N)
    decreases |q|
  {
    assert TableAt(mem, at, q);
    if k < |q| {
      var u := q[..|q| - 1];
      if k < |u| {
        PrefixIn(mem, at, u, k);
        assert u[..k] == q[..k] && u[k] == q[k];
      } else {
        assert q[..k] == u;
      }
    } else if k == |q| {
      assert q[..k] == q;
    }
  }

  lemma {:induction false} FreeFromIs(mem: Memory, at: map<Path, nat>, p: Path, i: nat)
    requires TreeOk(mem, at) && p in at && |p| < 3 && i <= N
    ensures at[p] in mem
    ensures Distinct(FreeFrom(mem, at[p], |p|, i))
            && forall n: nat :: n in FreeFrom(mem, at[p], |p|, i) <==> BelowFrom(at, p, i, n)
    decreases 4 - |p|, N - i
  {
    assert TableAt(mem, at, p);
    var list := FreeFrom(mem, at[p], |p|, i);
    if i == N {
      forall n: nat ensures !BelowFrom(at, p, i, n) {
        forall q | q in at && Under(p, q) && |q| > |p| ensures q[|p|] < N { PrefixIn(mem, at, q, |p|); }
      }
    } else {
      FreeFromIs(mem, at, p, i + 1);
      var rest := FreeFrom(mem, at[p], |p|, i + 1);
      var c := Child(p, i);
      ChildPrefix(p, i);
      ChildLinked(mem, at, p, i);
      forall n: nat ensures BelowFrom(at, p, i, n) <==> Below(at, c, n) || BelowFrom(at, p, i + 1, n) {
        BelowChild(at, p, i, n);
      }
      if mem[at[p]][i] == Zero {
        forall n: nat ensures !Below(at, c, n) { BelowNone(mem, at, c, n); }
        assert list == [] + rest;
      } else {
        FreeListIs(mem, at, c);
        var sub := FreeList(mem, at[c], |c|);
        assert list == sub + rest;
        forall n: nat | n in sub ensures n !in rest { BelowApart(mem, at, p, i, n); }
        JoinedDistinct(sub, rest);
      }
    }
  }

  lemma {:induction false} BelowApart(mem: Memory, at: map<Path, nat>, p: Path, i: nat, n: nat)
    requires TreeOk(mem, at) && Below(at, Child(p, i), n)
    ensures !BelowFrom(at, p, i + 1, n)
  {
    ChildPrefix(p, i);
    var c := Child(p, i);
    var q :| q in at && Under(c, q) && at[q] == n;
    assert q[|p|] == c[|p|] == i;
  }

  lemma {:induction false} FreeListIs(mem: Memory, at: map<Path, nat>, p: Path)
    requires TreeOk(mem, at) && p in at
    ensures Distinct(FreeList(mem, at[p], |p|)) && forall n: nat :: n in FreeList(mem, at[p], |p|) <==> Below(at, p, n)
    decreases 4 - |p|, N + 1
  {
    assert TableAt(mem, at, p);
    assert Under(p, p);
    if |p| == 3 {
      forall n: nat ensures Below(at, p, n) <==> n == at[p] {
        if Below(at, p, n) {
          var q :| q in at && Under(p, q) && at[q] == n;
          assert TableAt(mem, at, q);
          assert q == p;
        }
      }
    } else {
      FreeFromIs(mem, at, p, 0);
      var list := FreeFrom(mem, at[p], |p|, 0);
      forall n: nat ensures Below(at, p, n) <==> n == at[p] || BelowFrom(at, p, 0, n) {
        if Below(at, p, n) {
          var q :| q in at && Under(p, q) && at[q] == n;
          if |q| == |p| { assert q == p; }
        }
      }
      assert at[p] !in list;
      AddedDistinct(list, at[p]);
    }
  }

  /** `free_pgdir` frees every table page exactly once, and no page that only an entry of a last-level table names. */
  lemma {:induction false} FreesTables(mem: Memory, at: map<Path, nat>)
    requires TreeOk(mem, at) && [] in at
    ensures Distinct(FreeList(mem, at[[]], 0)) && forall n: nat :: n in FreeList(mem, at[[]], 0) <==> n in at.Values
  {
    FreeListIs(mem, at, []);
    forall n: nat ensures Below(at, [], n) <==> n in at.Values {
      if n in at.Values {
        var q :| q in at && at[q] == n;
        assert Under([], q);
      }
    }
  }

  /** Pages pushed one after the other. */
  function Pushed(pool: seq<nat>, pages: seq<nat>): (r: seq<nat>)
    ensures |r| == |pool| + |pages| && forall n :: n in r <==> n in pool || n in pages
    decreases |pages|
  {
    if pages == [] then pool else Pushed([pages[0]] + pool, pages[1..])
  }

  lemma {:induction false} PushedConcat(pool: seq<nat>, a: seq<nat>, b: seq<nat>)
    ensures Pushed(pool, a + b) == Pushed(Pushed(pool, a), b)
    decreases |a|
  {
    if a == [] {
      assert a + b == b;
    } else {
      PushedConcat([a[0]] + pool, a[1..], b);
      assert (a + b)[1..] == a[1..] + b;
    }
  }

  lemma {:induction false} PushedDistinct(pool: seq<nat>, pages: seq<nat>)
    requires Distinct(pool) && Distinct(pages) && forall n | n in pages :: n !in pool
    ensures Distinct(Pushed(pool, pages))
    decreases |pages|
  {
    if pages != [] {
      TailDistinct(pages);
      AddedDistinct(pool, pages[0]);
      PushedDistinct([pages[0]] + pool, pages[1..]);
    }
  }

  /** `free_pt_pages`: entries are cleared as their tables are freed. */
  method FreePtPages(fr: Frames, page: nat, deep: nat)
    requires deep <= 3 && Distinct(FreeList(fr.tables, page, deep))
    modifies fr`pool, fr`tables
    ensures fr.pool == Pushed(old(fr.pool), FreeList(old(fr.tables), page, deep))
    ensures SameOutside(old(fr.tables), fr.tables, FreeList(old(fr.tables), page, deep))
    ensures deep < 3 && page in old(fr.tables) ==> Blank(old(fr.tables)[page], fr.tables[page], N)
    decreases 3 - deep, 1
  {
    hide Pushed, FreeList, FreeFrom, Distinct, Blank, SameOutside;
    ghost var pool, t0 := fr.pool, fr.tables;
    PushedNone(pool);
    FreeListStep(t0, page, deep);
    NothingFreed(t0, page);
    if deep < 3 && page in fr.tables {
      ghost var done: seq<nat> := [];
      var i := 0;
      FreeingStarts(t0, fr.pool, page, deep);
      while i < N && i < |fr.tables[page]|
        invariant i <= N && page in fr.tables && Freeing(t0, pool, fr.tables, fr.pool, page, deep, i, done)
      {
        done := FreeEntry(fr, page, deep, i, t0, pool, done);
        i := i + 1;
      }
      FreeingEnds(t0, pool, fr.tables, fr.pool, page, deep, i, done);
      PushedConcat(pool, done, [page]);
    }
    PushedOne(fr.pool, page);
    fr.pool := [page] + fr.pool;
  }

  /** Where the loop of `free_pt_pages` stands: `done` has been freed, the first i entries are cleared. */
  ghost predicate Freeing(t0: Memory, pool0: seq<nat>, mem: Memory, pool: seq<nat>, page: nat, deep: nat, i: nat,
                          done: seq<nat>)
  {
    && deep < 3 && i <= N && page in t0 && page in mem && Distinct(FreeFrom(t0, page, deep, 0) + [page])
    && pool == Pushed(pool0, done) && FreeFrom(t0, page, deep, 0) == done + FreeFrom(t0, page, deep, i)
    && SameOutside(t0, mem, done + [page]) && Blank(t0[page], mem[page], i)
  }

  lemma {:induction false} NothingFreed(mem: Memory, page: nat)
    ensures SameOutside(mem, mem, [page])
  {
  }

  lemma {:induction false} FreeingStarts(t0: Memory, pool: seq<nat>, page: nat, deep: nat)
    requires deep < 3 && page in t0 && Distinct(FreeFrom(t0, page, deep, 0) + [page])
    ensures Freeing(t0, pool, t0, pool, page, deep, 0, [])
  {
    hide Distinct, FreeFrom;
    assert [] + FreeFrom(t0, page, deep, 0) == FreeFrom(t0, page, deep, 0);
    assert [] + [page] == [page];
  }

  lemma {:induction false} FreeingEnds(t0: Memory, pool0: seq<nat>, mem: Memory, pool: seq<nat>, page: nat, deep: nat,
                                       i: nat, done: seq<nat>)
    requires Freeing(t0, pool0, mem, pool, page, deep, i, done) && (i == N || i >= |mem[page]|)
    ensures pool == Pushed(pool0, done) && FreeFrom(t0, page, deep, 0) == done && SameOutside(t0, mem, done + [page])
            && Blank(t0[page], mem[page], N)
  {
    hide Pushed, SameOutside, Distinct;
    FreeFromEnd(t0, page, deep, i);
    assert done + [] == done;
  }

  /** One round: the table behind entry i, if there is one, and then the entry. */
  method FreeEntry(fr: Frames, page: nat, deep: nat, i: nat, ghost t0: Memory, ghost pool0: seq<nat>,
                   ghost done: seq<nat>) returns (ghost now: seq<nat>)
    requires Freeing(t0, pool0, fr.tables, fr.pool, page, deep, i, done) && i < N && i < |fr.tables[page]|
    modifies fr`pool, fr`tables
    ensures Freeing(t0, pool0, fr.tables, fr.pool, page, deep, i + 1, now)
    decreases 3 - deep, 0
  {
    hide Pushed, FreeList, FreeFrom, Distinct, SameOutside;
    FreeFromCons(t0, page, deep, i);
    now := done;
    if fr.tables[page][i] != Zero {
      ghost var t1, child, rest := fr.tables, t0[page][i].page, FreeFrom(t0, page, deep, i + 1);
      ghost var sub := FreeList(t0, child, deep + 1);
      Parts(done, sub, rest, page);
      SubtreeSame(t0, t1, done, page, child, deep + 1);
      PushedConcat(pool0, done, sub);
      Regroup(done, sub, rest);
      FreePtPages(fr, fr.tables[page][i].page, deep + 1);
      StillThere(t1, fr.tables, sub, page);
      fr.tables := fr.tables[page := fr.tables[page][i := Zero]];
      OutsideMore(t0, t1, fr.tables, done, sub, page);
      now := done + sub;
    }
  }

  lemma {:induction false} SubtreeSame(t0: Memory, t1: Memory, done: seq<nat>, page: nat, child: nat, deep: nat)
    requires SameOutside(t0, t1, done + [page]) && page !in FreeList(t0, child, deep)
             && forall n | n in FreeList(t0, child, deep) :: n !in done
    ensures FreeList(t1, child, deep) == FreeList(t0, child, deep)
  {
    FreeListFrame(t0, t1, child, deep);
  }

  lemma {:induction false} StillThere(t1: Memory, t2: Memory, sub: seq<nat>, page: nat)
    requires SameOutside(t1, t2, sub) && page in t1 && page !in sub
    ensures page in t2 && t2[page] == t1[page] && t2.Keys == t1.Keys
            && forall n | n in t1 && n !in sub :: t2[n] == t1[n]
  {
  }

  /** Pages that are not in the list are as they were. */
  ghost predicate SameOutside(mem: Memory, mem': Memory, list: seq<nat>) {
    mem'.Keys == mem.Keys && forall n | n in mem && n !in list :: mem'[n] == mem[n]
  }

  /** The first i entries of a table are cleared, the others are as they were. */
  ghost predicate Blank(t: seq<Entry>, t': seq<Entry>, i: nat) {
    |t'| == |t| && forall j: nat | j < |t| :: t'[j] == if j < i then Zero else t[j]
  }

  lemma {:induction false} Parts(a: seq<nat>, b: seq<nat>, c: seq<nat>, x: nat)
    requires Distinct(a + (b + c) + [x])
    ensures Distinct(b) && x !in b && forall n | n in b :: n !in a
  {
    var s := a + (b + c) + [x];
    assert forall i: nat | i < |a| :: a[i] == s[i];
    assert forall i: nat | i < |b| :: b[i] == s[|a| + i];
    assert s[|s| - 1] == x;
    forall n | n in b ensures n !in a {
      var i: nat :| i < |b| && b[i] == n;
      assert forall j: nat | j < |a| :: a[j] != n;
    }
  }

  lemma {:induction false} OutsideMore(t0: Memory, t1: Memory, t2: Memory, done: seq<nat>, sub: seq<nat>, page: nat)
    requires SameOutside(t0, t1, done + [page]) && t2.Keys == t1.Keys
             && forall n | n in t1 && n !in sub && n != page :: t2[n] == t1[n]
    ensures SameOutside(t0, t2, done + sub + [page])
  {
    forall n | n in t0 && n !in done + sub + [page] ensures t2[n] == t0[n] {
      assert n !in done + [page] && n !in sub && n != page;
    }
  }

  /** What is freed depends only on the tables that are freed. */
  lemma {:induction false} FreeListFrame(mem: Memory, mem': Memory, page: nat, deep: nat)
    requires mem'.Keys == mem.Keys && forall n | n in mem && n in FreeList(mem, page, deep) :: mem'[n] == mem[n]
    ensures FreeList(mem', page, deep) == FreeList(mem, page, deep)
    decreases 4 - deep, N + 1
  {
    if deep < 3 && page in mem {
      assert page in FreeList(mem, page, deep);
      FreeFromFrame(mem, mem', page, deep, 0);
    }
  }

  lemma {:induction false} FreeFromFrame(mem: Memory, mem': Memory, page: nat, deep: nat, i: nat)
    requires deep < 3 && page in mem && i <= N && mem'.Keys == mem.Keys && mem'[page] == mem[page]
    requires forall n | n in mem && n in FreeFrom(mem, page, deep, i) :: mem'[n] == mem[n]
    ensures FreeFrom(mem', page, deep, i) == FreeFrom(mem, page, deep, i)
    decreases 4 - deep, N - i
  {
    if i < N && i < |mem[page]| {
      FreeFromCons(mem, page, deep, i);
      FreeFromCons(mem', page, deep, i);
      FreeFromFrame(mem, mem', page, deep, i + 1);
      if mem[page][i] != Zero { FreeListFrame(mem, mem', mem[page][i].page, deep + 1); }
    }
  }

  lemma {:induction false} PushedNone(pool: seq<nat>)
    ensures Pushed(pool, []) == pool
  {
  }

  lemma {:induction false} PushedOne(pool: seq<nat>, page: nat)
    ensures Pushed(pool, [page]) == [page] + pool
  {
    assert [page][1..] == [];
  }

  lemma {:induction false} FreeListStep(mem: Memory, page: nat, deep: nat)
    ensures FreeList(mem, page, deep) ==
            if deep < 3 && page in mem then FreeFrom(mem, page, deep, 0) + [page] else [page]
  {
  }

  lemma {:induction false} FreeFromEnd(mem: Memory, page: nat, deep: nat, i: nat)
    requires deep < 3 && page in mem && i <= N && (i == N || i >= |mem[page]|)
    ensures FreeFrom(mem, page, deep, i) == []
  {
  }

  lemma {:induction false} Regroup(a: seq<nat>, b: seq<nat>, c: seq<nat>)
    ensures a + (b + c) == (a + b) + c
  {
  }

  lemma {:induction false} FreeFromCons(mem: Memory, page: nat, deep: nat, i: nat)
    requires deep < 3 && page in mem && i < N && i < |mem[page]|
    ensures FreeFrom(mem, page, deep, i) ==
            (if mem[page][i] == Zero then FreeFrom(mem, page, deep, i + 1)
            else FreeList(mem, mem[page][i].page, deep + 1) + FreeFrom(mem, page, deep, i + 1))
  {
    hide FreeList;
  }

  /** `free_pgdir` */
  method FreePgdir(fr: Frames, pd: Pgdir)
    requires Ready(fr.tables, pd.at, fr.pool) && RootOk(pd.pt, pd.at) && 0 !in pd.at.Values
    modifies fr`pool, fr`tables, pd
    ensures pd.pt == 0 && pd.at == map[] && Ready(fr.tables, pd.at, fr.pool)
    ensures forall n: nat :: n in fr.pool <==> n in old(fr.pool) || n in old(pd.at).Values
    ensures fr.tables.Keys == old(fr.tables).Keys
            && forall n | n in old(fr.tables) && n !in old(pd.at).Values :: fr.tables[n] == old(fr.tables)[n]
  {
    hide TreeOk, FreeList, Distinct;
    if pd.pt == 0 {
      EmptyTree(fr.tables);
      return;
    }
    FreesTables(fr.tables, pd.at);
    ghost var list := FreeList(fr.tables, pd.pt, 0);
    PushedDistinct(fr.pool, list);
    FreePtPages(fr, pd.pt, 0);
    pd.pt, pd.at := 0, map[];
    EmptyTree(fr.tables);
  }

  lemma {:induction false} EmptyTree(mem: Memory)
    ensures TreeOk(mem, map[])
  {
  }
}
