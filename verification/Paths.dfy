/** Path names in `src/fs/inode.c`: taking elements off a path and walking the directory tree, with reference counts. */
module Paths {
  import opened Common
  import opened LogHeaders
  import opened BlockAlloc
  import opened Inodes
  import opened Directories

  const ROOT_INODE_NO: nat := 1
  const INODE_DIRECTORY := 1
  const SLASH: byte := 47

  type Path = seq<byte>

  // ----- splitting on slashes -----

  function SlashesAt(p: Path, i: nat): (j: nat)
    requires i <= |p|
    ensures i <= j <= |p| && (j < |p| ==> p[j] != SLASH) && forall k: nat | i <= k < j :: p[k] == SLASH
    decreases |p| - i
  {
    if i < |p| && p[i] == SLASH then SlashesAt(p, i + 1) else i
  }

  function ElemEnd(p: Path, i: nat): (j: nat)
    requires i <= |p|
    ensures i <= j <= |p| && (j < |p| ==> p[j] == SLASH) && forall k: nat | i <= k < j :: p[k] != SLASH
    decreases |p| - i
  {
    if i < |p| && p[i] != SLASH then ElemEnd(p, i + 1) else i
  }

  /** The non-empty pieces of the path from i on. */
  function Elems(p: Path, i: nat): seq<Name>
    requires i <= |p|
    decreases |p| - i
  {
    var j := SlashesAt(p, i);
    if j == |p| then [] else [p[j..ElemEnd(p, j)]] + Elems(p, ElemEnd(p, j))
  }

  lemma {:induction false} ElemsSkip(p: Path, i: nat)
    requires i <= |p|
    ensures Elems(p, SlashesAt(p, i)) == Elems(p, i) && SlashesAt(p, SlashesAt(p, i)) == SlashesAt(p, i)
  {
  }

  /** Joined by slashes, the pieces split back, whatever slashes are put before and between them. */
  lemma {:induction false} ElemsOf(p: Path, i: nat, e: Name, j: nat)
    requires i <= j && j + |e| <= |p| && e != [] && p[j..j + |e|] == e && (forall k: nat | k < |e| :: e[k] != SLASH)
    requires forall k: nat | i <= k < j :: p[k] == SLASH
    requires j + |e| < |p| ==> p[j + |e|] == SLASH
    ensures Elems(p, i) == [e] + Elems(p, j + |e|)
  {
    var piece := p[j..j + |e|];
    assert p[j] == piece[0];
    SlashesTo(p, i, j);
    forall k: nat | j <= k < j + |e| ensures p[k] != SLASH { assert p[k] == piece[k - j]; }
    ElemTo(p, j, j + |e|);
  }

  lemma {:induction false} SlashesTo(p: Path, i: nat, j: nat)
    requires i <= j <= |p| && (forall k: nat | i <= k < j :: p[k] == SLASH) && (j < |p| ==> p[j] != SLASH)
    ensures SlashesAt(p, i) == j
    decreases j - i
  {
    if i < j { SlashesTo(p, i + 1, j); }
  }

  lemma {:induction false} ElemTo(p: Path, i: nat, j: nat)
    requires i <= j <= |p| && (forall k: nat | i <= k < j :: p[k] != SLASH) && (j < |p| ==> p[j] == SLASH)
    ensures ElemEnd(p, i) == j
    decreases j - i
  {
    if i < j { ElemTo(p, i + 1, j); }
  }

  /** What fits into a name buffer. */
  function Cut(n: Name): Name {
    if |n| >= FILE_NAME_MAX_LENGTH then n[..FILE_NAME_MAX_LENGTH] else n
  }

  /** `skipelem`: the next element, cut at 14 characters, and the path behind it without leading slashes. */
  method SkipElem(p: Path, at: nat) returns (found: bool, name: Name, rest: nat)
    requires at <= |p|
    ensures rest <= |p| && found == (Elems(p, at) != [])
    ensures found ==> name == Cut(Elems(p, at)[0])
    ensures found ==> Elems(p, rest) == Elems(p, at)[1..] && (rest == |p| <==> Elems(p, at)[1..] == []) && rest > at
  {
    var i := at;
    while i < |p| && p[i] == SLASH
      invariant at <= i <= |p| && SlashesAt(p, i) == SlashesAt(p, at)
    {
      i := i + 1;
    }
    if i == |p| { return false, [], i; }
    var s := i;
    while i < |p| && p[i] != SLASH
      invariant s <= i <= |p| && ElemEnd(p, i) == ElemEnd(p, s)
    {
      i := i + 1;
    }
    var len := i - s;
    name := if len >= FILE_NAME_MAX_LENGTH then p[s..s + FILE_NAME_MAX_LENGTH] else p[s..i];
    ghost var e := i;
    assert Elems(p, at) == [p[s..e]] + Elems(p, e);
    assert Elems(p, at)[0] == p[s..e]
      && (len >= FILE_NAME_MAX_LENGTH ==> p[s..e][..FILE_NAME_MAX_LENGTH] == p[s..s + FILE_NAME_MAX_LENGTH]);
    while i < |p| && p[i] == SLASH
      invariant e <= i <= |p| && SlashesAt(p, i) == SlashesAt(p, e)
    {
      i := i + 1;
    }
    ElemsSkip(p, e);
    assert Elems(p, at)[1..] == Elems(p, e);
    found, rest := true, i;
  }

  // ----- the walk -----

  /** A directory's bindings, or not a directory. */
  datatype Node = File | Directory(entries: map<Name, nat>)

  datatype Found = Missing | At(ino: nat)

  /** Every directory of the volume reads as a map, and names lead to inodes that exist. */
  ghost predicate DirsOk(sb: SuperBlock, v: Disk, ds: map<nat, InodeEntry>) {
    forall no | no in ds && ds[no].kind == INODE_DIRECTORY :: WholeDir(sb, v, ds, ds[no])
  }

  ghost predicate WholeDir(sb: SuperBlock, v: Disk, ds: map<nat, InodeEntry>, e: InodeEntry) {
    && FileOk(sb, v, e) && Filled(sb, v, e) && DirOk(Content(sb, v, e))
    && forall name | name in Dir(Content(sb, v, e)) :: Dir(Content(sb, v, e))[name] in ds
  }

  /** The tree of names that the inodes of the volume describe. */
  ghost function TreeOf(sb: SuperBlock, v: Disk, ds: map<nat, InodeEntry>): map<nat, Node> {
    map no | no in ds :: NodeOf(sb, v, ds, ds[no])
  }

  ghost function NodeOf(sb: SuperBlock, v: Disk, ds: map<nat, InodeEntry>, e: InodeEntry): Node {
    if e.kind == INODE_DIRECTORY && WholeDir(sb, v, ds, e) then Directory(Dir(Content(sb, v, e))) else File
  }

  function Walk(fs: map<nat, Node>, ino: nat, elems: seq<Name>): Found
    decreases |elems|
  {
    if elems == [] then At(ino)
    else if ino !in fs || fs[ino].File? || elems[0] !in fs[ino].entries || fs[ino].entries[elems[0]] == 0 then Missing
    else Walk(fs, fs[ino].entries[elems[0]], elems[1..])
  }

  function IsDirectory(fs: map<nat, Node>, f: Found): Found {
    if f.At? && f.ino in fs && fs[f.ino].Directory? then f else Missing
  }

  /** What `namex` is for: the inode of the path, or the directory that holds its last element. */
  function Target(fs: map<nat, Node>, start: nat, elems: seq<Name>, parent: bool): Found {
    if !parent then Walk(fs, start, elems)
    else if elems == [] then Missing
    else IsDirectory(fs, Walk(fs, start, elems[..|elems| - 1]))
  }

  predicate Short(elems: seq<Name>) {
    forall i: nat | i < |elems| :: |elems[i]| < FILE_NAME_MAX_LENGTH
  }

  // ----- the inodes in memory -----

  /** An in-memory inode of the list: a copy of what is on disk and its reference count. */
  datatype Cached = Cached(entry: InodeEntry, rc: int)

  type Table = map<nat, Cached>

  function Count(table: Table, ino: nat): int {
    if ino in table then table[ino].rc else 0
  }

  /** The copies are current. */
  ghost predicate Current(table: Table, ds: map<nat, InodeEntry>) {
    forall no | no in table :: no in ds && table[no].entry == ds[no]
  }

  /** Counts as before, except one more on ino. */
  ghost predicate OneMore(before: Table, after: Table, ino: Found) {
    forall j :: Count(after, j) == Count(before, j) + (if ino == At(j) then 1 else 0)
  }

  /** One step of the walk, for a path that is not used up. */
  lemma {:induction false} TargetStep(fs: map<nat, Node>, ans: nat, elems: seq<Name>, parent: bool)
    requires elems != []
    ensures ans !in fs || fs[ans].File? ==> Target(fs, ans, elems, parent) == Missing
    ensures ans in fs && fs[ans].Directory? && parent && |elems| == 1 ==> Target(fs, ans, elems, parent) == At(ans)
    ensures ans in fs && fs[ans].Directory? && !(parent && |elems| == 1) ==>
      Target(fs, ans, elems, parent) == if elems[0] !in fs[ans].entries || fs[ans].entries[elems[0]] == 0 then Missing
          else Target(fs, fs[ans].entries[elems[0]], elems[1..], parent)
  {
    if parent && |elems| > 1 {
      var init, rest := elems[..|elems| - 1], elems[1..];
      assert init[0] == elems[0] && init[1..] == rest[..|rest| - 1];
    }
  }

  lemma {:induction false} ShortRest(elems: seq<Name>)
    requires elems != [] && Short(elems)
    ensures Short(elems[1..]) && |elems[0]| < FILE_NAME_MAX_LENGTH
  {
  }

  /** Pieces of a path without NULs are names. */
  lemma {:induction false} ElemName(p: Path, i: nat)
    requires i <= |p| && Elems(p, i) != [] && Short(Elems(p, i)) && forall k: nat | k < |p| :: p[k] != 0
    ensures NameOk(Elems(p, i)[0])
  {
    var j := SlashesAt(p, i);
    assert Elems(p, i)[0] == p[j..ElemEnd(p, j)];
  }

  lemma {:induction false} NodeReads(sb: SuperBlock, v: Disk, ds: map<nat, InodeEntry>, no: nat)
    requires DirsOk(sb, v, ds) && no in ds
    ensures no in TreeOf(sb, v, ds) && (TreeOf(sb, v, ds)[no].Directory? <==> ds[no].kind == INODE_DIRECTORY)
    ensures ds[no].kind == INODE_DIRECTORY ==>
      FileOk(sb, v, ds[no]) && Filled(sb, v, ds[no]) && DirOk(Content(sb, v, ds[no]))
          && TreeOf(sb, v, ds)[no] == Directory(Dir(Content(sb, v, ds[no])))
    ensures ds[no].kind == INODE_DIRECTORY ==>
            forall name | name in Dir(Content(sb, v, ds[no])) :: Dir(Content(sb, v, ds[no]))[name] in ds
  {
    if ds[no].kind == INODE_DIRECTORY { assert WholeDir(sb, v, ds, ds[no]); }
  }

  class InodeTree {
    var table: Table

    constructor ()
      ensures table == map[]
    {
      table := map[];
    }

    /** `inode_get`: the inode of the list, or a new one loaded from disk; `inode_share` of one that is there. */
    method Get(vol: Volume, ino: nat, ghost before: Table)
      requires ino in vol.dinodes && Current(table, vol.dinodes) && OneMore(before, table, Missing)
      modifies `table
      ensures Current(table, vol.dinodes) && ino in table
      ensures OneMore(before, table, At(ino))
    {
      if ino in table {
        table := table[ino := table[ino].(rc := table[ino].rc + 1)];
      } else {
        table := table[ino := Cached(vol.dinodes[ino], 1)];
      }
    }

    /**
      `inode_put` of an inode that is linked, or held by somebody else too: nothing is freed and it
      stays in the list.
     */
    method Put(vol: Volume, ino: nat, ghost before: Table)
      requires ino in table && Current(table, vol.dinodes) && OneMore(before, table, At(ino))
               && (table[ino].rc > 1 || table[ino].entry.numLinks > 0)
      modifies `table
      ensures Current(table, vol.dinodes)
      ensures OneMore(before, table, Missing)
    {
      table := table[ino := table[ino].(rc := table[ino].rc - 1)];
    }

    /** The lookup of `namex` in the directory `ans`. */
    method LookIn(vol: Volume, ans: nat, elem: Name, tail: seq<byte>) returns (ino: nat)
      requires DirsOk(vol.sb, vol.view, vol.dinodes) && Current(table, vol.dinodes) && ans in table
               && table[ans].entry.kind == INODE_DIRECTORY
      requires NameOk(elem) && |tail| >= FILE_NAME_MAX_LENGTH
      ensures ans in TreeOf(vol.sb, vol.view, vol.dinodes) && TreeOf(vol.sb, vol.view, vol.dinodes)[ans].Directory?
      ensures var entries := TreeOf(vol.sb, vol.view, vol.dinodes)[ans].entries;
              ino == (if elem in entries then entries[elem] else 0) && (ino != 0 ==> ino in vol.dinodes)
    {
      NodeReads(vol.sb, vol.view, vol.dinodes, ans);
      hide TreeOf, DirsOk, Content, Dir, FileOk, Filled, DirOk;
      var node := new Inode(ans, table[ans].entry);
      var index;
      ino, index := InodeLookup(vol, node, elem, tail);
    }

    /**
      `namex`: the walk over the directories of the volume agrees with splitting on slashes, and
      leaves one extra reference on its result and none elsewhere.
     */
    method Namex(vol: Volume, path: Path, cwd: nat, parent: bool, tail: seq<byte>) returns (r: Found, name: Name)
      requires DirsOk(vol.sb, vol.view, vol.dinodes) && Current(table, vol.dinodes)
      requires var start := if path != [] && path[0] == SLASH then ROOT_INODE_NO else cwd;
               Stays(TreeOf(vol.sb, vol.view, vol.dinodes), table, vol.dinodes, start, Elems(path, 0), parent)
      requires Short(Elems(path, 0)) && (forall k: nat | k < |path| :: path[k] != 0) && |tail| >= FILE_NAME_MAX_LENGTH
      modifies `table
      ensures var start := if path != [] && path[0] == SLASH then ROOT_INODE_NO else cwd;
              r == Target(TreeOf(vol.sb, vol.view, vol.dinodes), start, Elems(path, 0), parent)
      ensures OneMore(old(table), table, r) && Current(table, vol.dinodes)
      ensures parent && r.At? ==> Elems(path, 0) != [] && name == Elems(path, 0)[|Elems(path, 0)| - 1]
    {
      hide *;
      ghost var fs := TreeOf(vol.sb, vol.view, vol.dinodes);
      var start: nat := if path != [] && path[0] == SLASH then ROOT_INODE_NO else cwd;
      var ans: nat, at: nat := start, 0;
      name := [];
      Unchanged(table);
      StaysHere(fs, table, vol.dinodes, start, Elems(path, 0), parent);
      Get(vol, ans, old(table));
      var found: bool, elem: Name, rest: nat;
      found, elem, rest := SkipElem(path, 0);
      WalkStarts(fs, path, start, parent, found, elem, rest);
      while found
        invariant at <= |path| && rest <= |path| && (found ==> rest > at)
        invariant Walking(fs, path, start, parent, ans, at, found, elem, rest)
        invariant OneMore(old(table), table, At(ans)) && Current(table, vol.dinodes) && ans in table
        invariant Stays(fs, old(table), vol.dinodes, ans, Elems(path, at), parent)
        decreases |path| - at, found
      {
        WalkReads(fs, path, start, parent, ans, at, elem, rest);
        StaysHere(fs, old(table), vol.dinodes, ans, Elems(path, at), parent);
        CurrentReads(vol.sb, vol.view, vol.dinodes, old(table), table, ans);
        name := elem;
        if table[ans].entry.kind != INODE_DIRECTORY {
          Put(vol, ans, old(table));
          return Missing, name;
        }
        if parent && rest == |path| { return At(ans), name; }
        var ino := LookIn(vol, ans, elem, tail);
        Put(vol, ans, old(table));
        if ino == 0 { return Missing, name; }
        ghost var was := at;
        at := rest;
        found, elem, rest := SkipElem(path, at);
        WalkSteps(fs, path, start, parent, ans, was, at, found, elem, rest);
        WalkStays(fs, old(table), vol.dinodes, path, start, parent, ans, was, at);
        ans := ino;
        StaysHere(fs, old(table), vol.dinodes, ans, Elems(path, at), parent);
        Get(vol, ans, old(table));
      }
      WalkEnds(fs, path, start, parent, ans, at, elem, rest);
      StaysHere(fs, old(table), vol.dinodes, ans, Elems(path, at), parent);
      CurrentReads(vol.sb, vol.view, vol.dinodes, old(table), table, ans);
      if parent {
        Put(vol, ans, old(table));
        return Missing, name;
      }
      r := At(ans);
    }
  }

  /** What `skipelem` has said about the rest of the path. */
  ghost predicate Skipped(path: Path, at: nat, found: bool, elem: Name, rest: nat)
    requires at <= |path| && rest <= |path|
  {
    && Short(Elems(path, at)) && found == (Elems(path, at) != [])
    && (found ==>
          elem == Elems(path, at)[0] && Elems(path, rest) == Elems(path, at)[1..]
          && (rest == |path| <==> Elems(path, rest) == []))
  }

  /** From `ans` the rest of the path leads where the whole path leads from the start. */
  ghost predicate Walking(fs: map<nat, Node>, path: Path, start: nat, parent: bool, ans: nat, at: nat, found: bool,
                          elem: Name, rest: nat)
    requires at <= |path| && rest <= |path|
  {
    var all, elems := Elems(path, 0), Elems(path, at);
    && Skipped(path, at, found, elem, rest)
    && Target(fs, start, all, parent) == Target(fs, ans, elems, parent)
    && (found ==> all != [] && elems[|elems| - 1] == all[|all| - 1])
  }

  lemma {:induction false} WalkStarts(fs: map<nat, Node>, path: Path, start: nat, parent: bool, found: bool,
                                      elem: Name, rest: nat)
    requires rest <= |path| && Short(Elems(path, 0)) && found == (Elems(path, 0) != [])
    requires found ==>
             elem == Cut(Elems(path, 0)[0]) && Elems(path, rest) == Elems(path, 0)[1..]
             && (rest == |path| <==> Elems(path, 0)[1..] == [])
    ensures Walking(fs, path, start, parent, start, 0, found, elem, rest)
  {
    hide Target, Elems;
    if found { assert |Elems(path, 0)[0]| < FILE_NAME_MAX_LENGTH; }
  }

  lemma {:induction false} WalkReads(fs: map<nat, Node>, path: Path, start: nat, parent: bool, ans: nat, at: nat,
                                     elem: Name, rest: nat)
    requires at <= |path| && rest <= |path| && Walking(fs, path, start, parent, ans, at, true, elem, rest)
             && forall k: nat | k < |path| :: path[k] != 0
    ensures NameOk(elem) && Elems(path, at) != [] && elem == Elems(path, at)[0]
    ensures ans !in fs || fs[ans].File? ==> Target(fs, start, Elems(path, 0), parent) == Missing
    ensures ans in fs && fs[ans].Directory? && parent && rest == |path| ==>
      Target(fs, start, Elems(path, 0), parent) == At(ans) && Elems(path, 0) != []
          && elem == Elems(path, 0)[|Elems(path, 0)| - 1]
    ensures ans in fs && fs[ans].Directory? && !(parent && rest == |path|)
            && (elem !in fs[ans].entries || fs[ans].entries[elem] == 0) ==>
      Target(fs, start, Elems(path, 0), parent) == Missing
  {
    TargetStep(fs, ans, Elems(path, at), parent);
    ElemName(path, at);
    hide Target, Elems, NameOk;
  }

  lemma {:induction false} WalkSteps(fs: map<nat, Node>, path: Path, start: nat, parent: bool, ans: nat, at: nat,
                                     next: nat, found: bool, elem: Name, rest: nat)
    requires at <= |path| && next <= |path| && rest <= |path| && ans in fs && fs[ans].Directory?
             && Elems(path, at) != []
    requires Walking(fs, path, start, parent, ans, at, true, Elems(path, at)[0], next) && !(parent && next == |path|)
    requires Elems(path, at)[0] in fs[ans].entries && fs[ans].entries[Elems(path, at)[0]] != 0
    requires found == (Elems(path, next) != [])
    requires found ==>
             elem == Cut(Elems(path, next)[0]) && Elems(path, rest) == Elems(path, next)[1..]
             && (rest == |path| <==> Elems(path, next)[1..] == [])
    ensures Walking(fs, path, start, parent, fs[ans].entries[Elems(path, at)[0]], next, found, elem, rest)
  {
    TargetStep(fs, ans, Elems(path, at), parent);
    ShortRest(Elems(path, at));
    if found { ShortRest(Elems(path, next)); }
    hide Target, Elems;
  }

  lemma {:induction false} WalkStays(fs: map<nat, Node>, table: Table, ds: map<nat, InodeEntry>, path: Path,
                                     start: nat, parent: bool, ans: nat, at: nat, next: nat)
    requires at <= |path| && next <= |path| && ans in fs && fs[ans].Directory? && Elems(path, at) != []
    requires Walking(fs, path, start, parent, ans, at, true, Elems(path, at)[0], next) && !(parent && next == |path|)
    requires Elems(path, at)[0] in fs[ans].entries && fs[ans].entries[Elems(path, at)[0]] != 0
    requires Stays(fs, table, ds, ans, Elems(path, at), parent)
    ensures Stays(fs, table, ds, fs[ans].entries[Elems(path, at)[0]], Elems(path, next), parent)
  {
    hide Target, Elems, HeldOrLinked;
  }

  lemma {:induction false} WalkEnds(fs: map<nat, Node>, path: Path, start: nat, parent: bool, ans: nat, at: nat,
                                    elem: Name, rest: nat)
    requires at <= |path| && rest <= |path| && Walking(fs, path, start, parent, ans, at, false, elem, rest)
    ensures Target(fs, start, Elems(path, 0), parent) == if parent then Missing else At(ans)
  {
    TargetEnd(fs, ans, parent);
    hide Target, Elems;
  }

  /** Linked from some directory, or held by somebody: putting it back frees nothing. */
  ghost predicate HeldOrLinked(table: Table, ds: map<nat, InodeEntry>, no: nat) {
    no in ds && (ds[no].numLinks > 0 || Count(table, no) > 0)
  }

  /** So is every inode that the walk along this path comes to; what lies elsewhere does not matter. */
  ghost predicate Stays(fs: map<nat, Node>, table: Table, ds: map<nat, InodeEntry>, ino: nat, elems: seq<Name>,
                        parent: bool)
    decreases |elems|
  {
    && HeldOrLinked(table, ds, ino)
    && (elems != [] && !(parent && |elems| == 1) && ino in fs && fs[ino].Directory? && elems[0] in fs[ino].entries
        && fs[ino].entries[elems[0]] != 0 ==>
          Stays(fs, table, ds, fs[ino].entries[elems[0]], elems[1..], parent))
  }

  /** Every name of every directory leads to an inode that is linked or held. */
  ghost predicate NamesHold(fs: map<nat, Node>, table: Table, ds: map<nat, InodeEntry>) {
    forall d, name | d in fs && fs[d].Directory? && name in fs[d].entries && fs[d].entries[name] != 0 ::
      HeldOrLinked(table, ds, fs[d].entries[name])
  }

  /** In such a file system every path will do, from any directory that is linked or held. */
  lemma {:induction false} EveryPathStays(fs: map<nat, Node>, table: Table, ds: map<nat, InodeEntry>, ino: nat,
                                          elems: seq<Name>, parent: bool)
    requires NamesHold(fs, table, ds) && HeldOrLinked(table, ds, ino)
    ensures Stays(fs, table, ds, ino, elems, parent)
    decreases |elems|
  {
    if elems != [] && ino in fs && fs[ino].Directory? && elems[0] in fs[ino].entries && fs[ino].entries[elems[0]] != 0 {
      EveryPathStays(fs, table, ds, fs[ino].entries[elems[0]], elems[1..], parent);
    }
  }

  /** What the walk needs of the inode it is at. */
  lemma {:induction false} StaysHere(fs: map<nat, Node>, table: Table, ds: map<nat, InodeEntry>, ino: nat,
                                     elems: seq<Name>, parent: bool)
    requires Stays(fs, table, ds, ino, elems, parent)
    ensures HeldOrLinked(table, ds, ino) && ino in ds
  {
  }

  lemma {:induction false} CurrentReads(sb: SuperBlock, v: Disk, ds: map<nat, InodeEntry>, before: Table,
                                        table: Table, no: nat)
    requires DirsOk(sb, v, ds) && Current(table, ds) && no in table && HeldOrLinked(before, ds, no)
             && OneMore(before, table, At(no))
    ensures no in TreeOf(sb, v, ds) && (TreeOf(sb, v, ds)[no].Directory? <==> table[no].entry.kind == INODE_DIRECTORY)
    ensures table[no].rc > 1 || table[no].entry.numLinks > 0
  {
    NodeReads(sb, v, ds, no);
    hide DirsOk, TreeOf;
    assert Count(table, no) == Count(before, no) + 1;
  }

  lemma {:induction false} Unchanged(table: Table)
    ensures OneMore(table, table, Missing)
  {
  }

  lemma {:induction false} TargetEnd(fs: map<nat, Node>, ans: nat, parent: bool)
    ensures Target(fs, ans, [], parent) == if parent then Missing else At(ans)
  {
  }
}
