/**
  Directories of `src/fs/inode.c`: a file of 16-byte entries, an inode number and a name each, that
  behaves as a finite map from names to inode numbers.
 */
module Directories {
  import opened Common
  import opened LogHeaders
  import opened BlockAlloc
  import opened Inodes
  import LogProtocol

  const ENTRY := 16                    // sizeof(DirEntry)

  type Name = seq<byte>
  type u16 = n: int | 0 <= n < 0x10000

  // ----- names and entries -----

  /** Names that fit with their NUL. */
  predicate NameOk(n: Name) {
    |n| < FILE_NAME_MAX_LENGTH && forall i: nat | i < |n| :: n[i] != 0
  }

  function UpToNul(b: seq<byte>): (n: seq<byte>)
    ensures |n| <= |b| && (forall i: nat | i < |n| :: n[i] == b[i] && n[i] != 0) && (|n| < |b| ==> b[|n|] == 0)
  {
    if b == [] || b[0] == 0 then [] else [b[0]] + UpToNul(b[1..])
  }

  /** `memcmp(p, q, n) == 0` */
  predicate MemEqual(p: seq<byte>, q: seq<byte>, n: nat)
    requires n <= |p| && n <= |q|
  {
    p[..n] == q[..n]
  }

  /** Comparing as many bytes as the longer name has decides equality, whatever follows the NULs. */
  lemma {:induction false} CompareNames(a: Name, x: seq<byte>, b: Name, y: seq<byte>)
    requires NameOk(a) && NameOk(b) && Max(|a|, |b|) <= |a + [0] + x| && Max(|a|, |b|) <= |b + [0] + y|
    ensures MemEqual(a + [0] + x, b + [0] + y, Max(|a|, |b|)) <==> a == b
  {
    var p, q, n := a + [0] + x, b + [0] + y, Max(|a|, |b|);
    if |a| == |b| {
      assert p[..n] == a && q[..n] == b;
    } else if |a| < |b| {
      assert p[..n][|a|] == 0 && q[..n][|a|] == b[|a|];
    } else {
      assert q[..n][|b|] == 0 && p[..n][|b|] == a[|b|];
    }
  }

  /**
    The comparison of the two loops: `memcmp` over the longer of the two lengths; `tail` is whatever
    follows the name in memory.
   */
  predicate Matches(name: Name, tail: seq<byte>, e: DirEntry)
    requires NameOk(name) && NameOk(NameIn(e)) && |tail| >= FILE_NAME_MAX_LENGTH
  {
    MemEqual(name + [0] + tail, e[2..], Max(|name|, |NameIn(e)|))
  }

  /** It decides equality of names. */
  lemma {:induction false} MatchesIsEqual(name: Name, tail: seq<byte>, e: DirEntry)
    requires NameOk(name) && NameOk(NameIn(e)) && |tail| >= FILE_NAME_MAX_LENGTH
    ensures Matches(name, tail, e) <==> NameIn(e) == name
  {
    var n := NameIn(e);
    var y := e[2 + |n| + 1..];
    assert e[2..] == n + [0] + y;
    CompareNames(name, tail, n, y);
  }

  type DirEntry = e: seq<byte> | |e| == ENTRY witness seq(ENTRY, i => 0)

  function Ino(e: DirEntry): nat {
    Value(e[..2])
  }

  function NameIn(e: DirEntry): Name {
    UpToNul(e[2..])
  }

  /** `strncpy` of the name and the inode number. */
  function MakeEntry(ino: u16, name: Name): (e: DirEntry)
    requires NameOk(name)
  {
    Bytes(ino, 2) + (name + seq(FILE_NAME_MAX_LENGTH - |name|, i => 0))
  }

  lemma {:induction false} UpToNulIs(n: Name, tail: seq<byte>)
    requires (forall i: nat | i < |n| :: n[i] != 0) && tail != [] && tail[0] == 0
    ensures UpToNul(n + tail) == n
  {
    if n == [] {
      assert n + tail == tail;
    } else {
      UpToNulIs(n[1..], tail);
      assert (n + tail)[1..] == n[1..] + tail;
    }
  }

  lemma {:induction false} EntryReads(ino: u16, name: Name)
    requires NameOk(name)
    ensures Ino(MakeEntry(ino, name)) == ino && NameIn(MakeEntry(ino, name)) == name
  {
    var tail: seq<byte> := seq(FILE_NAME_MAX_LENGTH - |name|, i => 0);
    var e := MakeEntry(ino, name);
    assert e[..2] == Bytes(ino, 2) && e[2..] == name + tail;
    assert Pow256(2) == 0x10000;
    ValueBytes(ino, 2);
    UpToNulIs(name, tail);
  }

  /** Clearing the inode number leaves the name. */
  function Cleared(e: DirEntry): (r: DirEntry) {
    [0, 0] + e[2..]
  }

  lemma {:induction false} ClearedReads(e: DirEntry)
    ensures Ino(Cleared(e)) == 0
  {
    var b: seq<byte> := Cleared(e)[..2];
    assert b == [0, 0];
    assert Value(b[1..]) == 0 by { assert b[1..] == [0]; assert b[1..][1..] == []; }
  }

  // ----- the map a directory stands for -----

  function Slots(c: seq<byte>): nat {
    |c| / ENTRY
  }

  function Slot(c: seq<byte>, k: nat): DirEntry
    requires k < Slots(c)
  {
    c[ENTRY * k..ENTRY * k + ENTRY]
  }

  ghost predicate Live(c: seq<byte>, k: nat) {
    k < Slots(c) && Ino(Slot(c, k)) != 0
  }

  /** Whole entries, and live names that fit and differ. */
  ghost predicate DirOk(c: seq<byte>) {
    && |c| % ENTRY == 0
    && (forall k: nat | Live(c, k) :: NameOk(NameIn(Slot(c, k))))
    && (forall j: nat, k: nat | Live(c, j) && Live(c, k) && NameIn(Slot(c, j)) == NameIn(Slot(c, k)) :: j == k)
  }

  /** One of the first n slots binds the name. */
  ghost predicate BindsBelow(c: seq<byte>, n: nat, name: Name, ino: nat) {
    exists k: nat :: k < n && Live(c, k) && NameIn(Slot(c, k)) == name && Ino(Slot(c, k)) == ino
  }

  ghost predicate Binds(c: seq<byte>, name: Name, ino: nat) {
    BindsBelow(c, Slots(c), name, ino)
  }

  ghost function DirBelow(c: seq<byte>, n: nat): map<Name, nat> {
    if n == 0 then map[]
    else if Live(c, n - 1) then DirBelow(c, n - 1)[NameIn(Slot(c, n - 1)) := Ino(Slot(c, n - 1))]
    else DirBelow(c, n - 1)
  }

  ghost function Dir(c: seq<byte>): map<Name, nat> {
    DirBelow(c, Slots(c))
  }

  lemma {:induction false} BelowBinds(c: seq<byte>, n: nat, name: Name, ino: nat)
    requires DirOk(c)
    ensures name in DirBelow(c, n) && DirBelow(c, n)[name] == ino <==> BindsBelow(c, n, name, ino)
  {
    if n > 0 {
      BelowBinds(c, n - 1, name, ino);
      if BindsBelow(c, n - 1, name, ino) {
        var k: nat :| k < n - 1 && Live(c, k) && NameIn(Slot(c, k)) == name && Ino(Slot(c, k)) == ino;
        assert k < n;
      }
      if BindsBelow(c, n, name, ino) {
        var k: nat :| k < n && Live(c, k) && NameIn(Slot(c, k)) == name && Ino(Slot(c, k)) == ino;
        assert k == n - 1 || k < n - 1;
      }
    }
  }

  lemma {:induction false} DirBinds(c: seq<byte>, name: Name, ino: nat)
    requires DirOk(c)
    ensures name in Dir(c) && Dir(c)[name] == ino <==> Binds(c, name, ino)
  {
    BelowBinds(c, Slots(c), name, ino);
  }

  // ----- one entry is written -----

  lemma {:induction false} SlotsAfter(c: seq<byte>, k: nat, e: DirEntry, j: nat)
    requires |c| % ENTRY == 0 && k <= Slots(c) && j < Slots(Overwritten(c, e, ENTRY * k))
    ensures Slots(Overwritten(c, e, ENTRY * k)) == (if k == Slots(c) then k + 1 else Slots(c))
            && |Overwritten(c, e, ENTRY * k)| % ENTRY == 0
    ensures Slot(Overwritten(c, e, ENTRY * k), j) == if j == k then e else Slot(c, j)
  {
    var n := Slots(c);
    assert |c| == ENTRY * n;
    var r := Overwritten(c, e, ENTRY * k);
    assert |r| == if k == n then ENTRY * (n + 1) else ENTRY * n;
    SlotAfter(c, k, e, j);
  }

  lemma {:induction false} SlotAfter(c: seq<byte>, k: nat, e: DirEntry, j: nat)
    requires ENTRY * k <= |c| && ENTRY * j + ENTRY <= |Overwritten(c, e, ENTRY * k)|
             && (j != k ==> ENTRY * j + ENTRY <= |c|)
    ensures Overwritten(c, e, ENTRY * k)[ENTRY * j..ENTRY * j + ENTRY] ==
            if j == k then e else c[ENTRY * j..ENTRY * j + ENTRY]
  {
  }

  /** Slot k holds a new entry; the others hold what they held. */
  ghost predicate SlotWritten(c: seq<byte>, d: seq<byte>, k: nat, e: DirEntry) {
    && |c| % ENTRY == 0 && |d| % ENTRY == 0 && k <= Slots(c) && k < Slots(d)
    && Slots(d) == (if k == Slots(c) then k + 1 else Slots(c))
    && forall j: nat | j < Slots(d) :: Slot(d, j) == if j == k then e else if j < Slots(c) then Slot(c, j) else e
  }

  lemma {:induction false} OverwrittenSlot(c: seq<byte>, k: nat, e: DirEntry)
    requires |c| % ENTRY == 0 && k <= Slots(c) && ENTRY * k <= |c|
    ensures SlotWritten(c, Overwritten(c, e, ENTRY * k), k, e)
  {
    var n, d := Slots(c), Overwritten(c, e, ENTRY * k);
    assert |c| == ENTRY * n;
    assert |d| == if k == n then ENTRY * (n + 1) else ENTRY * n;
    forall j: nat | j < Slots(d) ensures Slot(d, j) == if j == k then e else if j < n then Slot(c, j) else e {
      SlotsAfter(c, k, e, j);
    }
  }

  /** Binding a new name in a slot that was not live. */
  lemma {:induction false} InsertMap(c: seq<byte>, d: seq<byte>, k: nat, name: Name, ino: u16)
    requires DirOk(c) && NameOk(name) && SlotWritten(c, d, k, MakeEntry(ino, name)) && !Live(c, k) && ino != 0
             && name !in Dir(c)
    ensures DirOk(d) && Dir(d) == Dir(c)[name := ino]
  {
    EntryReads(ino, name);
    var e := MakeEntry(ino, name);
    forall j: nat ensures Live(d, j) <==> j == k || Live(c, j) {}
    forall j: nat | Live(c, j) ensures NameIn(Slot(c, j)) != name { DirBinds(c, name, Ino(Slot(c, j))); }
    assert DirOk(d);
    forall n, i: nat ensures Binds(d, n, i) <==> (if n == name then i == ino else Binds(c, n, i)) {
      if n == name && i == ino { assert Live(d, k) && NameIn(Slot(d, k)) == name; }
      if n != name && Binds(c, n, i) {
        var j: nat :| Live(c, j) && NameIn(Slot(c, j)) == n && Ino(Slot(c, j)) == i;
        assert Live(d, j) && Slot(d, j) == Slot(c, j);
      }
    }
    SameMap(d, Dir(c)[name := ino], c, name, ino);
  }

  lemma {:induction false} SameMap(d: seq<byte>, m: map<Name, nat>, c: seq<byte>, name: Name, ino: nat)
    requires DirOk(c) && DirOk(d) && m == Dir(c)[name := ino]
    requires forall n, i: nat :: Binds(d, n, i) <==> (if n == name then i == ino else Binds(c, n, i))
    ensures Dir(d) == m
  {
    forall n ensures n in Dir(d) <==> n in m {
      if n in Dir(d) { DirBinds(d, n, Dir(d)[n]); DirBinds(c, n, Dir(d)[n]); }
      if n in m { DirBinds(d, n, m[n]); DirBinds(c, n, m[n]); }
    }
    forall n | n in m ensures n in Dir(d) && Dir(d)[n] == m[n] { DirBinds(d, n, m[n]); DirBinds(c, n, m[n]); }
  }

  /** Clearing a live slot removes its name and nothing else. */
  lemma {:induction false} RemoveMap(c: seq<byte>, d: seq<byte>, k: nat)
    requires DirOk(c) && Live(c, k) && SlotWritten(c, d, k, Cleared(Slot(c, k)))
    ensures DirOk(d) && Dir(d) == Dir(c) - {NameIn(Slot(c, k))}
  {
    ClearedReads(Slot(c, k));
    var name := NameIn(Slot(c, k));
    forall j: nat ensures Live(d, j) <==> j != k && Live(c, j) {}
    assert DirOk(d);
    forall n, i: nat ensures Binds(d, n, i) <==> n != name && Binds(c, n, i) {
      if n != name && Binds(c, n, i) {
        var j: nat :| Live(c, j) && NameIn(Slot(c, j)) == n && Ino(Slot(c, j)) == i;
        assert Live(d, j) && Slot(d, j) == Slot(c, j);
      }
    }
    var m := Dir(c) - {name};
    forall n ensures n in Dir(d) <==> n in m {
      if n in Dir(d) { DirBinds(d, n, Dir(d)[n]); DirBinds(c, n, Dir(d)[n]); }
      if n in m { DirBinds(d, n, m[n]); DirBinds(c, n, m[n]); }
    }
    forall n | n in m ensures n in Dir(d) && Dir(d)[n] == m[n] { DirBinds(d, n, m[n]); DirBinds(c, n, m[n]); }
  }

  // ----- the operations -----

  ghost predicate Unbound(c: seq<byte>, name: Name, n: nat) {
    forall k: nat | k < n && Live(c, k) :: NameIn(Slot(c, k)) != name
  }

  lemma {:induction false} UnboundAll(c: seq<byte>, name: Name)
    requires DirOk(c) && Unbound(c, name, Slots(c))
    ensures name !in Dir(c)
  {
    if name in Dir(c) { DirBinds(c, name, Dir(c)[name]); }
  }

  lemma {:induction false} SlotCount(c: seq<byte>)
    requires DirOk(c)
    ensures |c| == ENTRY * Slots(c) && Slots(c) == |c| / ENTRY
  {
  }

  lemma {:induction false} LiveName(c: seq<byte>, k: nat, name: Name, tail: seq<byte>)
    requires DirOk(c) && k < Slots(c) && NameOk(name) && |tail| >= FILE_NAME_MAX_LENGTH
    ensures Ino(Slot(c, k)) != 0 ==>
            NameOk(NameIn(Slot(c, k))) && (Matches(name, tail, Slot(c, k)) <==> NameIn(Slot(c, k)) == name)
  {
    if Live(c, k) { MatchesIsEqual(name, tail, Slot(c, k)); }
  }

  lemma {:induction false} Found(c: seq<byte>, k: nat, name: Name)
    requires DirOk(c) && Live(c, k) && NameIn(Slot(c, k)) == name
    ensures name in Dir(c) && Dir(c)[name] == Ino(Slot(c, k)) != 0
  {
    assert Binds(c, name, Ino(Slot(c, k)));
    DirBinds(c, name, Ino(Slot(c, k)));
  }

  /** A directory: its inode's file is whole and reads as a map. */
  ghost predicate IsDir(vol: Volume, ino: Inode)
    reads vol, ino
  {
    FileOk(vol.sb, vol.view, ino.entry) && Filled(vol.sb, vol.view, ino.entry)
        && DirOk(Content(vol.sb, vol.view, ino.entry))
  }

  method ReadEntry(vol: Volume, ino: Inode, k: nat) returns (e: DirEntry)
    requires IsDir(vol, ino) && k < Slots(Content(vol.sb, vol.view, ino.entry))
    ensures e == Slot(Content(vol.sb, vol.view, ino.entry), k)
  {
    hide FileOk, Filled, Content, DirOk;
    var n;
    e, n := ino.Read(vol, ENTRY * k, ENTRY);
  }

  /** `inode_lookup`: the binding of the name, with its offset, or 0. */
  method InodeLookup(vol: Volume, ino: Inode, name: Name, tail: seq<byte>) returns (r: nat, index: nat)
    requires IsDir(vol, ino) && NameOk(name) && |tail| >= FILE_NAME_MAX_LENGTH
    ensures var c := Content(vol.sb, vol.view, ino.entry);
            if name in Dir(c) then r == Dir(c)[name] != 0 && index % ENTRY == 0 && Live(c, index / ENTRY)
                && NameIn(Slot(c, index / ENTRY)) == name else r == 0
  {
    hide FileOk, Filled, Content, DirOk, Dir, Slot, NameIn, Ino, Slots, Matches;
    ghost var c := Content(vol.sb, vol.view, ino.entry);
    SlotCount(c);
    var i := 0;
    index := 0;
    while ENTRY * i < ino.entry.numBytes
      invariant i <= Slots(c) && Unbound(c, name, i)
    {
      var curr := ReadEntry(vol, ino, i);
      LiveName(c, i, name, tail);
      if Ino(curr) != 0 && Matches(name, tail, curr) {
        Found(c, i, name);
        return Ino(curr), ENTRY * i;
      }
      i := i + 1;
    }
    UnboundAll(c, name);
    r := 0;
  }

  /** An entry lies in one block. */
  lemma {:induction false} EntryCost(k: nat)
    ensures Rounds(ENTRY * k, ENTRY * k + ENTRY) == 1 && WriteCost(ENTRY * k, ENTRY) <= 5
  {
  }

  /** `inode_insert`: -1 exactly when the name is bound; otherwise one more binding, in the first free slot. */
  method InodeInsert(vol: Volume, ino: Inode, name: Name, tail: seq<byte>, no: u16) returns (ok: bool, r: int)
    requires IsDir(vol, ino) && NameOk(name) && |tail| >= FILE_NAME_MAX_LENGTH && no != 0
    requires HasFree(Content(vol.sb, vol.view, ino.entry)) || name in Dir(Content(vol.sb, vol.view, ino.entry))
             || ino.entry.numBytes + ENTRY <= INODE_MAX_BYTES
    requires ino.no in vol.dinodes && vol.dinodes[ino.no] == ino.entry
    modifies ino`entry, vol`view, vol`dinodes, vol`synced
    ensures old(name in Dir(Content(vol.sb, vol.view, ino.entry)) || HasFree(Content(vol.sb, vol.view, ino.entry))) ==>
            ok
    ensures ok ==> (r == -1 <==> old(name in Dir(Content(vol.sb, vol.view, ino.entry))))
    ensures ok && r == -1 ==> vol.view == old(vol.view) && ino.entry == old(ino.entry)
    ensures ok && r != -1 ==> IsDir(vol, ino) && Kept(vol.sb, old(vol.view), old(ino.entry), vol.view, ino.entry)
    ensures ok && r != -1 ==>
            Dir(Content(vol.sb, vol.view, ino.entry)) == old(Dir(Content(vol.sb, vol.view, ino.entry)))[name := no]
    ensures ok && r != -1 ==>
            r >= 0 && r % ENTRY == 0 && FirstFree(old(Content(vol.sb, vol.view, ino.entry)), r / ENTRY)
    ensures !ok ==> Exhausted(vol.sb, vol.view)
    ensures ok ==> |vol.synced - old(vol.synced)| <= if r == -1 then 0 else 5
    ensures ok ==> LogProtocol.NeverPanics(vol.synced - old(vol.synced))
    ensures Covered(old(vol.view), old(vol.synced), vol.view, vol.synced)
  {
    hide FileOk, Filled, Content, Kept, Exhausted, Dir, SlotWritten, DirOk, Slot, NameIn, Ino, Slots, Overwritten,
        MakeEntry, Covered, Rounds, WriteCost, LogProtocol.NeverPanics;
    ghost var c := Content(vol.sb, vol.view, ino.entry);
    SlotCount(c);
    FileLimit(vol.sb, vol.view, ino.entry);
    var bound, slot := Scan(vol, ino, name, tail);
    CoveredSelf(vol.view, vol.synced, vol.synced);
    LogProtocol.SmallNeverPanics(vol.synced - old(vol.synced));
    if bound { return true, -1; }
    EntryCost(slot);
    FreeSlot(c, slot);
    ok := ino.Write(vol, MakeEntry(no, name), ENTRY * slot);
    if !ok { return false, 0; }
    OverwrittenSlot(c, slot, MakeEntry(no, name));
    InsertMap(c, Content(vol.sb, vol.view, ino.entry), slot, name, no);
    LogProtocol.SmallNeverPanics(vol.synced - old(vol.synced));
    r := ENTRY * slot;
  }

  /** The loop of `inode_insert`: is the name bound, and which slot is the first free one? */
  method Scan(vol: Volume, ino: Inode, name: Name, tail: seq<byte>) returns (bound: bool, slot: nat)
    requires IsDir(vol, ino) && NameOk(name) && |tail| >= FILE_NAME_MAX_LENGTH
    ensures bound == (name in Dir(Content(vol.sb, vol.view, ino.entry)))
    ensures !bound ==> FirstFree(Content(vol.sb, vol.view, ino.entry), slot)
  {
    hide FileOk, Filled, Content, Dir, DirOk, Slot, NameIn, Ino, Slots, Matches;
    ghost var c := Content(vol.sb, vol.view, ino.entry);
    SlotCount(c);
    var i: nat, end: nat := 0, ino.entry.numBytes / ENTRY;
    slot := end;
    while ENTRY * i < ino.entry.numBytes
      invariant i <= Slots(c) == end && Unbound(c, name, i)
      invariant slot <= end && (slot < end ==> slot < i && FirstFree(c, slot))
                && (slot == end ==> forall k: nat | k < i :: Live(c, k))
    {
      var curr := ReadEntry(vol, ino, i);
      LiveName(c, i, name, tail);
      if Ino(curr) == 0 && slot == end { slot := i; }
      if Ino(curr) != 0 && Matches(name, tail, curr) {
        Found(c, i, name);
        return true, 0;
      }
      i := i + 1;
    }
    UnboundAll(c, name);
    bound := false;
  }

  /** Some slot is not live, so nothing has to be appended. */
  ghost predicate HasFree(c: seq<byte>) {
    exists k: nat :: k < Slots(c) && !Live(c, k)
  }

  lemma {:induction false} FreeSlot(c: seq<byte>, slot: nat)
    requires FirstFree(c, slot)
    ensures HasFree(c) <==> slot < Slots(c)
  {
  }

  lemma {:induction false} FileLimit(sb: SuperBlock, v: Disk, e: InodeEntry)
    requires FileOk(sb, v, e) && Filled(sb, v, e)
    ensures e.numBytes <= INODE_MAX_BYTES && |Content(sb, v, e)| == e.numBytes
  {
  }

  ghost predicate FirstFree(c: seq<byte>, k: nat) {
    k <= Slots(c) && !Live(c, k) && forall j: nat | j < k :: Live(c, j)
  }

  /** `inode_remove` of a live entry removes its binding only. */
  method InodeRemove(vol: Volume, ino: Inode, index: nat)
    requires IsDir(vol, ino) && index % ENTRY == 0 && Live(Content(vol.sb, vol.view, ino.entry), index / ENTRY)
    requires ino.no in vol.dinodes && vol.dinodes[ino.no] == ino.entry
    modifies ino`entry, vol`view, vol`dinodes, vol`synced
    ensures IsDir(vol, ino) && Kept(vol.sb, old(vol.view), old(ino.entry), vol.view, ino.entry)
    ensures Dir(Content(vol.sb, vol.view, ino.entry)) == old(Dir(Content(vol.sb, vol.view, ino.entry))) - {
            old(NameIn(Slot(Content(vol.sb, vol.view, ino.entry), index / ENTRY)))}
    ensures |vol.synced - old(vol.synced)| <= 1 && LogProtocol.NeverPanics(vol.synced - old(vol.synced))
    ensures Covered(old(vol.view), old(vol.synced), vol.view, vol.synced)
  {
    hide FileOk, Filled, Content, Kept, Exhausted, Dir, SlotWritten, Covered, Rounds, WriteCost,
        LogProtocol.NeverPanics;
    ghost var c := Content(vol.sb, vol.view, ino.entry);
    var k := index / ENTRY;
    var curr := ReadEntry(vol, ino, k);
    SlotCount(c);
    FileLimit(vol.sb, vol.view, ino.entry);
    var ok := ino.Write(vol, Cleared(curr), index);
    EntryCost(k);
    LogProtocol.SmallNeverPanics(vol.synced - old(vol.synced));
    OverwrittenSlot(c, k, Cleared(curr));
    RemoveMap(c, Content(vol.sb, vol.view, ino.entry), k);
  }
}
