/**
  The file system as a whole: every data block in use belongs to exactly one inode, and the
  operations of `src/fs/file.c` and `src/fs/inode.c` keep it so, changing one file at a time.
 */
module Files {
  import opened Common
  import opened LogHeaders
  import opened BlockAlloc
  import opened Inodes
  import LogProtocol

  type Dinodes = map<nat, InodeEntry>

  const INODE_INVALID := 0

  /** Every inode is well formed and a free one holds nothing. */
  ghost predicate EachOk(sb: SuperBlock, v: Disk, ds: Dinodes) {
    forall i | i in ds :: FileOk(sb, v, ds[i]) && (ds[i].kind == INODE_INVALID ==> NoBlocks(ds[i]))
  }

  ghost predicate Owner(sb: SuperBlock, v: Disk, ds: Dinodes, i: nat, c: nat)
    requires EachOk(sb, v, ds)
  {
    i in ds && Owns(sb, v, ds[i], c)
  }

  /** The set bits of the bitmap are the metadata blocks (`Mapped`) plus a disjoint union of what each inode owns. */
  ghost predicate FsOk(sb: SuperBlock, v: Disk, ds: Dinodes) {
    && Mapped(sb, v) && EachOk(sb, v, ds)
    && (forall i: nat, j: nat, c: nat | Owner(sb, v, ds, i, c) && Owner(sb, v, ds, j, c) :: i == j)
    && (forall c: nat | DataBlock(sb, v, c) :: exists i: nat :: Owner(sb, v, ds, i, c))
  }

  lemma {:induction false} OwnedIsData(sb: SuperBlock, v: Disk, e: InodeEntry, c: nat)
    requires FileOk(sb, v, e) && Owns(sb, v, e, c)
    ensures DataBlock(sb, v, c)
  {
  }

  /** A file none of whose blocks belong to the one that changed is untouched. */
  lemma {:induction false} OtherUntouched(sb: SuperBlock, v: Disk, e: InodeEntry, v': Disk, e': InodeEntry,
                                          f: InodeEntry)
    requires Kept(sb, v, e, v', e') && FileOk(sb, v, f)
    requires forall c: nat | Owns(sb, v, f, c) :: Foreign(sb, v, e, c)
    ensures FileOk(sb, v', f) && SameBlocks(sb, v, f, v', f)
    ensures forall c: nat :: Owns(sb, v', f, c) <==> Owns(sb, v, f, c)
  {
    hide Foreign;
    assert Mapped(sb, v') && v'.Keys == v.Keys;
    if f.indirect != 0 {
      assert Owns(sb, v, f, f.indirect);
      assert f.indirect in v by { assert DataBlock(sb, v, f.indirect); InView(sb, v, f.indirect); }
    }
    forall k: nat | k < INODE_MAX_BLOCKS ensures BlockNo(v', f, k) == BlockNo(v, f, k) {}
    forall k: nat | k < INODE_MAX_BLOCKS && BlockNo(v, f, k) != 0
      ensures Foreign(sb, v', e', BlockNo(v, f, k)) && v'[BlockNo(v, f, k)] == v[BlockNo(v, f, k)]
    {
      assert Owns(sb, v, f, BlockNo(v, f, k));
    }
    ForeignIsData(sb, v', e');
    assert FileOk(sb, v', f);
    OwnsSame(sb, v, f, v', f);
  }

  lemma {:induction false} InView(sb: SuperBlock, v: Disk, c: nat)
    requires Mapped(sb, v) && c < sb.numBlocks
    ensures c in v
  {
  }

  lemma {:induction false} ForeignIsData(sb: SuperBlock, v: Disk, e: InodeEntry)
    requires FileOk(sb, v, e)
    ensures forall c: nat | Foreign(sb, v, e, c) :: DataBlock(sb, v, c)
  {
  }

  lemma {:induction false} ContentUntouched(sb: SuperBlock, v: Disk, v': Disk, f: InodeEntry)
    requires FileOk(sb, v, f) && FileOk(sb, v', f) && SameBlocks(sb, v, f, v', f) && Filled(sb, v, f)
    ensures Filled(sb, v', f) && Content(sb, v', f) == Content(sb, v, f)
  {
    hide FileOk;
    var a, b := Content(sb, v, f), Content(sb, v', f);
    forall p: nat | p < f.numBytes ensures a[p] == b[p] {
      assert a[p] == ByteAt(sb, v, f, p) && b[p] == ByteAt(sb, v', f, p);
      assert p / BLOCK_SIZE * BLOCK_SIZE <= p;
    }
  }

  /** Files other than n, with their contents. */
  ghost predicate OthersSame(sb: SuperBlock, v: Disk, ds: Dinodes, v': Disk, ds': Dinodes, n: nat) {
    && EachOk(sb, v, ds) && EachOk(sb, v', ds') && ds'.Keys == ds.Keys
    && forall i | i in ds && i != n ::
          ds'[i] == ds[i] && (Filled(sb, v, ds[i]) ==>
          Filled(sb, v', ds[i]) && Content(sb, v', ds[i]) == Content(sb, v, ds[i]))
  }

  /** An operation that keeps what is foreign to its inode keeps the whole file system and every other file. */
  lemma {:induction false} FileChanged(sb: SuperBlock, v: Disk, ds: Dinodes, n: nat, v': Disk, e': InodeEntry)
    requires FsOk(sb, v, ds) && n in ds && Kept(sb, v, ds[n], v', e') && (e'.kind == INODE_INVALID ==> NoBlocks(e'))
    ensures FsOk(sb, v', ds[n := e']) && OthersSame(sb, v, ds, v', ds[n := e'], n)
  {
    var ds' := ds[n := e'];
    forall i | i in ds && i != n ensures OtherOk(sb, v, v', ds[i]) { OneOther(sb, v, ds, n, v', e', i); }
    hide Kept, Mapped, Owns, Filled, Content, SameBlocks;
    assert EachOk(sb, v', ds');
    assert FsOk(sb, v', ds') by { Partition(sb, v, ds, n, v', e'); }
  }

  ghost predicate OtherOk(sb: SuperBlock, v: Disk, v': Disk, f: InodeEntry) {
    && FileOk(sb, v, f) && FileOk(sb, v', f)
    && (forall c: nat :: Owns(sb, v', f, c) <==> Owns(sb, v, f, c))
    && (Filled(sb, v, f) ==> Filled(sb, v', f) && Content(sb, v', f) == Content(sb, v, f))
  }

  lemma {:induction false} OneOther(sb: SuperBlock, v: Disk, ds: Dinodes, n: nat, v': Disk, e': InodeEntry, i: nat)
    requires FsOk(sb, v, ds) && n in ds && Kept(sb, v, ds[n], v', e') && i in ds && i != n
    ensures OtherOk(sb, v, v', ds[i])
  {
    hide Kept, Mapped, Filled, Content, SameBlocks;
    forall c: nat | Owns(sb, v, ds[i], c) ensures Foreign(sb, v, ds[n], c) {
      OwnedIsData(sb, v, ds[i], c);
      assert Owner(sb, v, ds, i, c) && !Owner(sb, v, ds, n, c);
    }
    OtherUntouched(sb, v, ds[n], v', e', ds[i]);
    if Filled(sb, v, ds[i]) { ContentUntouched(sb, v, v', ds[i]); }
  }

  lemma {:induction false} Partition(sb: SuperBlock, v: Disk, ds: Dinodes, n: nat, v': Disk, e': InodeEntry)
    requires FsOk(sb, v, ds) && n in ds && Kept(sb, v, ds[n], v', e') && EachOk(sb, v', ds[n := e'])
    requires forall i | i in ds && i != n :: OtherOk(sb, v, v', ds[i])
    ensures FsOk(sb, v', ds[n := e'])
  {
    hide Mapped, Owns, Filled, Content, DataBlock;
    var ds' := ds[n := e'];
    assert Mapped(sb, v');
    forall i: nat, c: nat | i != n ensures Owner(sb, v', ds', i, c) <==> Owner(sb, v, ds, i, c) {
      if i in ds { assert OtherOk(sb, v, v', ds[i]); }
    }
    forall i: nat, c: nat | i != n && Owner(sb, v, ds, i, c) ensures !Owner(sb, v', ds', n, c) {
      OwnedIsData(sb, v, ds[i], c);
      assert !Owner(sb, v, ds, n, c);
      assert Foreign(sb, v, ds[n], c) && Foreign(sb, v', e', c);
    }
    forall c: nat | DataBlock(sb, v', c) ensures exists i: nat :: Owner(sb, v', ds', i, c) {
      if Owns(sb, v', e', c) {
        assert Owner(sb, v', ds', n, c);
      } else {
        assert Foreign(sb, v', e', c) && Foreign(sb, v, ds[n], c);
        var i: nat :| Owner(sb, v, ds, i, c);
        assert Owner(sb, v', ds', i, c);
      }
    }
  }

  // ----- inodes come and go -----

  predicate Chosen(ds: Dinodes, n: nat) {
    n in ds && ds[n].kind == INODE_INVALID && forall j: nat | 1 <= j < n :: j in ds && ds[j].kind != INODE_INVALID
  }

  /** `inode_alloc`: the first free inode from 1 on becomes an empty file; it panics when there is none. */
  method InodeAlloc(vol: Volume, kind: nat) returns (ok: bool, n: nat)
    requires FsOk(vol.sb, vol.view, vol.dinodes) && kind != INODE_INVALID
    requires forall i: nat | i < vol.sb.numInodes :: i in vol.dinodes
    modifies vol`dinodes, vol`synced
    ensures ok <==> exists i: nat :: 1 <= i < vol.sb.numInodes && old(vol.dinodes)[i].kind == INODE_INVALID
    ensures !ok ==> vol.dinodes == old(vol.dinodes)
    ensures ok ==> 1 <= n < vol.sb.numInodes && Chosen(old(vol.dinodes), n)
    ensures ok ==>
            vol.dinodes == old(vol.dinodes)[n := InodeEntry(kind, 0, 0, NO_BLOCKS, 0)]
            && FileOk(vol.sb, vol.view, vol.dinodes[n])
    ensures vol.synced == old(vol.synced) + if ok then {InodeBlock(vol.sb, n)} else {}
    ensures FsOk(vol.sb, vol.view, vol.dinodes)
            && OthersSame(vol.sb, vol.view, old(vol.dinodes), vol.view, vol.dinodes, n)
  {
    hide FsOk, EachOk, OthersSame, FileOk;
    var i := 1;
    while i < vol.sb.numInodes
      invariant 1 <= i && forall j: nat | 1 <= j < i :: j in vol.dinodes && vol.dinodes[j].kind != INODE_INVALID
    {
      if vol.dinodes[i].kind == INODE_INVALID {
        var entry := InodeEntry(kind, 0, 0, NO_BLOCKS, 0);
        Claimed(vol.sb, vol.view, vol.dinodes, i, entry);
        vol.dinodes := vol.dinodes[i := entry];
        vol.synced := vol.synced + {InodeBlock(vol.sb, i)};
        return true, i;
      }
      i := i + 1;
    }
    NothingChanged(vol.sb, vol.view, vol.dinodes, 0);
    ok, n := false, 0;
  }

  lemma {:induction false} NothingChanged(sb: SuperBlock, v: Disk, ds: Dinodes, n: nat)
    requires FsOk(sb, v, ds)
    ensures OthersSame(sb, v, ds, v, ds, n)
  {
  }

  lemma {:induction false} Claimed(sb: SuperBlock, v: Disk, ds: Dinodes, n: nat, e: InodeEntry)
    requires FsOk(sb, v, ds) && n in ds && ds[n].kind == INODE_INVALID && NoBlocks(e) && e.kind != INODE_INVALID
    ensures FileOk(sb, v, e) && FsOk(sb, v, ds[n := e]) && OthersSame(sb, v, ds, v, ds[n := e], n)
  {
    hide Mapped;
    NoneOwned(sb, v, e);
    KeptSame(sb, v, ds[n], e);
    FileChanged(sb, v, ds, n, v, e);
  }

  /** `inode_put`: the last reference to an unlinked file frees the inode and exactly its blocks. */
  method InodePut(vol: Volume, ino: Inode) returns (freed: bool)
    requires FsOk(vol.sb, vol.view, vol.dinodes) && ino.no in vol.dinodes && vol.dinodes[ino.no] == ino.entry
             && ino.rc > 0
    modifies ino, vol`view, vol`dinodes, vol`synced
    ensures ino.rc == old(ino.rc) - 1 && (freed <==> ino.rc == 0 && old(ino.entry).numLinks == 0)
    ensures !freed ==> vol.view == old(vol.view) && vol.dinodes == old(vol.dinodes) && ino.entry == old(ino.entry)
    ensures freed ==>
            vol.dinodes == old(vol.dinodes)[ino.no :=
            old(ino.entry).(kind := INODE_INVALID, addrs := NO_BLOCKS, indirect := 0, numBytes := 0)]
    ensures vol.synced == old(vol.synced)
              + (if freed then ClearBlocks(vol.sb, old(vol.view), old(ino.entry), ino.no) else {})
    ensures Covered(old(vol.view), old(vol.synced), vol.view, vol.synced)
    ensures freed ==> Kept(vol.sb, old(vol.view), old(ino.entry), vol.view, vol.dinodes[ino.no])
    ensures FsOk(vol.sb, vol.view, vol.dinodes)
            && OthersSame(vol.sb, old(vol.view), old(vol.dinodes), vol.view, vol.dinodes, ino.no)
  {
    hide FsOk, EachOk, OthersSame, FileOk, Kept, Filled, Content, Owns, Covered, ClearBlocks;
    CoveredSelf(vol.view, vol.synced, vol.synced);
    ino.rc := ino.rc - 1;
    freed := ino.rc == 0 && ino.entry.numLinks == 0;
    NothingChanged(vol.sb, vol.view, vol.dinodes, ino.no);
    if freed {
      ino.entry := ino.entry.(kind := INODE_INVALID);
      Retyped(vol.sb, vol.view, vol.dinodes, ino.no, ino.entry);
      ghost var e := ino.entry;
      ino.Clear(vol);
      ghost var s1 := vol.synced;
      ino.Sync(vol);
      InodeIsCleared(vol.sb, old(vol.view), old(ino.entry), e, ino.no);
      assert vol.synced == s1;
      KeptTrans(vol.sb, old(vol.view), old(ino.entry), old(vol.view), e, vol.view, ino.entry);
      FileChanged(vol.sb, old(vol.view), old(vol.dinodes), ino.no, vol.view, ino.entry);
    }
  }

  /** The type is not among what decides which blocks are freed. */
  lemma {:induction false} InodeIsCleared(sb: SuperBlock, v: Disk, e: InodeEntry, e': InodeEntry, no: nat)
    requires e' == e.(kind := e'.kind)
    ensures ClearBlocks(sb, v, e', no) == ClearBlocks(sb, v, e, no) && InodeBlock(sb, no) in ClearBlocks(sb, v, e, no)
  {
    hide MapBlocks, BlockNo;
    forall k: nat | k < INODE_MAX_BLOCKS ensures BlockNo(v, e', k) == BlockNo(v, e, k) { SameNumbers(v, e, e', k); }
    assert Direct(v, e') == Direct(v, e) && Indirect(v, e') == Indirect(v, e);
  }

  lemma {:induction false} SameNumbers(v: Disk, e: InodeEntry, e': InodeEntry, k: nat)
    requires e' == e.(kind := e'.kind) && k < INODE_MAX_BLOCKS
    ensures BlockNo(v, e', k) == BlockNo(v, e, k)
  {
  }

  /** Freeing a file is safe in one operation if and only if its blocks lie under few enough bitmap blocks. */
  lemma {:induction false} PutNeverPanics(sb: SuperBlock, v: Disk, e: InodeEntry, no: nat)
    ensures LogProtocol.NeverPanics(ClearBlocks(sb, v, e, no)) <==> |ClearBlocks(sb, v, e, no)| <= OP_MAX_NUM_BLOCKS
  {
    LogProtocol.NeverPanicsExactly(ClearBlocks(sb, v, e, no));
  }

  /** On a volume of at most nine bitmap blocks, 36864 blocks, that is every file. */
  lemma {:induction false} SmallVolumePut(sb: SuperBlock, v: Disk, e: InodeEntry, no: nat)
    requires FileOk(sb, v, e) && sb.numBlocks <= 9 * BITS_PER_BLOCK
    ensures LogProtocol.NeverPanics(ClearBlocks(sb, v, e, no))
  {
    hide FileOk, LogProtocol.NeverPanics, Direct, Indirect, Owns, Mapped, Used;
    var maps := Span(sb.bitmapStart, 9);
    var s := ClearBlocks(sb, v, e, no);
    OwnsIs(sb, v, e);
    forall b | b in Direct(v, e) + Indirect(v, e) ensures MapBlock(sb, b) in maps {
      OwnedIsData(sb, v, e, b);
      assert b / BITS_PER_BLOCK < 9;
    }
    SubsetSize(s, maps + {InodeBlock(sb, no)});
    LogProtocol.SmallNeverPanics(s);
  }

  /** Nine is the limit: a full volume of ten bitmap blocks, and a file with one block under each of them. */
  function SpreadVolume(): SuperBlock {
    SuperBlock(10 * BITS_PER_BLOCK, 2, 66, 67, 77, 8)
  }

  function Ones(): Data {
    seq(BLOCK_SIZE, i => 255)
  }

  predicate OnVolume(b: nat) {
    b < 10 * BITS_PER_BLOCK
  }

  function SpreadDisk(): (v: Disk)
    ensures forall b: nat :: (b in v <==> OnVolume(b)) && (OnVolume(b) ==> v[b] == Ones())
  {
    map b: nat | b < 10 * BITS_PER_BLOCK && OnVolume(b) :: Ones()
  }

  function SpreadFile(): InodeEntry {
    InodeEntry(2, 0, 10 * BLOCK_SIZE, [100, 4196, 8292, 12388, 16484, 20580, 24676, 28772, 32868, 36964, 0, 0], 0)
  }

  lemma {:induction false} SpreadFilePanics()
    ensures FileOk(SpreadVolume(), SpreadDisk(), SpreadFile())
    ensures Filled(SpreadVolume(), SpreadDisk(), SpreadFile())
    ensures !LogProtocol.NeverPanics(ClearBlocks(SpreadVolume(), SpreadDisk(), SpreadFile(), 1))
  {
    hide LogProtocol.NeverPanics;
    SpreadOk();
    SpreadClears();
    PutNeverPanics(SpreadVolume(), SpreadDisk(), SpreadFile(), 1);
  }

  lemma {:induction false} SpreadOk()
    ensures FileOk(SpreadVolume(), SpreadDisk(), SpreadFile())
    ensures Filled(SpreadVolume(), SpreadDisk(), SpreadFile())
  {
    hide SpreadDisk, Ones, Used, AddrAt;
    var sb, v, e := SpreadVolume(), SpreadDisk(), SpreadFile();
    forall b: nat | b < sb.numBlocks
      ensures b in v && MapBlock(sb, b) in v && MapBlock(sb, b) < sb.dataStart && Used(sb, v, b)
    {
      assert OnVolume(b) && OnVolume(MapBlock(sb, b));
      UsedOnes(sb, v, b);
    }
    forall k: nat | k < INODE_MAX_BLOCKS ensures BlockNo(v, e, k) == if k < INODE_NUM_DIRECT then e.addrs[k] else 0 {}
  }

  lemma {:induction false} UsedOnes(sb: SuperBlock, v: Disk, b: nat)
    requires MapBlock(sb, b) in v && v[MapBlock(sb, b)] == Ones()
    ensures Used(sb, v, b)
  {
    AllOnes(b % 8);
  }

  lemma {:induction false} AllOnes(k: nat)
    requires k < 8
    ensures Bits.Bit(255, k)
  {
    assert k == 0 || k == 1 || k == 2 || k == 3 || k == 4 || k == 5 || k == 6 || k == 7;
  }

  lemma {:induction false} SpreadClears()
    ensures |ClearBlocks(SpreadVolume(), SpreadDisk(), SpreadFile(), 1)| > OP_MAX_NUM_BLOCKS
  {
    hide SpreadVolume, SpreadDisk, ClearBlocks, SpreadFile;
    var s := ClearBlocks(SpreadVolume(), SpreadDisk(), SpreadFile(), 1);
    forall b: nat | 66 <= b < 77 ensures b in s { OneCleared(if b == 66 then 0 else b - 67); }
    Eleven(s, 66);
  }

  lemma {:induction false} Eleven(s: set<nat>, lo: nat)
    requires forall b: nat | lo <= b < lo + 11 :: b in s
    ensures |s| >= 11
  {
    SubsetSize(Span(lo, 11), s);
  }

  lemma {:induction false} OneCleared(i: nat)
    requires i < 10
    ensures {66, 67 + i} <= ClearBlocks(SpreadVolume(), SpreadDisk(), SpreadFile(), 1)
  {
    hide SpreadDisk, AddrAt;
    var sb, v, e := SpreadVolume(), SpreadDisk(), SpreadFile();
    var b := BlockNo(v, e, i);
    assert b == 4096 * i + 100;
    assert b in Between(v, e, 0, INODE_NUM_DIRECT) && MapBlock(sb, b) == 67 + i;
  }

  function Span(lo: nat, n: nat): (s: set<nat>)
    ensures |s| == n && forall b: nat :: b in s <==> lo <= b < lo + n
  {
    if n == 0 then {} else Span(lo, n - 1) + {lo + n - 1}
  }

  lemma {:induction false} Retyped(sb: SuperBlock, v: Disk, ds: Dinodes, n: nat, e: InodeEntry)
    requires FsOk(sb, v, ds) && n in ds && e == ds[n].(kind := e.kind)
    ensures FileOk(sb, v, e) && Kept(sb, v, ds[n], v, e)
  {
    hide Mapped;
    KeptSame(sb, v, ds[n], e);
  }

  // ----- open files -----

  class File {
    const readable: bool
    const writable: bool
    const ip: Inode
    var off: nat

    constructor (readable: bool, writable: bool, ip: Inode)
      ensures this.readable == readable && this.writable == writable && this.ip == ip && off == 0
    {
      this.readable, this.writable, this.ip, off := readable, writable, ip, 0;
    }
  }

  /** `file_read` of a regular file. */
  method FileRead(vol: Volume, f: File, n: nat) returns (r: int, data: seq<byte>)
    requires FileOk(vol.sb, vol.view, f.ip.entry) && Filled(vol.sb, vol.view, f.ip.entry)
             && f.off <= f.ip.entry.numBytes
    modifies f`off
    ensures !f.readable ==> r == -1 && f.off == old(f.off)
    ensures f.readable ==> f.off == old(f.off) + r && 0 <= r <= n && f.off <= f.ip.entry.numBytes
    ensures f.readable ==>
            r == |data| && data == Content(vol.sb, vol.view, f.ip.entry)[old(f.off)..f.off]
            && (r == n || f.off == f.ip.entry.numBytes)
  {
    hide FileOk, Filled, Content;
    if !f.readable { return -1, []; }
    var count;
    data, count := f.ip.Read(vol, f.off, n);
    r := count;
    if r > 0 { f.off := f.off + count; }
  }

  lemma {:induction false} TwoWrites(c: seq<byte>, a: seq<byte>, b: seq<byte>, off: nat)
    requires off <= |c|
    ensures off + |a| <= |Overwritten(c, a, off)|
    ensures Overwritten(Overwritten(c, a, off), b, off + |a|) == Overwritten(c, a + b, off)
  {
  }

  /** Where a chunked write stands after the first `done` bytes. */
  ghost predicate Chunked(sb: SuperBlock, v0: Disk, e0: InodeEntry, v: Disk, e: InodeEntry, done: seq<byte>, off: nat)
    requires FileOk(sb, v0, e0) && Filled(sb, v0, e0) && off <= e0.numBytes
  {
    && Kept(sb, v0, e0, v, e) && FileOk(sb, v, e) && Filled(sb, v, e) && e.kind == e0.kind
    && Content(sb, v, e) == Overwritten(Content(sb, v0, e0), done, off)
  }

  lemma {:induction false} ChunkFirst(sb: SuperBlock, v: Disk, e: InodeEntry, off: nat)
    requires FileOk(sb, v, e) && Filled(sb, v, e) && off <= e.numBytes
    ensures Chunked(sb, v, e, v, e, [], off)
  {
    hide FileOk, Filled;
    KeptSame(sb, v, e, e);
    assert Overwritten(Content(sb, v, e), [], off) == Content(sb, v, e);
  }

  lemma {:induction false} ChunkNext(sb: SuperBlock, v0: Disk, e0: InodeEntry, v: Disk, e: InodeEntry, v': Disk,
                                     e': InodeEntry, done: seq<byte>, more: seq<byte>, off: nat)
    requires FileOk(sb, v0, e0) && Filled(sb, v0, e0) && off <= e0.numBytes && Chunked(sb, v0, e0, v, e, done, off)
    requires Kept(sb, v, e, v', e') && FileOk(sb, v', e') && Filled(sb, v', e') && off + |done| <= e.numBytes
             && e'.kind == e.kind
    requires Content(sb, v', e') == Overwritten(Content(sb, v, e), more, off + |done|)
    ensures Chunked(sb, v0, e0, v', e', done + more, off)
  {
    hide FileOk, Filled, Content, Overwritten;
    KeptTrans(sb, v0, e0, v, e, v', e');
    TwoWrites(Content(sb, v0, e0), done, more, off);
  }

  lemma {:induction false} ChunkRoom(sb: SuperBlock, v0: Disk, e0: InodeEntry, v: Disk, e: InodeEntry,
                                     done: seq<byte>, off: nat)
    requires FileOk(sb, v0, e0) && Filled(sb, v0, e0) && off <= e0.numBytes && Chunked(sb, v0, e0, v, e, done, off)
    ensures FileOk(sb, v, e) && Filled(sb, v, e) && off + |done| <= e.numBytes
  {
    hide FileOk, Filled, Content;
  }

  /**
    `file_write` of a regular file: however many operations it takes, the file ends up as one whole
    write would leave it.  `chunks` is what each operation synchronises: at most ten blocks, so that
    `cache_sync` panics in none of them, whatever other threads log at the same time.  `views` is what
    readers see before, between and after the operations: each changes only what it synchronises.
    `ok` is false when the disk fills up, which stops the machine.
   */
  method FileWrite(vol: Volume, f: File, src: seq<byte>)
    returns (ok: bool, r: int, ghost chunks: seq<set<nat>>, ghost views: seq<Disk>)
    requires FsOk(vol.sb, vol.view, vol.dinodes) && f.ip.no in vol.dinodes && vol.dinodes[f.ip.no] == f.ip.entry
             && f.ip.entry.kind != INODE_INVALID
    requires FileOk(vol.sb, vol.view, f.ip.entry) && Filled(vol.sb, vol.view, f.ip.entry)
    requires f.off <= f.ip.entry.numBytes && f.off + |src| <= INODE_MAX_BYTES
    modifies f`off, f.ip`entry, vol`view, vol`dinodes, vol`synced
    ensures !f.writable ==>
            ok && r == -1 && vol.view == old(vol.view) && vol.dinodes == old(vol.dinodes) && f.off == old(f.off)
    ensures forall i | 0 <= i < |chunks| :: |chunks[i]| <= OP_MAX_NUM_BLOCKS && LogProtocol.NeverPanics(chunks[i])
    ensures Steps(views, chunks) && views[0] == old(vol.view) && (ok ==> views[|chunks|] == vol.view)
    ensures ok && f.writable ==>
            r == |src| && f.off == old(f.off) + |src| && |chunks| == (|src| + MAX_CHUNK - 1) / MAX_CHUNK
    ensures ok && f.writable ==> FileOk(vol.sb, vol.view, f.ip.entry) && Filled(vol.sb, vol.view, f.ip.entry)
    ensures ok && f.writable ==>
            Content(vol.sb, vol.view, f.ip.entry) ==
            Overwritten(old(Content(vol.sb, vol.view, f.ip.entry)), src, old(f.off))
    ensures ok ==>
            FsOk(vol.sb, vol.view, vol.dinodes)
            && OthersSame(vol.sb, old(vol.view), old(vol.dinodes), vol.view, vol.dinodes, f.ip.no)
    ensures !ok ==> Exhausted(vol.sb, vol.view)
  {
    hide FsOk, EachOk, FileOk, Filled, Kept, Content, Overwritten, OthersSame, Exhausted, Chunked,
        LogProtocol.NeverPanics, Covered, Steps;
    ok, chunks, views := true, [], [vol.view];
    NoSteps(vol.view);
    NothingChanged(vol.sb, vol.view, vol.dinodes, f.ip.no);
    if !f.writable { r := -1; return; }
    var idx := 0;
    ghost var v0, e0, off := vol.view, f.ip.entry, f.off;
    ChunkFirst(vol.sb, v0, e0, off);
    assert src[..0] == [];
    while idx < |src|
      invariant 0 <= idx <= |src| && f.off == off + idx
      invariant Chunked(vol.sb, v0, e0, vol.view, f.ip.entry, src[..idx], off)
      invariant vol.dinodes == old(vol.dinodes)[f.ip.no := f.ip.entry]
      invariant |chunks| * MAX_CHUNK == idx || (idx == |src| && |chunks| == (|src| + MAX_CHUNK - 1) / MAX_CHUNK)
      invariant |views| == |chunks| + 1 && Steps(views, chunks)
      invariant views[0] == old(vol.view) && views[|chunks|] == vol.view
      invariant forall i | 0 <= i < |chunks| :: |chunks[i]| <= OP_MAX_NUM_BLOCKS && LogProtocol.NeverPanics(chunks[i])
    {
      var len := Min(|src| - idx, MAX_CHUNK);
      vol.synced := {};
      ghost var v1, e1 := vol.view, f.ip.entry;
      ChunkRoom(vol.sb, v0, e0, v1, e1, src[..idx], off);
      ok := f.ip.Write(vol, src[idx..idx + len], f.off);
      if !ok { r := 0; return; }
      ChunkNext(vol.sb, v0, e0, v1, e1, vol.view, f.ip.entry, src[..idx], src[idx..idx + len], off);
      assert src[..idx] + src[idx..idx + len] == src[..idx + len];
      assert vol.synced - {} == vol.synced;
      LogProtocol.SmallNeverPanics(vol.synced);
      OneStep(views, chunks, vol.view, vol.synced);
      chunks, views := chunks + [vol.synced], views + [vol.view];
      f.off := f.off + len;
      idx := idx + len;
    }
    assert src[..idx] == src;
    r := idx;
    WholeWrite(vol.sb, v0, old(vol.dinodes), f.ip.no, vol.view, f.ip.entry, src, off);
  }

  /** One operation after the other: operation i takes views[i] to views[i + 1] and synchronises chunks[i]. */
  ghost predicate Steps(views: seq<Disk>, chunks: seq<set<nat>>) {
    |views| == |chunks| + 1 && forall i | 0 <= i < |chunks| :: Covered(views[i], {}, views[i + 1], chunks[i])
  }

  lemma {:induction false} NoSteps(v: Disk)
    ensures Steps([v], [])
  {
  }

  lemma {:induction false} OneStep(views: seq<Disk>, chunks: seq<set<nat>>, v: Disk, s: set<nat>)
    requires Steps(views, chunks) && Covered(views[|chunks|], {}, v, s)
    ensures Steps(views + [v], chunks + [s])
  {
    hide Covered;
  }

  lemma {:induction false} WholeWrite(sb: SuperBlock, v0: Disk, ds: Dinodes, n: nat, v: Disk, e: InodeEntry,
                                      src: seq<byte>, off: nat)
    requires FsOk(sb, v0, ds) && n in ds && ds[n].kind != INODE_INVALID && FileOk(sb, v0, ds[n])
             && Filled(sb, v0, ds[n]) && off <= ds[n].numBytes
    requires Chunked(sb, v0, ds[n], v, e, src, off)
    ensures FsOk(sb, v, ds[n := e]) && OthersSame(sb, v0, ds, v, ds[n := e], n)
    ensures FileOk(sb, v, e) && Filled(sb, v, e) && Content(sb, v, e) == Overwritten(Content(sb, v0, ds[n]), src, off)
  {
    hide FsOk, FileOk, Filled, Kept, Content, Overwritten, OthersSame;
    FileChanged(sb, v0, ds, n, v, e);
  }
}
