/**
  Files of `src/fs/inode.c`: twelve direct block numbers and an indirect block, seen as one flat
  byte sequence; which blocks a file owns; and what reading and writing do to both.
 */
module Inodes {
  import opened Common
  import opened LogHeaders
  import opened BlockAlloc

  const INODE_NUM_DIRECT := 12
  const INODE_NUM_INDIRECT := 128
  const INODE_MAX_BLOCKS := 140
  const INODE_MAX_BYTES := 71680       // INODE_MAX_BLOCKS * BLOCK_SIZE
  const INODE_PER_BLOCK := 8
  const MAX_CHUNK := 1536              // (OP_MAX_NUM_BLOCKS - 4) / 2 * BLOCK_SIZE
  const NO_BLOCKS: Addrs := [0, 0, 0, 0, 0, 0, 0, 0, 0, 0, 0, 0]

  // ----- the indirect block: 128 little-endian u32 -----

  type u32 = n: int | 0 <= n < 0x1_0000_0000

  function AddrAt(d: Data, i: nat): nat
    requires i < INODE_NUM_INDIRECT
  {
    Value(d[4 * i..4 * i + 4])
  }

  function WithAddr(d: Data, i: nat, v: u32): (r: Data)
    requires i < INODE_NUM_INDIRECT
  {
    d[..4 * i] + Bytes(v, 4) + d[4 * i + 4..]
  }

  lemma {:induction false} AddrOfWith(d: Data, i: nat, v: u32, j: nat)
    requires i < INODE_NUM_INDIRECT && j < INODE_NUM_INDIRECT
    ensures AddrAt(WithAddr(d, i, v), j) == if j == i then v else AddrAt(d, j)
  {
    var r := WithAddr(d, i, v);
    if j == i {
      assert r[4 * i..4 * i + 4] == Bytes(v, 4);
      assert Pow256(4) == 0x1_0000_0000;
      ValueBytes(v, 4);
    } else {
      assert r[4 * j..4 * j + 4] == d[4 * j..4 * j + 4];
    }
  }

  lemma {:induction false} ValueZero(b: seq<byte>)
    requires forall i :: 0 <= i < |b| ==> b[i] == 0
    ensures Value(b) == 0
  {
    if b != [] { ValueZero(b[1..]); }
  }

  lemma {:induction false} AddrOfZeros(i: nat)
    requires i < INODE_NUM_INDIRECT
    ensures AddrAt(Zeros(), i) == 0
  {
    ValueZero(Zeros()[4 * i..4 * i + 4]);
  }

  // ----- which block holds which part of the file -----

  /** The block number of file block k, or 0. */
  ghost function BlockNo(view: Disk, e: InodeEntry, k: nat): nat
    requires k < INODE_MAX_BLOCKS
  {
    if k < INODE_NUM_DIRECT then e.addrs[k]
    else if e.indirect == 0 || e.indirect !in view then 0
    else AddrAt(view[e.indirect], k - INODE_NUM_DIRECT)
  }

  ghost predicate DataBlock(sb: SuperBlock, view: Disk, b: nat)
    requires Mapped(sb, view)
  {
    sb.dataStart <= b < sb.numBlocks && Used(sb, view, b)
  }

  /** The blocks of one file are allocated data blocks, all different. */
  ghost predicate FileOk(sb: SuperBlock, view: Disk, e: InodeEntry) {
    && Mapped(sb, view) && 0 < sb.dataStart && sb.numBlocks < 0x1_0000_0000
    && (e.indirect != 0 ==> DataBlock(sb, view, e.indirect))
    && (forall k: nat | k < INODE_MAX_BLOCKS && BlockNo(view, e, k) != 0 ::
          DataBlock(sb, view, BlockNo(view, e, k)) && BlockNo(view, e, k) != e.indirect)
    && (forall j: nat, k: nat | j < k < INODE_MAX_BLOCKS && BlockNo(view, e, j) != 0 ::
          BlockNo(view, e, j) != BlockNo(view, e, k))
  }

  ghost predicate Owns(sb: SuperBlock, view: Disk, e: InodeEntry, b: nat)
    requires FileOk(sb, view, e)
  {
    b != 0 && (b == e.indirect || exists k: nat :: k < INODE_MAX_BLOCKS && BlockNo(view, e, k) == b)
  }

  /** Every byte of the file lies in a mapped block. */
  ghost predicate Filled(sb: SuperBlock, view: Disk, e: InodeEntry)
    requires FileOk(sb, view, e)
  {
    && e.numBytes <= INODE_MAX_BYTES
    && forall k: nat | k < INODE_MAX_BLOCKS && k * BLOCK_SIZE < e.numBytes :: BlockNo(view, e, k) != 0
  }

  ghost function ByteAt(sb: SuperBlock, view: Disk, e: InodeEntry, p: nat): byte
    requires FileOk(sb, view, e) && p < INODE_MAX_BYTES && BlockNo(view, e, p / BLOCK_SIZE) != 0
  {
    view[BlockNo(view, e, p / BLOCK_SIZE)][p % BLOCK_SIZE]
  }

  /** The file as a flat byte sequence. */
  ghost function Content(sb: SuperBlock, view: Disk, e: InodeEntry): (c: seq<byte>)
    requires FileOk(sb, view, e) && Filled(sb, view, e)
    ensures |c| == e.numBytes && forall p: nat | p < e.numBytes :: c[p] == ByteAt(sb, view, e, p)
  {
    seq(e.numBytes, p requires 0 <= p < e.numBytes => ByteAt(sb, view, e, p))
  }

  // ----- one file changes, the others do not -----

  /** In use, but not by this file. */
  ghost predicate Foreign(sb: SuperBlock, view: Disk, e: InodeEntry, c: nat)
    requires FileOk(sb, view, e)
  {
    DataBlock(sb, view, c) && !Owns(sb, view, e, c)
  }

  /** Blocks of other files stay theirs, with the same contents, and no block is lost or gained outside this file. */
  ghost predicate Kept(sb: SuperBlock, v: Disk, e: InodeEntry, v': Disk, e': InodeEntry) {
    && FileOk(sb, v, e) && FileOk(sb, v', e') && v'.Keys == v.Keys
    && (forall c: nat :: Foreign(sb, v', e', c) <==> Foreign(sb, v, e, c))
    && (forall c: nat | Foreign(sb, v, e, c) :: v'[c] == v[c])
  }

  lemma {:induction false} KeptTrans(sb: SuperBlock, v: Disk, e: InodeEntry, v1: Disk, e1: InodeEntry, v2: Disk,
                                     e2: InodeEntry)
    requires Kept(sb, v, e, v1, e1) && Kept(sb, v1, e1, v2, e2)
    ensures Kept(sb, v, e, v2, e2)
  {
  }

  lemma {:induction false} KeptSame(sb: SuperBlock, v: Disk, e: InodeEntry, e': InodeEntry)
    requires FileOk(sb, v, e) && e'.addrs == e.addrs && e'.indirect == e.indirect
    ensures Kept(sb, v, e, v, e') && forall k: nat | k < INODE_MAX_BLOCKS :: BlockNo(v, e', k) == BlockNo(v, e, k)
  {
    forall k: nat | k < INODE_MAX_BLOCKS ensures BlockNo(v, e', k) == BlockNo(v, e, k) {}
  }

  /** File block k is now b; every other file block is where it was. */
  ghost predicate MapsTo(sb: SuperBlock, v: Disk, e: InodeEntry, v': Disk, e': InodeEntry, k: nat, b: nat) {
    && FileOk(sb, v, e) && FileOk(sb, v', e') && k < INODE_MAX_BLOCKS && b != 0
    && BlockNo(v', e', k) == b && (if BlockNo(v, e, k) != 0 then b == BlockNo(v, e, k) else v'[b] == Zeros())
    && (forall j: nat | j < INODE_MAX_BLOCKS && j != k :: BlockNo(v', e', j) == BlockNo(v, e, j))
    && (forall j: nat | j < INODE_MAX_BLOCKS && BlockNo(v, e, j) != 0 :: v'[BlockNo(v, e, j)] == v[BlockNo(v, e, j)])
    && e' == e.(addrs := e'.addrs, indirect := e'.indirect)
  }

  /** After an allocation data blocks in use hold what they held. */
  lemma {:induction false} AllocKeeps(sb: SuperBlock, v: Disk, v': Disk, b: nat, c: nat)
    requires Mapped(sb, v) && sb.dataStart <= b < sb.numBlocks && !Used(sb, v, b) && Allocated(sb, v, v', b)
    ensures DataBlock(sb, v', c) <==> c == b || DataBlock(sb, v, c)
    ensures DataBlock(sb, v, c) ==> v'[c] == v[c]
  {
    assert MapBlock(sb, b) < sb.dataStart;
  }

  /** A direct block is allocated. */
  lemma {:induction false} DirectMapped(sb: SuperBlock, v: Disk, v': Disk, e: InodeEntry, k: nat, b: nat)
    requires FileOk(sb, v, e) && k < INODE_NUM_DIRECT && e.addrs[k] == 0
    requires sb.dataStart <= b < sb.numBlocks && !Used(sb, v, b) && Allocated(sb, v, v', b)
    ensures var e' := e.(addrs := e.addrs[k := b]); Kept(sb, v, e, v', e') && MapsTo(sb, v, e, v', e', k, b)
  {
    var e' := e.(addrs := e.addrs[k := b]);
    forall c: nat
      ensures (DataBlock(sb, v', c) <==> c == b || DataBlock(sb, v, c)) && (DataBlock(sb, v, c) ==> v'[c] == v[c])
    {
      AllocKeeps(sb, v, v', b, c);
    }
    forall j: nat | j < INODE_MAX_BLOCKS ensures BlockNo(v', e', j) == if j == k then b else BlockNo(v, e, j) {}
    assert FileOk(sb, v', e');
    OwnsMore(sb, v, e, v', e', k, b);
  }

  lemma {:induction false} OwnsMore(sb: SuperBlock, v: Disk, e: InodeEntry, v': Disk, e': InodeEntry, k: nat, b: nat)
    requires FileOk(sb, v, e) && FileOk(sb, v', e') && k < INODE_MAX_BLOCKS && b != 0 && e'.indirect == e.indirect
             && BlockNo(v, e, k) == 0
    requires forall j: nat | j < INODE_MAX_BLOCKS :: BlockNo(v', e', j) == if j == k then b else BlockNo(v, e, j)
    ensures forall c: nat :: Owns(sb, v', e', c) <==> c == b || Owns(sb, v, e, c)
  {
    forall c: nat ensures Owns(sb, v', e', c) <==> c == b || Owns(sb, v, e, c) {
      if Owns(sb, v, e, c) && c != e.indirect {
        var j: nat :| j < INODE_MAX_BLOCKS && BlockNo(v, e, j) == c;
        assert BlockNo(v', e', j) == c;
      }
      if c == b { assert BlockNo(v', e', k) == b; }
    }
  }

  /** The indirect block itself is allocated: it is all zeros, so it maps nothing yet. */
  lemma {:induction false} IndirectMade(sb: SuperBlock, v: Disk, v': Disk, e: InodeEntry, b: nat)
    requires FileOk(sb, v, e) && e.indirect == 0
    requires sb.dataStart <= b < sb.numBlocks && !Used(sb, v, b) && Allocated(sb, v, v', b)
    ensures var e' := e.(indirect := b); Kept(sb, v, e, v', e') && SameBlocks(sb, v, e, v', e')
  {
    var e' := e.(indirect := b);
    forall c: nat
      ensures (DataBlock(sb, v', c) <==> c == b || DataBlock(sb, v, c)) && (DataBlock(sb, v, c) ==> v'[c] == v[c])
    {
      AllocKeeps(sb, v, v', b, c);
    }
    forall j: nat | j < INODE_MAX_BLOCKS ensures BlockNo(v', e', j) == BlockNo(v, e, j) {
      if j >= INODE_NUM_DIRECT { AddrOfZeros(j - INODE_NUM_DIRECT); }
    }
    assert FileOk(sb, v', e');
    forall c: nat ensures Owns(sb, v', e', c) <==> c == b || Owns(sb, v, e, c) {
      if exists k: nat :: k < INODE_MAX_BLOCKS && BlockNo(v, e, k) == c {
        var k: nat :| k < INODE_MAX_BLOCKS && BlockNo(v, e, k) == c;
        assert BlockNo(v', e', k) == c;
      }
    }
  }

  /** Every file block is where it was, with what it held. */
  ghost predicate SameBlocks(sb: SuperBlock, v: Disk, e: InodeEntry, v': Disk, e': InodeEntry) {
    && FileOk(sb, v, e) && FileOk(sb, v', e')
    && (forall j: nat | j < INODE_MAX_BLOCKS :: BlockNo(v', e', j) == BlockNo(v, e, j))
    && (forall j: nat | j < INODE_MAX_BLOCKS && BlockNo(v, e, j) != 0 :: v'[BlockNo(v, e, j)] == v[BlockNo(v, e, j)])
    && e' == e.(addrs := e'.addrs, indirect := e'.indirect)
  }

  lemma {:induction false} MapsAfter(sb: SuperBlock, v: Disk, e: InodeEntry, v1: Disk, e1: InodeEntry, v2: Disk,
                                     e2: InodeEntry, k: nat, b: nat)
    requires SameBlocks(sb, v, e, v1, e1) && MapsTo(sb, v1, e1, v2, e2, k, b)
    ensures MapsTo(sb, v, e, v2, e2, k, b)
  {
    forall j: nat | j < INODE_MAX_BLOCKS && BlockNo(v, e, j) != 0 ensures v2[BlockNo(v, e, j)] == v[BlockNo(v, e, j)] {
      assert BlockNo(v1, e1, j) == BlockNo(v, e, j);
    }
  }

  lemma {:induction false} MapsSame(sb: SuperBlock, v: Disk, e: InodeEntry, k: nat)
    requires FileOk(sb, v, e) && k < INODE_MAX_BLOCKS && BlockNo(v, e, k) != 0
    ensures Kept(sb, v, e, v, e) && SameBlocks(sb, v, e, v, e) && MapsTo(sb, v, e, v, e, k, BlockNo(v, e, k))
  {
  }

  /** A block is allocated and entered in the indirect block. */
  lemma {:induction false} SlotMapped(sb: SuperBlock, v: Disk, v1: Disk, e: InodeEntry, k: nat, b: nat)
    requires FileOk(sb, v, e) && INODE_NUM_DIRECT <= k < INODE_MAX_BLOCKS && e.indirect != 0 && BlockNo(v, e, k) == 0
    requires sb.dataStart <= b < sb.numBlocks && !Used(sb, v, b) && Allocated(sb, v, v1, b)
    ensures var v' := v1[e.indirect := WithAddr(v1[e.indirect], k - INODE_NUM_DIRECT, b)];
            Kept(sb, v, e, v', e) && MapsTo(sb, v, e, v', e, k, b)
  {
    var i := e.indirect;
    var v' := v1[i := WithAddr(v1[i], k - INODE_NUM_DIRECT, b)];
    SlotBlocks(sb, v, v1, e, k, b);
    SlotFileOk(sb, v, v', e, k, b);
    OwnsMore(sb, v, e, v', e, k, b);
  }

  lemma {:induction false} SlotBlocks(sb: SuperBlock, v: Disk, v1: Disk, e: InodeEntry, k: nat, b: nat)
    requires FileOk(sb, v, e) && INODE_NUM_DIRECT <= k < INODE_MAX_BLOCKS && e.indirect != 0 && BlockNo(v, e, k) == 0
    requires sb.dataStart <= b < sb.numBlocks && !Used(sb, v, b) && Allocated(sb, v, v1, b)
    ensures var v' := v1[e.indirect := WithAddr(v1[e.indirect], k - INODE_NUM_DIRECT, b)];
            && Mapped(sb, v') && v'[b] == Zeros() && b != e.indirect
            && (forall c: nat :: DataBlock(sb, v', c) <==> c == b || DataBlock(sb, v, c))
            && (forall c: nat | DataBlock(sb, v, c) && c != e.indirect :: v'[c] == v[c])
            && (forall j: nat | j < INODE_MAX_BLOCKS :: BlockNo(v', e, j) == if j == k then b else BlockNo(v, e, j))
  {
    var i := e.indirect;
    var v' := v1[i := WithAddr(v1[i], k - INODE_NUM_DIRECT, b)];
    forall c: nat
      ensures (DataBlock(sb, v1, c) <==> c == b || DataBlock(sb, v, c)) && (DataBlock(sb, v, c) ==> v1[c] == v[c])
    {
      AllocKeeps(sb, v, v1, b, c);
    }
    DataWritten(sb, v1, i, v'[i]);
    SlotNo(v, v', e, k, b);
  }

  lemma {:induction false} SlotNo(v: Disk, v': Disk, e: InodeEntry, k: nat, b: u32)
    requires INODE_NUM_DIRECT <= k < INODE_MAX_BLOCKS && e.indirect != 0 && e.indirect in v && e.indirect in v'
    requires v'[e.indirect] == WithAddr(v[e.indirect], k - INODE_NUM_DIRECT, b)
    ensures forall j: nat | j < INODE_MAX_BLOCKS :: BlockNo(v', e, j) == if j == k then b else BlockNo(v, e, j)
  {
    hide AddrAt, WithAddr;
    forall j: nat | j < INODE_MAX_BLOCKS ensures BlockNo(v', e, j) == if j == k then b else BlockNo(v, e, j) {
      if j >= INODE_NUM_DIRECT { AddrOfWith(v[e.indirect], k - INODE_NUM_DIRECT, b, j - INODE_NUM_DIRECT); }
    }
  }

  lemma {:induction false} SlotFileOk(sb: SuperBlock, v: Disk, v': Disk, e: InodeEntry, k: nat, b: nat)
    requires FileOk(sb, v, e) && k < INODE_MAX_BLOCKS && BlockNo(v, e, k) == 0 && Mapped(sb, v')
    requires forall c: nat :: DataBlock(sb, v', c) <==> c == b || DataBlock(sb, v, c)
    requires forall j: nat | j < INODE_MAX_BLOCKS :: BlockNo(v', e, j) == if j == k then b else BlockNo(v, e, j)
    requires b >= sb.dataStart && !DataBlock(sb, v, b)
    ensures FileOk(sb, v', e)
  {
  }

  /** Writing to a data block leaves the bitmap alone. */
  lemma {:induction false} DataWritten(sb: SuperBlock, v: Disk, b: nat, d: Data)
    requires Mapped(sb, v) && sb.dataStart <= b < sb.numBlocks
    ensures Mapped(sb, v[b := d]) && forall c: nat :: DataBlock(sb, v[b := d], c) <==> DataBlock(sb, v, c)
  {
    var v' := v[b := d];
    forall c: nat | c < sb.numBlocks
      ensures c in v' && MapBlock(sb, c) in v' && MapBlock(sb, c) < sb.dataStart && Used(sb, v', c) == Used(sb, v, c)
    {
      assert c in v && MapBlock(sb, c) in v;
    }
  }

  /** Overwriting a file's own data block moves no block and touches no other. */
  lemma {:induction false} BlockOverwritten(sb: SuperBlock, v: Disk, e: InodeEntry, k: nat, d: Data)
    requires FileOk(sb, v, e) && k < INODE_MAX_BLOCKS && BlockNo(v, e, k) != 0
    ensures var v' := v[BlockNo(v, e, k) := d];
            && Kept(sb, v, e, v', e)
            && (forall j: nat | j < INODE_MAX_BLOCKS :: BlockNo(v', e, j) == BlockNo(v, e, j))
            && (forall j: nat | j < INODE_MAX_BLOCKS && j != k && BlockNo(v, e, j) != 0 ::
                  v'[BlockNo(v, e, j)] == v[BlockNo(v, e, j)])
  {
    var b := BlockNo(v, e, k);
    var v' := v[b := d];
    DataWritten(sb, v, b, d);
    forall j: nat | j < INODE_MAX_BLOCKS ensures BlockNo(v', e, j) == BlockNo(v, e, j) {}
    assert FileOk(sb, v', e);
    OwnsSame(sb, v, e, v', e);
    assert Owns(sb, v, e, b);
  }

  lemma {:induction false} OwnsSame(sb: SuperBlock, v: Disk, e: InodeEntry, v': Disk, e': InodeEntry)
    requires FileOk(sb, v, e) && FileOk(sb, v', e') && e'.indirect == e.indirect
    requires forall j: nat | j < INODE_MAX_BLOCKS :: BlockNo(v', e', j) == BlockNo(v, e, j)
    ensures forall c: nat :: Owns(sb, v', e', c) <==> Owns(sb, v, e, c)
  {
    forall c: nat ensures Owns(sb, v', e', c) <==> Owns(sb, v, e, c) {
      if exists j: nat :: j < INODE_MAX_BLOCKS && BlockNo(v, e, j) == c {
        var j: nat :| j < INODE_MAX_BLOCKS && BlockNo(v, e, j) == c;
        assert BlockNo(v', e', j) == c;
      }
    }
  }

  // ----- what an operation may synchronise -----

  function InodeBlock(sb: SuperBlock, no: nat): nat {
    sb.inodeStart + no / INODE_PER_BLOCK
  }

  function IndirectSet(e: InodeEntry): (s: set<nat>)
    ensures |s| <= 1
  {
    if e.indirect == 0 then {} else {e.indirect}
  }

  /** Bitmap blocks that mapping one more file block may touch. */
  ghost predicate MapsPaid(v: Disk, e: InodeEntry, e': InodeEntry, k: nat, maps: set<nat>)
    requires k < INODE_MAX_BLOCKS
  {
    && (e.indirect != 0 ==> e'.indirect == e.indirect)
    && |maps| <= (if BlockNo(v, e, k) == 0 then 1 else 0) + |IndirectSet(e')| - |IndirectSet(e)|
  }

  ghost predicate MapDone(sb: SuperBlock, v: Disk, e: InodeEntry, v': Disk, e': InodeEntry, k: nat, b: nat) {
    Kept(sb, v, e, v', e') && MapsTo(sb, v, e, v', e', k, b)
  }

  lemma {:induction false} NeedsIndirect(v: Disk, e: InodeEntry, k: nat)
    requires k < INODE_MAX_BLOCKS
    ensures k >= INODE_NUM_DIRECT && BlockNo(v, e, k) != 0 ==> e.indirect != 0
  {
  }

  /** First the indirect block, then the slot in it. */
  lemma {:induction false} MapJoin(sb: SuperBlock, v: Disk, e: InodeEntry, v1: Disk, e1: InodeEntry, v2: Disk,
                                   e2: InodeEntry, k: nat, b: nat, some: set<nat>, maps: set<nat>)
    requires Kept(sb, v, e, v1, e1) && SameBlocks(sb, v, e, v1, e1) && MapDone(sb, v1, e1, v2, e2, k, b)
    requires e1.indirect != 0 && e2 == e1 && |some| <= 1 - |IndirectSet(e)| && (e.indirect != 0 ==> e1 == e)
    requires MapsPaid(v1, e1, e2, k, maps)
    ensures MapDone(sb, v, e, v2, e2, k, b) && MapsPaid(v, e, e2, k, maps + some) && IndirectSet(e2) == {e2.indirect}
  {
    KeptTrans(sb, v, e, v1, e1, v2, e2);
    MapsAfter(sb, v, e, v1, e1, v2, e2, k, b);
    assert FileOk(sb, v, e) && FileOk(sb, v1, e1);
    assert BlockNo(v1, e1, k) == BlockNo(v, e, k);
  }

  /** Every block below b is in use, except perhaps one. */
  ghost predicate UsedBelow(sb: SuperBlock, v: Disk, b: nat, except: nat) {
    Mapped(sb, v) && b <= sb.numBlocks && forall c: nat | c < b && c != except :: Used(sb, v, c)
  }

  /** The blocks that were taken are the lowest that were free: the indirect block first, if that was missing. */
  ghost predicate LowestTaken(sb: SuperBlock, v: Disk, e: InodeEntry, e': InodeEntry, k: nat, b: nat)
    requires k < INODE_MAX_BLOCKS
  {
    && (e.indirect == 0 && e'.indirect != 0 ==> UsedBelow(sb, v, e'.indirect, e'.indirect))
    && (BlockNo(v, e, k) == 0 ==> UsedBelow(sb, v, b, e'.indirect))
  }

  lemma {:induction false} LowestJoin(sb: SuperBlock, v: Disk, e: InodeEntry, v1: Disk, e1: InodeEntry, k: nat, b: nat)
    requires k < INODE_MAX_BLOCKS && SameBlocks(sb, v, e, v1, e1) && e1.indirect != 0
    requires e.indirect == 0 ==>
             UsedBelow(sb, v, e1.indirect, e1.indirect) && e1.indirect < sb.numBlocks
             && Allocated(sb, v, v1, e1.indirect)
    requires e.indirect != 0 ==> v1 == v && e1 == e
    requires BlockNo(v1, e1, k) == 0 ==> UsedBelow(sb, v1, b, b)
    ensures LowestTaken(sb, v, e, e1, k, b)
  {
    assert BlockNo(v1, e1, k) == BlockNo(v, e, k);
    if BlockNo(v, e, k) == 0 {
      if e.indirect == 0 { UsedBefore(sb, v, v1, e1.indirect, b, b); }
    }
  }

  lemma {:induction false} UsedBefore(sb: SuperBlock, v: Disk, v': Disk, i: nat, b: nat, x: nat)
    requires Mapped(sb, v) && i < sb.numBlocks && Allocated(sb, v, v', i) && UsedBelow(sb, v', b, x)
             && (x == b || x == i)
    ensures UsedBelow(sb, v, b, i)
  {
  }

  ghost predicate Exhausted(sb: SuperBlock, v: Disk) {
    Mapped(sb, v) && forall c: nat | c < sb.numBlocks :: Used(sb, v, c)
  }

  // ----- reading and writing byte ranges -----

  function NextPage(i: nat): (n: nat)
    ensures n > i && n % BLOCK_SIZE == 0 && n / BLOCK_SIZE == i / BLOCK_SIZE + 1
            && n == i + (BLOCK_SIZE - i % BLOCK_SIZE)
  {
    (i / BLOCK_SIZE + 1) * BLOCK_SIZE
  }

  /** One more page of the slice. */
  lemma {:induction false} ReadOn(c: seq<byte>, offset: nat, i: nat, end: nat)
    requires offset <= i < end <= |c|
    ensures var len := Min(end - i, BLOCK_SIZE - i % BLOCK_SIZE);
            Min(NextPage(i), end) == i + len && c[offset..i + len] == c[offset..i] + c[i..i + len]
  {
  }

  function Patched(d: Data, at: nat, bytes: seq<byte>): (r: Data)
    requires at + |bytes| <= BLOCK_SIZE
  {
    d[..at] + bytes + d[at + |bytes|..]
  }

  lemma {:induction false} PageReads(sb: SuperBlock, v: Disk, e: InodeEntry, i: nat, end: nat)
    requires FileOk(sb, v, e) && Filled(sb, v, e) && i < end <= e.numBytes
    ensures i / BLOCK_SIZE < INODE_MAX_BLOCKS
    ensures var b, at, len := BlockNo(v, e, i / BLOCK_SIZE), i % BLOCK_SIZE, Min(end - i, BLOCK_SIZE - i % BLOCK_SIZE);
            b in v && v[b][at..at + len] == Content(sb, v, e)[i..i + len]
  {
    var k, at, len := i / BLOCK_SIZE, i % BLOCK_SIZE, Min(end - i, BLOCK_SIZE - i % BLOCK_SIZE);
    assert k * BLOCK_SIZE <= i;
    var b := BlockNo(v, e, k);
    assert DataBlock(sb, v, b);
    hide BlockNo, Content, Used, Mapped;
    var c := Content(sb, v, e);
    var page, slice := v[b][at..at + len], c[i..i + len];
    forall q: nat | q < len ensures page[q] == slice[q] {
      assert (i + q) / BLOCK_SIZE == k && (i + q) % BLOCK_SIZE == at + q;
      assert c[i + q] == ByteAt(sb, v, e, i + q);
    }
  }

  /** File block k is mapped and patched; the others are as they were. */
  ghost predicate BlockWritten(sb: SuperBlock, v: Disk, e: InodeEntry, v': Disk, e': InodeEntry, k: nat, at: nat,
                               bytes: seq<byte>)
    requires k < INODE_MAX_BLOCKS && at + |bytes| <= BLOCK_SIZE
  {
    && FileOk(sb, v, e) && FileOk(sb, v', e') && e' == e.(addrs := e'.addrs, indirect := e'.indirect)
    && (forall j: nat | j < INODE_MAX_BLOCKS && j != k :: BlockNo(v', e', j) == BlockNo(v, e, j))
    && (forall j: nat | j < INODE_MAX_BLOCKS && j != k && BlockNo(v, e, j) != 0 ::
          v'[BlockNo(v, e, j)] == v[BlockNo(v, e, j)])
    && BlockNo(v', e', k) != 0 && (BlockNo(v, e, k) != 0 ==> BlockNo(v', e', k) == BlockNo(v, e, k))
    && v'[BlockNo(v', e', k)] == Patched(if BlockNo(v, e, k) != 0 then v[BlockNo(v, e, k)] else Zeros(), at, bytes)
  }

  lemma {:induction false} WrittenPlan(sb: SuperBlock, v: Disk, e: InodeEntry, v1: Disk, e1: InodeEntry, k: nat,
                                       b: nat, at: nat, bytes: seq<byte>)
    requires MapDone(sb, v, e, v1, e1, k, b) && k < INODE_MAX_BLOCKS && at + |bytes| <= BLOCK_SIZE
    ensures b in v1
    ensures var v' := v1[b := Patched(v1[b], at, bytes)];
            Kept(sb, v, e, v', e1) && BlockWritten(sb, v, e, v', e1, k, at, bytes)
  {
    hide Patched;
    assert DataBlock(sb, v1, b);
    var v' := v1[b := Patched(v1[b], at, bytes)];
    BlockOverwritten(sb, v1, e1, k, v'[b]);
    KeptTrans(sb, v, e, v1, e1, v', e1);
    forall j: nat | j < INODE_MAX_BLOCKS && j != k && BlockNo(v, e, j) != 0
      ensures v'[BlockNo(v, e, j)] == v[BlockNo(v, e, j)]
    {
      assert BlockNo(v1, e1, j) == BlockNo(v, e, j);
    }
  }

  function Overwritten(c: seq<byte>, src: seq<byte>, offset: nat): (r: seq<byte>)
    requires offset <= |c|
  {
    c[..offset] + src + (if offset + |src| < |c| then c[offset + |src|..] else [])
  }

  /** The byte at p once src has been written up to i. */
  function Expected(c: seq<byte>, src: seq<byte>, offset: nat, i: nat, p: nat): byte
    requires offset <= |c| && i <= offset + |src| && (p < |c| || offset <= p < i)
  {
    if offset <= p < i then src[p - offset] else c[p]
  }

  ghost predicate Holds(sb: SuperBlock, v: Disk, e: InodeEntry, p: nat, x: byte)
    requires FileOk(sb, v, e) && p < INODE_MAX_BYTES
  {
    BlockNo(v, e, p / BLOCK_SIZE) != 0 && ByteAt(sb, v, e, p) == x
  }

  /** Bytes below i are written, the old ones are still there elsewhere. */
  ghost predicate Progress(sb: SuperBlock, v: Disk, e: InodeEntry, c: seq<byte>, src: seq<byte>, offset: nat, i: nat) {
    && FileOk(sb, v, e) && offset <= |c| <= INODE_MAX_BYTES && offset <= i <= offset + |src| <= INODE_MAX_BYTES
    && forall p: nat | p < INODE_MAX_BYTES && (p < |c| || offset <= p < i) ::
          Holds(sb, v, e, p, Expected(c, src, offset, i, p))
  }

  lemma {:induction false} ProgressStart(sb: SuperBlock, v: Disk, e: InodeEntry, e': InodeEntry, src: seq<byte>,
                                         offset: nat)
    requires FileOk(sb, v, e) && Filled(sb, v, e) && offset <= e.numBytes && offset + |src| <= INODE_MAX_BYTES
    requires e'.addrs == e.addrs && e'.indirect == e.indirect
    ensures Kept(sb, v, e, v, e') && Progress(sb, v, e', Content(sb, v, e), src, offset, offset)
  {
    KeptSame(sb, v, e, e');
    var c := Content(sb, v, e);
    forall p: nat | p < |c| ensures Holds(sb, v, e', p, c[p]) {
      assert c[p] == ByteAt(sb, v, e, p);
    }
  }

  /** Writing from i to the end of its block, or of the data, makes that much progress. */
  lemma {:induction false} ProgressStep(sb: SuperBlock, v: Disk, e: InodeEntry, v': Disk, e': InodeEntry,
                                        c: seq<byte>, src: seq<byte>, offset: nat, i: nat)
    requires Progress(sb, v, e, c, src, offset, i) && i < offset + |src|
    requires var at, len := i % BLOCK_SIZE, Min(offset + |src| - i, BLOCK_SIZE - i % BLOCK_SIZE);
             BlockWritten(sb, v, e, v', e', i / BLOCK_SIZE, at, src[i - offset..i - offset + len])
    ensures Progress(sb, v', e', c, src, offset, Min(offset + |src|, NextPage(i)))
  {
    var k, at, len := i / BLOCK_SIZE, i % BLOCK_SIZE, Min(offset + |src| - i, BLOCK_SIZE - i % BLOCK_SIZE);
    var i' := Min(offset + |src|, NextPage(i));
    forall p: nat | p < INODE_MAX_BYTES && (p < |c| || offset <= p < i')
      ensures Holds(sb, v', e', p, Expected(c, src, offset, i', p))
    {
      ByteStep(sb, v, e, v', e', c, src, offset, i, i', p);
    }
  }

  lemma {:induction false} ByteStep(sb: SuperBlock, v: Disk, e: InodeEntry, v': Disk, e': InodeEntry, c: seq<byte>,
                                    src: seq<byte>, offset: nat, i: nat, i': nat, p: nat)
    requires Progress(sb, v, e, c, src, offset, i) && i < i' <= offset + |src| && i' <= NextPage(i)
    requires BlockWritten(sb, v, e, v', e', i / BLOCK_SIZE, i % BLOCK_SIZE, src[i - offset..i' - offset])
    requires p < INODE_MAX_BYTES && (p < |c| || offset <= p < i')
    ensures Holds(sb, v', e', p, Expected(c, src, offset, i', p))
  {
    var k, at := i / BLOCK_SIZE, i % BLOCK_SIZE;
    var j := p / BLOCK_SIZE;
    if i <= p < i' {
      assert j == k && p % BLOCK_SIZE == at + (p - i);
    } else {
      assert p < |c| || offset <= p < i;
      assert Holds(sb, v, e, p, Expected(c, src, offset, i, p));
      if j == k {
        var q, bytes, b := p % BLOCK_SIZE, src[i - offset..i' - offset], BlockNo(v, e, k);
        assert q < at || q >= at + |bytes|;
        assert b != 0 && BlockNo(v', e', k) == b;
        assert Patched(v[b], at, bytes)[q] == v[b][q];
      } else {
        assert BlockNo(v', e', j) == BlockNo(v, e, j) != 0;
      }
    }
  }

  lemma {:induction false} ProgressEnd(sb: SuperBlock, v: Disk, e: InodeEntry, c: seq<byte>, src: seq<byte>,
                                       offset: nat)
    requires Progress(sb, v, e, c, src, offset, offset + |src|)
    requires e.numBytes == if offset + |src| > |c| then offset + |src| else |c|
    ensures Filled(sb, v, e) && Content(sb, v, e) == Overwritten(c, src, offset)
  {
    var end := offset + |src|;
    forall k: nat | k < INODE_MAX_BLOCKS && k * BLOCK_SIZE < e.numBytes ensures BlockNo(v, e, k) != 0 {
      var p := k * BLOCK_SIZE;
      assert Holds(sb, v, e, p, Expected(c, src, offset, end, p)) && p / BLOCK_SIZE == k;
    }
    var now, want := Content(sb, v, e), Overwritten(c, src, offset);
    forall p: nat | p < e.numBytes ensures now[p] == want[p] {
      assert Holds(sb, v, e, p, Expected(c, src, offset, end, p));
    }
  }

  // ----- the transaction budget -----

  /** Blocks done when the cursor is at i. */
  function Rounds(offset: nat, i: nat): int {
    if i == offset then 0 else (i - 1) / BLOCK_SIZE - offset / BLOCK_SIZE + 1
  }

  ghost predicate Spent(sb: SuperBlock, no: nat, s0: set<nat>, s: set<nat>, e0: InodeEntry, e: InodeEntry,
                        data: set<nat>, maps: set<nat>, n: int, unaligned: bool)
  {
    && s <= s0 + data + maps + {InodeBlock(sb, no)} + IndirectSet(e)
    && (e0.indirect != 0 ==> e.indirect == e0.indirect)
    && n >= 0 && |data| <= n
    && |maps| <= n - (if unaligned && n > 0 then 1 else 0) + |IndirectSet(e)| - |IndirectSet(e0)|
  }

  lemma {:induction false} SpentStep(sb: SuperBlock, no: nat, s0: set<nat>, s: set<nat>, e0: InodeEntry, e: InodeEntry,
                                     data: set<nat>, maps: set<nat>, n: int, unaligned: bool,
                                     v: Disk, e': InodeEntry, k: nat, b: nat, more: set<nat>, s': set<nat>)
    requires Spent(sb, no, s0, s, e0, e, data, maps, n, unaligned)
    requires k < INODE_MAX_BLOCKS
    requires MapsPaid(v, e, e', k, more) && s' <= s + more + {InodeBlock(sb, no), b} + IndirectSet(e')
    requires unaligned && n == 0 ==> BlockNo(v, e, k) != 0
    ensures Spent(sb, no, s0, s', e0, e', data + {b}, maps + more, n + 1, unaligned)
  {
    assert |maps + more| <= |maps| + |more|;
  }

  /**
    The most that a write can synchronise: a data and a bitmap block a round, two for the indirect
    block, the inode.
   */
  function WriteCost(offset: nat, n: nat): int {
    var r := Rounds(offset, offset + n);
    2 * r - (if offset % BLOCK_SIZE != 0 && r > 0 then 1 else 0) + 3
  }

  lemma {:induction false} SpentBudget(sb: SuperBlock, no: nat, s0: set<nat>, s: set<nat>, e0: InodeEntry,
                                       e: InodeEntry, data: set<nat>, maps: set<nat>, offset: nat, end: nat)
    requires offset <= end
    requires Spent(sb, no, s0, s, e0, e, data, maps, Rounds(offset, end), offset % BLOCK_SIZE != 0)
    ensures |s - s0| <= WriteCost(offset, end - offset) && |data| <= Rounds(offset, end)
  {
    var extra := data + maps + {InodeBlock(sb, no)} + IndirectSet(e);
    assert |extra| <= |data| + |maps| + 1 + |IndirectSet(e)|;
    SubsetSize(s - s0, extra);
  }

  /** A chunk of at most 1536 bytes, at any offset, fits one operation. */
  lemma {:induction false} ChunkFits(offset: nat, n: nat)
    requires n <= MAX_CHUNK
    ensures WriteCost(offset, n) <= OP_MAX_NUM_BLOCKS
  {
  }

  lemma {:induction false} SubsetSize(a: set<nat>, b: set<nat>)
    requires a <= b
    ensures |a| <= |b|
  {
    assert b == a + (b - a);
  }

  /** The part of src that goes into the block of i. */
  function Piece(src: seq<byte>, offset: nat, i: nat): (r: seq<byte>)
    requires offset <= i < offset + |src|
    ensures i % BLOCK_SIZE + |r| <= BLOCK_SIZE
  {
    src[i - offset..i - offset + Min(offset + |src| - i, BLOCK_SIZE - i % BLOCK_SIZE)]
  }

  /** The state of a write whose cursor is at i. */
  ghost predicate Writing(sb: SuperBlock, no: nat, v0: Disk, e0: InodeEntry, s0: set<nat>, v: Disk, e: InodeEntry,
                          s: set<nat>,
                          c: seq<byte>, src: seq<byte>, offset: nat, i: nat, data: set<nat>, maps: set<nat>) {
    && offset <= i && (i == offset || i % BLOCK_SIZE == 0) && Min(offset + |src|, i) >= 0
    && Progress(sb, v, e, c, src, offset, Min(offset + |src|, i))
    && Kept(sb, v0, e0, v, e)
    && Spent(sb, no, s0, s, e0, e, data, maps, Rounds(offset, Min(offset + |src|, i)), offset % BLOCK_SIZE != 0)
    && e == e0.(addrs := e.addrs, indirect := e.indirect,
                numBytes := if offset + |src| > |c| then offset + |src| else |c|)
  }

  lemma {:induction false} WritingStart(sb: SuperBlock, no: nat, v: Disk, e: InodeEntry, e': InodeEntry, s0: set<nat>,
                                        s: set<nat>, src: seq<byte>, offset: nat)
    requires FileOk(sb, v, e) && Filled(sb, v, e) && offset <= e.numBytes && offset + |src| <= INODE_MAX_BYTES
    requires e' == e.(numBytes := if offset + |src| > e.numBytes then offset + |src| else e.numBytes)
    requires s <= s0 + {InodeBlock(sb, no)}
    ensures Writing(sb, no, v, e, s0, v, e', s, Content(sb, v, e), src, offset, offset, {}, {})
  {
    hide FileOk, Filled, Kept, Progress;
    ProgressStart(sb, v, e, e', src, offset);
  }

  lemma {:induction false} WritingFits(sb: SuperBlock, no: nat, v0: Disk, e0: InodeEntry, s0: set<nat>, v: Disk,
                                       e: InodeEntry, s: set<nat>,
                                       c: seq<byte>, src: seq<byte>, offset: nat, i: nat, data: set<nat>,
                                       maps: set<nat>)
    requires Writing(sb, no, v0, e0, s0, v, e, s, c, src, offset, i, data, maps) && i < offset + |src|
    ensures offset <= i && FileOk(sb, v, e) && i / BLOCK_SIZE < INODE_MAX_BLOCKS
    ensures offset + |src| <= |c| ==> BlockNo(v, e, i / BLOCK_SIZE) != 0
  {
    hide FileOk, Kept, Spent;
    if offset + |src| <= |c| { assert Holds(sb, v, e, i, Expected(c, src, offset, Min(offset + |src|, i), i)); }
  }

  lemma {:induction false} WritingStep(sb: SuperBlock, no: nat, v0: Disk, e0: InodeEntry, s0: set<nat>, v: Disk,
                                       e: InodeEntry, s: set<nat>,
                                       c: seq<byte>, src: seq<byte>, offset: nat, i: nat, data: set<nat>,
                                       maps: set<nat>,
                                       v': Disk, e': InodeEntry, s': set<nat>, b: nat, more: set<nat>)
    requires Writing(sb, no, v0, e0, s0, v, e, s, c, src, offset, i, data, maps) && offset <= i < offset + |src|
             && FileOk(sb, v, e) && i / BLOCK_SIZE < INODE_MAX_BLOCKS
    requires Kept(sb, v, e, v', e')
             && BlockWritten(sb, v, e, v', e', i / BLOCK_SIZE, i % BLOCK_SIZE, Piece(src, offset, i))
    requires MapsPaid(v, e, e', i / BLOCK_SIZE, more) && s' <= s + more + {InodeBlock(sb, no), b} + IndirectSet(e')
    ensures Writing(sb, no, v0, e0, s0, v', e', s', c, src, offset, NextPage(i), data + {b}, maps + more)
  {
    hide Kept, Spent, MapsPaid, Progress;
    assert e' == e.(addrs := e'.addrs, indirect := e'.indirect);
    var end := offset + |src|;
    ProgressStep(sb, v, e, v', e', c, src, offset, i);
    KeptTrans(sb, v0, e0, v, e, v', e');
    FirstMapped(sb, v, e, c, src, offset, i);
    RoundsNext(offset, i, end);
    SpentStep(sb, no, s0, s, e0, e, data, maps, Rounds(offset, i), offset % BLOCK_SIZE != 0, v, e', i / BLOCK_SIZE, b,
        more, s');
  }

  lemma {:induction false} RoundsNext(offset: nat, i: nat, end: nat)
    requires offset <= i < end && (i == offset || i % BLOCK_SIZE == 0)
    ensures Rounds(offset, Min(end, NextPage(i))) == Rounds(offset, i) + 1 && Rounds(offset, i) >= 0
            && (Rounds(offset, i) == 0 <==> i == offset)
  {
  }

  /** The block of an unaligned offset is mapped already. */
  lemma {:induction false} FirstMapped(sb: SuperBlock, v: Disk, e: InodeEntry, c: seq<byte>, src: seq<byte>,
                                       offset: nat, i: nat)
    requires Progress(sb, v, e, c, src, offset, i) && i < offset + |src|
    ensures i == offset && offset % BLOCK_SIZE != 0 ==> BlockNo(v, e, i / BLOCK_SIZE) != 0
  {
    hide FileOk;
    if i == offset && offset % BLOCK_SIZE != 0 {
      var p := offset - 1;
      assert Holds(sb, v, e, p, Expected(c, src, offset, i, p)) && p / BLOCK_SIZE == i / BLOCK_SIZE;
    }
  }

  lemma {:induction false} WritingEnd(sb: SuperBlock, no: nat, v0: Disk, e0: InodeEntry, s0: set<nat>, v: Disk,
                                      e: InodeEntry, s: set<nat>,
                                      c: seq<byte>, src: seq<byte>, offset: nat, i: nat, data: set<nat>, maps: set<nat>)
    requires Writing(sb, no, v0, e0, s0, v, e, s, c, src, offset, i, data, maps) && i >= offset + |src|
    ensures Kept(sb, v0, e0, v, e) && FileOk(sb, v, e) && Filled(sb, v, e) && offset <= |c|
            && Content(sb, v, e) == Overwritten(c, src, offset)
    ensures e.kind == e0.kind && e.numLinks == e0.numLinks
    ensures |s - s0| <= WriteCost(offset, |src|) && |data| <= Rounds(offset, offset + |src|)
  {
    hide Kept, FileOk, Filled, Spent, Content, Overwritten;
    ProgressEnd(sb, v, e, c, src, offset);
    SpentBudget(sb, no, s0, s, e0, e, data, maps, offset, offset + |src|);
  }

  // ----- releasing a file's blocks -----

  /** The blocks of the file blocks lo .. hi. */
  ghost function Between(v: Disk, e: InodeEntry, lo: nat, hi: nat): set<nat>
    requires lo <= hi <= INODE_MAX_BLOCKS
  {
    set k: nat | lo <= k < hi && BlockNo(v, e, k) != 0 :: BlockNo(v, e, k)
  }

  /** The blocks in `gone` are free now; every other data block is as it was. */
  ghost predicate Released(sb: SuperBlock, v: Disk, v': Disk, gone: set<nat>) {
    && Mapped(sb, v) && Mapped(sb, v') && v'.Keys == v.Keys
    && (forall c: nat :: DataBlock(sb, v', c) <==> DataBlock(sb, v, c) && c !in gone)
    && (forall c: nat | sb.dataStart <= c < sb.numBlocks :: v'[c] == v[c])
  }

  lemma {:induction false} ReleaseMore(sb: SuperBlock, v: Disk, v1: Disk, v2: Disk, gone: set<nat>, b: nat)
    requires Released(sb, v, v1, gone) && sb.dataStart <= b < sb.numBlocks && Freed(sb, v1, v2, b)
    ensures Released(sb, v, v2, gone + {b})
  {
    forall c: nat | sb.dataStart <= c < sb.numBlocks ensures v2[c] == v[c] {
      assert MapBlock(sb, b) < sb.dataStart && c in v1;
    }
  }

  /** One more of the blocks lo .. is released; it was not yet free. */
  lemma {:induction false} ReleaseNext(sb: SuperBlock, v: Disk, e: InodeEntry, v1: Disk, lo: nat, k: nat,
                                       rest: set<nat>)
    requires FileOk(sb, v, e) && lo <= k < INODE_MAX_BLOCKS && Released(sb, v, v1, Between(v, e, lo, k) + rest)
    requires BlockNo(v, e, k) !in rest
    ensures BlockNo(v, e, k) != 0 ==>
            DataBlock(sb, v1, BlockNo(v, e, k)) && Between(v, e, lo, k + 1) == Between(v, e, lo, k) + {BlockNo(v, e, k)}
    ensures BlockNo(v, e, k) == 0 ==> Between(v, e, lo, k + 1) == Between(v, e, lo, k)
  {
  }

  ghost function Direct(v: Disk, e: InodeEntry): set<nat>
  {
    Between(v, e, 0, INODE_NUM_DIRECT)
  }

  /** What hangs off the indirect block, and that block itself. */
  ghost function Indirect(v: Disk, e: InodeEntry): set<nat>
  {
    Between(v, e, INODE_NUM_DIRECT, INODE_MAX_BLOCKS) + IndirectSet(e)
  }

  function ZerosUpTo(a: Addrs, i: nat): (r: Addrs)
    requires i <= INODE_NUM_DIRECT
  {
    NO_BLOCKS[..i] + a[i..]
  }

  lemma {:induction false} ZerosEnds(a: Addrs)
    ensures ZerosUpTo(a, 0) == a && ZerosUpTo(a, INODE_NUM_DIRECT) == NO_BLOCKS
  {
  }

  lemma {:induction false} ZerosNext(a: Addrs, i: nat)
    requires i < INODE_NUM_DIRECT
    ensures ZerosUpTo(a, i)[i] == a[i] && ZerosUpTo(a, i + 1) == ZerosUpTo(a, i)[i := 0]
  {
  }

  predicate NoBlocks(e: InodeEntry) {
    e.addrs == NO_BLOCKS && e.indirect == 0
  }

  /** Everything the file owned is free, and nothing else. */
  lemma {:induction false} AllReleased(sb: SuperBlock, v: Disk, e: InodeEntry, v': Disk, e': InodeEntry)
    requires FileOk(sb, v, e) && NoBlocks(e')
    requires Released(sb, v, v', Direct(v, e) + Indirect(v, e))
    ensures Kept(sb, v, e, v', e') && forall c: nat :: !Owns(sb, v', e', c)
  {
    hide Direct, Indirect, Owns, Mapped, DataBlock;
    NoneOwned(sb, v', e');
    OwnsIs(sb, v, e);
    KeptReleased(sb, v, e, v', e', Direct(v, e) + Indirect(v, e));
  }

  lemma {:induction false} KeptReleased(sb: SuperBlock, v: Disk, e: InodeEntry, v': Disk, e': InodeEntry,
                                        gone: set<nat>)
    requires FileOk(sb, v, e) && FileOk(sb, v', e') && Released(sb, v, v', gone)
    requires forall c: nat :: Owns(sb, v, e, c) <==> c in gone
    requires forall c: nat :: !Owns(sb, v', e', c)
    ensures Kept(sb, v, e, v', e')
  {
    hide FileOk, Owns, Mapped, Used;
  }

  lemma {:induction false} NoneOwned(sb: SuperBlock, v: Disk, e: InodeEntry)
    requires NoBlocks(e) && Mapped(sb, v) && 0 < sb.dataStart && sb.numBlocks < 0x1_0000_0000
    ensures FileOk(sb, v, e) && forall c: nat :: !Owns(sb, v, e, c)
  {
    hide Mapped;
    forall k: nat | k < INODE_MAX_BLOCKS ensures BlockNo(v, e, k) == 0 {}
  }

  lemma {:induction false} OwnsIs(sb: SuperBlock, v: Disk, e: InodeEntry)
    requires FileOk(sb, v, e)
    ensures forall c: nat :: Owns(sb, v, e, c) <==> c in Direct(v, e) + Indirect(v, e)
  {
    forall c: nat ensures Owns(sb, v, e, c) <==> c in Direct(v, e) + Indirect(v, e) {
      if Owns(sb, v, e, c) && c != e.indirect {
        var k: nat :| k < INODE_MAX_BLOCKS && BlockNo(v, e, k) == c;
      }
      if c in Direct(v, e) {
        var k: nat :| k < INODE_NUM_DIRECT && BlockNo(v, e, k) == c;
        assert k < INODE_MAX_BLOCKS;
      }
    }
  }

  lemma {:induction false} DirectApart(sb: SuperBlock, v: Disk, e: InodeEntry, k: nat)
    requires FileOk(sb, v, e) && k < INODE_NUM_DIRECT
    ensures BlockNo(v, e, k) == e.addrs[k] && BlockNo(v, e, k) !in Indirect(v, e)
  {
    hide Mapped, DataBlock;
  }

  lemma {:induction false} ReleasedNone(sb: SuperBlock, v: Disk, e: InodeEntry)
    requires FileOk(sb, v, e)
    ensures Released(sb, v, v, {}) && (e.indirect == 0 ==> Indirect(v, e) == {})
  {
    hide Mapped;
  }

  lemma {:induction false} IndirectReads(sb: SuperBlock, v: Disk, e: InodeEntry)
    requires FileOk(sb, v, e) && e.indirect != 0
    ensures e.indirect in v
            && forall i: nat | i < INODE_NUM_INDIRECT :: AddrAt(v[e.indirect], i) == BlockNo(v, e, INODE_NUM_DIRECT + i)
  {
  }

  /** The indirect block is not among those it lists. */
  lemma {:induction false} IndirectLast(sb: SuperBlock, v: Disk, e: InodeEntry, v1: Disk)
    requires FileOk(sb, v, e) && e.indirect != 0
    requires Released(sb, v, v1, Between(v, e, INODE_NUM_DIRECT, INODE_MAX_BLOCKS) + {})
    ensures Released(sb, v, v1, Between(v, e, INODE_NUM_DIRECT, INODE_MAX_BLOCKS))
    ensures Mapped(sb, v1) && sb.dataStart <= e.indirect < sb.numBlocks && Used(sb, v1, e.indirect)
  {
    hide Mapped;
    assert e.indirect !in Between(v, e, INODE_NUM_DIRECT, INODE_MAX_BLOCKS);
    assert Between(v, e, INODE_NUM_DIRECT, INODE_MAX_BLOCKS) + {} == Between(v, e, INODE_NUM_DIRECT, INODE_MAX_BLOCKS);
  }

  lemma {:induction false} IndirectIs(v: Disk, e: InodeEntry)
    requires e.indirect != 0
    ensures Indirect(v, e) == Between(v, e, INODE_NUM_DIRECT, INODE_MAX_BLOCKS) + {e.indirect}
  {
  }

  lemma {:induction false} BetweenNone(v: Disk, e: InodeEntry, k: nat)
    requires k <= INODE_MAX_BLOCKS
    ensures Between(v, e, k, k) == {}
  {
  }

  /** The bitmap blocks that hold the bits of these blocks. */
  ghost function MapBlocks(sb: SuperBlock, blocks: set<nat>): set<nat> {
    set b | b in blocks :: MapBlock(sb, b)
  }

  lemma {:induction false} MapBlocksMore(sb: SuperBlock, blocks: set<nat>, b: nat)
    ensures MapBlocks(sb, {}) == {} && MapBlocks(sb, blocks + {b}) == MapBlocks(sb, blocks) + {MapBlock(sb, b)}
  {
  }

  /** What freeing a file synchronises. */
  ghost function ClearBlocks(sb: SuperBlock, v: Disk, e: InodeEntry, no: nat): set<nat> {
    MapBlocks(sb, Direct(v, e) + Indirect(v, e)) + {InodeBlock(sb, no)}
  }

  /** The in-memory inode, `Inode`, with its lock held. */
  class Inode {
    const no: nat
    var rc: nat
    var entry: InodeEntry

    constructor (no: nat, entry: InodeEntry)
      ensures this.no == no && this.entry == entry && rc == 1
    {
      this.no, this.entry, rc := no, entry, 1;
    }

    /** `inode_sync` with `do_write`. */
    method Sync(vol: Volume)
      modifies vol`dinodes, vol`synced
      ensures vol.dinodes == old(vol.dinodes)[no := entry]
      ensures vol.synced == old(vol.synced) + {InodeBlock(vol.sb, no)}
    {
      vol.dinodes := vol.dinodes[no := entry];
      vol.synced := vol.synced + {InodeBlock(vol.sb, no)};
    }

    /** `inode_map` with no context: finds, never allocates. */
    method Find(vol: Volume, k: nat) returns (b: nat)
      requires FileOk(vol.sb, vol.view, entry) && k < INODE_MAX_BLOCKS
      ensures b == BlockNo(vol.view, entry, k)
    {
      if k < INODE_NUM_DIRECT { return entry.addrs[k]; }
      if entry.indirect == 0 { return 0; }
      b := AddrAt(vol.view[entry.indirect], k - INODE_NUM_DIRECT);
    }

    method MapDirect(vol: Volume, k: nat) returns (ok: bool, b: nat, ghost maps: set<nat>)
      requires FileOk(vol.sb, vol.view, entry) && k < INODE_NUM_DIRECT
      modifies this`entry, vol`view, vol`dinodes, vol`synced
      ensures BlockNo(old(vol.view), old(entry), k) != 0 ==> ok
      ensures !ok ==> Exhausted(vol.sb, vol.view)
      ensures ok ==> MapDone(vol.sb, old(vol.view), old(entry), vol.view, entry, k, b)
      ensures ok ==> LowestTaken(vol.sb, old(vol.view), old(entry), entry, k, b)
      ensures ok ==> MapsPaid(old(vol.view), old(entry), entry, k, maps)
      ensures ok ==> vol.synced <= old(vol.synced) + maps + {InodeBlock(vol.sb, no), b} + IndirectSet(entry)
      ensures vol.dinodes == old(vol.dinodes)[no := entry] || (vol.dinodes == old(vol.dinodes) && entry == old(entry))
      ensures Covered(old(vol.view), old(vol.synced), vol.view, vol.synced)
      ensures BlockNo(old(vol.view), old(entry), k) != 0 ==> vol.synced == old(vol.synced)
    {
      hide Kept, MapsTo, Allocated, Bits.Bit, AddrAt, Used, Covered;
      maps := {};
      CoveredSelf(vol.view, vol.synced, vol.synced);
      if entry.addrs[k] == 0 {
        ok, b := vol.Alloc();
        if !ok { return; }
        DirectMapped(vol.sb, old(vol.view), vol.view, entry, k, b);
        maps := {MapBlock(vol.sb, b)};
        entry := entry.(addrs := entry.addrs[k := b]);
        ghost var s1 := vol.synced;
        Sync(vol);
        CoveredMore(old(vol.view), old(vol.synced), vol.view, s1, vol.synced);
      } else {
        MapsSame(vol.sb, vol.view, entry, k);
      }
      ok, b := true, entry.addrs[k];
    }

    method MakeIndirect(vol: Volume) returns (ok: bool, ghost maps: set<nat>)
      requires FileOk(vol.sb, vol.view, entry)
      modifies this`entry, vol`view, vol`dinodes, vol`synced
      ensures old(entry).indirect != 0 ==> ok
      ensures !ok ==> Exhausted(vol.sb, vol.view)
      ensures ok ==>
              FileOk(vol.sb, vol.view, entry) && entry.indirect != 0
              && (old(entry).indirect != 0 ==> entry == old(entry))
      ensures ok ==>
              Kept(vol.sb, old(vol.view), old(entry), vol.view, entry)
              && SameBlocks(vol.sb, old(vol.view), old(entry), vol.view, entry)
      ensures ok && old(entry).indirect == 0 ==>
              entry.indirect < vol.sb.numBlocks && UsedBelow(vol.sb, old(vol.view), entry.indirect, entry.indirect)
              && Allocated(vol.sb, old(vol.view), vol.view, entry.indirect)
      ensures ok && old(entry).indirect != 0 ==> vol.view == old(vol.view)
      ensures ok ==> |maps| <= 1 - |IndirectSet(old(entry))|
      ensures ok ==> vol.synced <= old(vol.synced) + maps + {InodeBlock(vol.sb, no), entry.indirect}
      ensures vol.dinodes == old(vol.dinodes)[no := entry] || (vol.dinodes == old(vol.dinodes) && entry == old(entry))
      ensures Covered(old(vol.view), old(vol.synced), vol.view, vol.synced)
      ensures old(entry).indirect != 0 ==> vol.synced == old(vol.synced)
    {
      hide Allocated, Bits.Bit, AddrAt, Used, Covered;
      maps := {};
      CoveredSelf(vol.view, vol.synced, vol.synced);
      ok := true;
      if entry.indirect == 0 {
        var b;
        ok, b := vol.Alloc();
        if !ok { return; }
        IndirectMade(vol.sb, old(vol.view), vol.view, entry, b);
        maps := {MapBlock(vol.sb, b)};
        entry := entry.(indirect := b);
        ghost var s1 := vol.synced;
        Sync(vol);
        CoveredMore(old(vol.view), old(vol.synced), vol.view, s1, vol.synced);
      }
    }

    method MapIndirect(vol: Volume, k: nat) returns (ok: bool, b: nat, ghost maps: set<nat>)
      requires FileOk(vol.sb, vol.view, entry) && INODE_NUM_DIRECT <= k < INODE_MAX_BLOCKS && entry.indirect != 0
      modifies vol`view, vol`synced
      ensures BlockNo(old(vol.view), entry, k) != 0 ==> ok
      ensures !ok ==> Exhausted(vol.sb, vol.view)
      ensures ok ==> MapDone(vol.sb, old(vol.view), entry, vol.view, entry, k, b)
      ensures ok && BlockNo(old(vol.view), entry, k) == 0 ==> UsedBelow(vol.sb, old(vol.view), b, b)
      ensures ok ==> MapsPaid(old(vol.view), entry, entry, k, maps)
      ensures ok ==> vol.synced <= old(vol.synced) + maps + {b, entry.indirect}
      ensures Covered(old(vol.view), old(vol.synced), vol.view, vol.synced)
      ensures BlockNo(old(vol.view), entry, k) != 0 ==> vol.synced == old(vol.synced)
    {
      hide Kept, MapsTo, Allocated, Bits.Bit, AddrAt, Used, Covered;
      maps := {};
      CoveredSelf(vol.view, vol.synced, vol.synced);
      b := Find(vol, k);
      if b == 0 {
        ok, b := vol.Alloc();
        if !ok { return; }
        SlotMapped(vol.sb, old(vol.view), vol.view, entry, k, b);
        maps := {MapBlock(vol.sb, b)};
        CoveredPut(old(vol.view), old(vol.synced), vol.view, vol.synced, entry.indirect,
            WithAddr(vol.view[entry.indirect], k - INODE_NUM_DIRECT, b));
        vol.view := vol.view[entry.indirect := WithAddr(vol.view[entry.indirect], k - INODE_NUM_DIRECT, b)];
        vol.synced := vol.synced + {entry.indirect};
      } else {
        MapsSame(vol.sb, vol.view, entry, k);
      }
      ok := true;
    }

    /**
      `inode_map` inside an operation: file block k is mapped, with a zeroed block if it was not;
      nothing else of this file moves.
     */
    method Map(vol: Volume, k: nat) returns (ok: bool, b: nat, ghost maps: set<nat>)
      requires FileOk(vol.sb, vol.view, entry) && k < INODE_MAX_BLOCKS
      modifies this`entry, vol`view, vol`dinodes, vol`synced
      ensures BlockNo(old(vol.view), old(entry), k) != 0 ==> ok
      ensures !ok ==> Exhausted(vol.sb, vol.view)
      ensures ok ==> MapDone(vol.sb, old(vol.view), old(entry), vol.view, entry, k, b)
      ensures ok ==> LowestTaken(vol.sb, old(vol.view), old(entry), entry, k, b)
      ensures ok ==> MapsPaid(old(vol.view), old(entry), entry, k, maps)
      ensures ok ==> vol.synced <= old(vol.synced) + maps + {InodeBlock(vol.sb, no), b} + IndirectSet(entry)
      ensures vol.dinodes == old(vol.dinodes)[no := entry] || (vol.dinodes == old(vol.dinodes) && entry == old(entry))
      ensures Covered(old(vol.view), old(vol.synced), vol.view, vol.synced)
      ensures BlockNo(old(vol.view), old(entry), k) != 0 ==> vol.synced == old(vol.synced)
    {
      hide *;
      b, maps := 0, {};
      NeedsIndirect(vol.view, entry, k);
      if k < INODE_NUM_DIRECT {
        ok, b, maps := MapDirect(vol, k);
        return;
      }
      ghost var some;
      ok, some := MakeIndirect(vol);
      if !ok { return; }
      ghost var v1, e1, s1 := vol.view, entry, vol.synced;
      ok, b, maps := MapIndirect(vol, k);
      CoveredTrans(old(vol.view), old(vol.synced), v1, s1, vol.view, vol.synced);
      if !ok { return; }
      MapJoin(vol.sb, old(vol.view), old(entry), v1, e1, vol.view, entry, k, b, some, maps);
      LowestJoin(vol.sb, old(vol.view), old(entry), v1, e1, k, b);
      maps := maps + some;
    }

    /** `inode_read` of a file that is not a device: exactly the bytes asked for, as far as the file goes. */
    method Read(vol: Volume, offset: nat, wanted: nat) returns (dest: seq<byte>, count: nat)
      requires FileOk(vol.sb, vol.view, entry) && Filled(vol.sb, vol.view, entry) && offset <= entry.numBytes
      ensures count == |dest| == if offset + wanted > entry.numBytes then entry.numBytes - offset else wanted
      ensures dest == Content(vol.sb, vol.view, entry)[offset..offset + count]
    {
      hide FileOk, Filled, Mapped, Content, BlockNo, NextPage;
      count := if offset + wanted > entry.numBytes then entry.numBytes - offset else wanted;
      var end := offset + count;
      ghost var c := Content(vol.sb, vol.view, entry);
      dest := [];
      var i := offset;
      while i < end
        invariant offset <= i
        invariant dest == c[offset..Min(i, end)]
      {
        PageReads(vol.sb, vol.view, entry, i, end);
        var b := Find(vol, i / BLOCK_SIZE);
        var at, len := i % BLOCK_SIZE, Min(end - i, BLOCK_SIZE - i % BLOCK_SIZE);
        ReadOn(c, offset, i, end);
        dest := dest + vol.view[b][at..at + len];
        i := NextPage(i);
      }
    }

    /** One round of `inode_write`: map, copy, synchronise. */
    method WriteBlock(vol: Volume, k: nat, at: nat, bytes: seq<byte>) returns (ok: bool, b: nat, ghost maps: set<nat>)
      requires FileOk(vol.sb, vol.view, entry) && k < INODE_MAX_BLOCKS && at + |bytes| <= BLOCK_SIZE
      modifies this`entry, vol`view, vol`dinodes, vol`synced
      ensures BlockNo(old(vol.view), old(entry), k) != 0 ==> ok
      ensures !ok ==> Exhausted(vol.sb, vol.view)
      ensures ok ==>
              Kept(vol.sb, old(vol.view), old(entry), vol.view, entry)
              && BlockWritten(vol.sb, old(vol.view), old(entry), vol.view, entry, k, at, bytes)
      ensures ok ==> MapsPaid(old(vol.view), old(entry), entry, k, maps)
      ensures ok ==> vol.synced <= old(vol.synced) + maps + {InodeBlock(vol.sb, no), b} + IndirectSet(entry)
      ensures vol.dinodes == old(vol.dinodes)[no := entry] || (vol.dinodes == old(vol.dinodes) && entry == old(entry))
      ensures Covered(old(vol.view), old(vol.synced), vol.view, vol.synced)
      ensures BlockNo(old(vol.view), old(entry), k) != 0 ==> vol.synced == old(vol.synced) + {b}
    {
      hide *;
      ok, b, maps := Map(vol, k);
      if !ok { return; }
      WrittenPlan(vol.sb, old(vol.view), old(entry), vol.view, entry, k, b, at, bytes);
      CoveredPut(old(vol.view), old(vol.synced), vol.view, vol.synced, b, Patched(vol.view[b], at, bytes));
      vol.view := vol.view[b := Patched(vol.view[b], at, bytes)];
      vol.synced := vol.synced + {b};
    }

    /**
      `inode_write` to a file that is not a device: the file's bytes become the old ones with `src`
      laid over them at `offset`, no other file's block changes, and a chunk fits one operation.
     */
    method Write(vol: Volume, src: seq<byte>, offset: nat) returns (ok: bool)
      requires FileOk(vol.sb, vol.view, entry) && Filled(vol.sb, vol.view, entry)
      requires offset <= entry.numBytes && offset + |src| <= INODE_MAX_BYTES
      requires no in vol.dinodes && vol.dinodes[no] == entry
      modifies this`entry, vol`view, vol`dinodes, vol`synced
      ensures offset + |src| <= old(entry).numBytes ==> ok
      ensures !ok ==> Exhausted(vol.sb, vol.view)
      ensures ok ==>
              Kept(vol.sb, old(vol.view), old(entry), vol.view, entry) && FileOk(vol.sb, vol.view, entry)
              && Filled(vol.sb, vol.view, entry)
      ensures ok ==> Content(vol.sb, vol.view, entry) == Overwritten(old(Content(vol.sb, vol.view, entry)), src, offset)
      ensures ok ==> entry.kind == old(entry).kind && entry.numLinks == old(entry).numLinks
      ensures vol.dinodes == old(vol.dinodes)[no := entry]
      ensures ok ==> |vol.synced - old(vol.synced)| <= WriteCost(offset, |src|)
      ensures ok && |src| <= MAX_CHUNK ==> |vol.synced - old(vol.synced)| <= OP_MAX_NUM_BLOCKS
      ensures ok && offset + |src| <= old(entry).numBytes ==>
              |vol.synced - old(vol.synced)| <= Rounds(offset, offset + |src|)
      ensures Covered(old(vol.view), old(vol.synced), vol.view, vol.synced)
    {
      hide Writing, FileOk, Filled, Kept, Content, Overwritten, BlockWritten, MapsPaid, BlockNo, Exhausted, NextPage,
          Piece, IndirectSet, Covered, Rounds, WriteCost;
      var end := offset + |src|;
      if end > entry.numBytes {
        entry := entry.(numBytes := end);
        Sync(vol);
      }
      ghost var c := old(Content(vol.sb, vol.view, entry));
      ghost var data, maps: set<nat> := {}, {};
      WritingStart(vol.sb, no, old(vol.view), old(entry), entry, old(vol.synced), vol.synced, src, offset);
      CoveredSelf(vol.view, old(vol.synced), vol.synced);
      var i := offset;
      while i < end
        invariant Writing(vol.sb, no, old(vol.view), old(entry), old(vol.synced), vol.view, entry, vol.synced, c, src,
                  offset, i, data, maps)
        invariant vol.dinodes == old(vol.dinodes)[no := entry]
        invariant Covered(old(vol.view), old(vol.synced), vol.view, vol.synced)
        invariant end <= old(entry).numBytes ==> vol.synced <= old(vol.synced) + data
      {
        WritingFits(vol.sb, no, old(vol.view), old(entry), old(vol.synced), vol.view, entry, vol.synced, c, src, offset,
            i, data, maps);
        ghost var v1, e1, s1 := vol.view, entry, vol.synced;
        ghost var more;
        var b;
        ok, b, more := WriteBlock(vol, i / BLOCK_SIZE, i % BLOCK_SIZE, Piece(src, offset, i));
        CoveredTrans(old(vol.view), old(vol.synced), v1, s1, vol.view, vol.synced);
        if !ok { return; }
        WritingStep(vol.sb, no, old(vol.view), old(entry), old(vol.synced), v1, e1, s1, c, src, offset, i, data, maps,
            vol.view, entry, vol.synced, b, more);
        data, maps := data + {b}, maps + more;
        i := NextPage(i);
      }
      WritingEnd(vol.sb, no, old(vol.view), old(entry), old(vol.synced), vol.view, entry, vol.synced, c, src, offset, i,
          data, maps);
      if |src| <= MAX_CHUNK { ChunkFits(offset, |src|); }
      if end <= old(entry).numBytes { SubsetSize(vol.synced - old(vol.synced), data); }
      ok := true;
    }

    /** Frees the block of file block k, if it has one. */
    method FreeOne(vol: Volume, b: nat, ghost v: Disk, ghost e: InodeEntry, ghost lo: nat, ghost k: nat,
                   ghost rest: set<nat>, ghost s0: set<nat>)
      requires FileOk(vol.sb, v, e) && lo <= k < INODE_MAX_BLOCKS && b == BlockNo(v, e, k) && b !in rest
      requires Released(vol.sb, v, vol.view, Between(v, e, lo, k) + rest)
      modifies vol`view, vol`synced
      ensures Released(vol.sb, v, vol.view, Between(v, e, lo, k + 1) + rest)
      ensures old(vol.synced) == s0 + MapBlocks(vol.sb, Between(v, e, lo, k) + rest) ==>
              vol.synced == s0 + MapBlocks(vol.sb, Between(v, e, lo, k + 1) + rest)
      ensures Covered(old(vol.view), old(vol.synced), vol.view, vol.synced)
    {
      hide Mapped, Freed, Used, BlockNo, Between, Covered, MapBlocks;
      CoveredSelf(vol.view, vol.synced, vol.synced);
      ghost var v1 := vol.view;
      ReleaseNext(vol.sb, v, e, vol.view, lo, k, rest);
      if b != 0 {
        vol.Free(b);
        MapBlocksMore(vol.sb, Between(v, e, lo, k) + rest, b);
        ReleaseMore(vol.sb, v, v1, vol.view, Between(v, e, lo, k) + rest, b);
        assert Between(v, e, lo, k) + rest + {b} == Between(v, e, lo, k + 1) + rest;
      }
    }

    /** The first half of `inode_clear`. */
    method ClearIndirect(vol: Volume)
      requires FileOk(vol.sb, vol.view, entry)
      modifies this`entry, vol`view, vol`synced
      ensures entry == old(entry).(indirect := 0)
      ensures Released(vol.sb, old(vol.view), vol.view, Indirect(old(vol.view), old(entry)))
      ensures vol.synced == old(vol.synced) + MapBlocks(vol.sb, Indirect(old(vol.view), old(entry)))
      ensures Covered(old(vol.view), old(vol.synced), vol.view, vol.synced)
    {
      hide Released, Between, Mapped, FileOk, Freed, Used, BlockNo, AddrAt, Covered, MapBlocks, Indirect;
      ghost var v, e, s0 := vol.view, entry, vol.synced;
      CoveredSelf(v, s0, s0);
      MapBlocksMore(vol.sb, {}, 0);
      ReleasedNone(vol.sb, v, e);
      if entry.indirect == 0 { return; }
      ClearListed(vol);
      IndirectLast(vol.sb, v, e, vol.view);
      ghost var v1, s1 := vol.view, vol.synced;
      ghost var gone := Between(v, e, INODE_NUM_DIRECT, INODE_MAX_BLOCKS);
      assert gone + {} == gone;
      IndirectIs(v, e);
      vol.Free(entry.indirect);
      CoveredTrans(v, s0, v1, s1, vol.view, vol.synced);
      MapBlocksMore(vol.sb, gone, e.indirect);
      ReleaseMore(vol.sb, v, v1, vol.view, gone, e.indirect);
      entry := entry.(indirect := 0);
    }

    /** Its loop: what the indirect block lists. */
    method ClearListed(vol: Volume)
      requires FileOk(vol.sb, vol.view, entry) && entry.indirect != 0
      modifies vol`view, vol`synced
      ensures var gone := Between(old(vol.view), entry, INODE_NUM_DIRECT, INODE_MAX_BLOCKS) + {};
              Released(vol.sb, old(vol.view), vol.view, gone) && vol.synced == old(vol.synced) + MapBlocks(vol.sb, gone)
      ensures Covered(old(vol.view), old(vol.synced), vol.view, vol.synced)
    {
      hide Released, Between, Mapped, FileOk, Freed, Used, BlockNo, AddrAt, Covered, MapBlocks;
      ghost var v, e, s0 := vol.view, entry, vol.synced;
      CoveredSelf(v, s0, s0);
      MapBlocksMore(vol.sb, {}, 0);
      ReleasedNone(vol.sb, v, e);
      IndirectReads(vol.sb, v, e);
      var addrs := vol.view[entry.indirect];
      var i := 0;
      BetweenNone(v, e, INODE_NUM_DIRECT);
      assert Between(v, e, INODE_NUM_DIRECT, INODE_NUM_DIRECT) + {} == {};
      while i < INODE_NUM_INDIRECT
        invariant i <= INODE_NUM_INDIRECT && entry == e
        invariant Released(vol.sb, v, vol.view, Between(v, e, INODE_NUM_DIRECT, INODE_NUM_DIRECT + i) + {})
        invariant vol.synced == s0 + MapBlocks(vol.sb, Between(v, e, INODE_NUM_DIRECT, INODE_NUM_DIRECT + i) + {})
        invariant Covered(v, s0, vol.view, vol.synced)
      {
        ghost var v1, s1 := vol.view, vol.synced;
        FreeOne(vol, AddrAt(addrs, i), v, e, INODE_NUM_DIRECT, INODE_NUM_DIRECT + i, {}, s0);
        CoveredTrans(v, s0, v1, s1, vol.view, vol.synced);
        i := i + 1;
      }
    }

    /** The second half of `inode_clear`; v and e are the state before the first. */
    method ClearDirect(vol: Volume, ghost v: Disk, ghost e: InodeEntry, ghost s0: set<nat>)
      requires FileOk(vol.sb, v, e) && Released(vol.sb, v, vol.view, Indirect(v, e)) && entry == e.(indirect := 0)
      requires vol.synced == s0 + MapBlocks(vol.sb, Indirect(v, e)) && Covered(v, s0, vol.view, vol.synced)
      modifies this`entry, vol`view, vol`synced
      ensures entry == e.(indirect := 0, addrs := NO_BLOCKS)
      ensures Released(vol.sb, v, vol.view, Direct(v, e) + Indirect(v, e))
      ensures vol.synced == s0 + MapBlocks(vol.sb, Direct(v, e) + Indirect(v, e))
              && Covered(v, s0, vol.view, vol.synced)
    {
      hide Released, Between, FileOk, Indirect, ZerosUpTo, Mapped, Freed, Used, BlockNo, DataBlock, Covered, MapBlocks;
      var i := 0;
      ZerosEnds(e.addrs);
      BetweenNone(v, e, 0);
      assert Between(v, e, 0, 0) + Indirect(v, e) == Indirect(v, e);
      while i < INODE_NUM_DIRECT
        invariant i <= INODE_NUM_DIRECT && entry == e.(indirect := 0, addrs := ZerosUpTo(e.addrs, i))
        invariant Released(vol.sb, v, vol.view, Between(v, e, 0, i) + Indirect(v, e))
        invariant vol.synced == s0 + MapBlocks(vol.sb, Between(v, e, 0, i) + Indirect(v, e))
        invariant Covered(v, s0, vol.view, vol.synced)
      {
        DirectApart(vol.sb, v, e, i);
        ZerosNext(e.addrs, i);
        ghost var v1, s1 := vol.view, vol.synced;
        FreeOne(vol, entry.addrs[i], v, e, 0, i, Indirect(v, e), s0);
        CoveredTrans(v, s0, v1, s1, vol.view, vol.synced);
        if entry.addrs[i] != 0 { entry := entry.(addrs := entry.addrs[i := 0]); }
        i := i + 1;
      }
    }

    /** `inode_clear`: the file is empty and exactly its blocks are free again. */
    method Clear(vol: Volume)
      requires FileOk(vol.sb, vol.view, entry)
      modifies this`entry, vol`view, vol`dinodes, vol`synced
      ensures Kept(vol.sb, old(vol.view), old(entry), vol.view, entry) && Filled(vol.sb, vol.view, entry)
              && Content(vol.sb, vol.view, entry) == []
      ensures forall c: nat :: !Owns(vol.sb, vol.view, entry, c)
      ensures entry == old(entry).(addrs := NO_BLOCKS, indirect := 0, numBytes := 0)
              && vol.dinodes == old(vol.dinodes)[no := entry]
      ensures vol.synced == old(vol.synced) + ClearBlocks(vol.sb, old(vol.view), old(entry), no)
      ensures Covered(old(vol.view), old(vol.synced), vol.view, vol.synced)
    {
      hide Released, Between, Direct, Indirect, Mapped, BlockNo, DataBlock, Kept, Covered, MapBlocks;
      ghost var v, e, s0 := vol.view, entry, vol.synced;
      ClearIndirect(vol);
      ClearDirect(vol, v, e, s0);
      entry := entry.(numBytes := 0);
      AllReleased(vol.sb, v, e, vol.view, entry);
      ghost var s1 := vol.synced;
      Sync(vol);
      CoveredMore(v, s0, vol.view, s1, vol.synced);
    }
  }
}
