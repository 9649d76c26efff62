/** Bits of a byte as `src/fs/cache.c` manipulates them: tests with a mask, sets by adding, clears by subtracting. */
module Bits {
  import opened Common
  import opened LogHeaders

  /** `(v & (1 << k)) != 0` */
  predicate Bit(v: nat, k: nat) {
    if k == 0 then v % 2 == 1 else Bit(v / 2, k - 1)
  }

  lemma {:induction false} Pow2Byte()
    ensures Pow2(8) == 256
  {
    assert Pow2(4) == 16;
  }

  /** `v += 1 << k` in a u8. */
  function Add(v: byte, k: nat): byte {
    (v + Pow2(k)) % 256
  }

  /** `v -= 1 << k` in a u8. */
  function Sub(v: byte, k: nat): byte {
    (v - Pow2(k)) % 256
  }

  /** A clear bit has room below the next power. */
  lemma {:induction false} ClearFits(v: nat, k: nat, n: nat)
    requires v < Pow2(n) && k < n && !Bit(v, k)
    ensures v + Pow2(k) < Pow2(n)
    decreases k
  {
    var q, r := v / 2, v % 2;
    Doubles(n);
    assert v == 2 * q + r;
    if k > 0 {
      Doubles(k);
      HalfBelow(v, Pow2(n - 1));
      ClearFits(q, k - 1, n - 1);
    }
  }

  lemma {:induction false} Doubles(k: nat)
    ensures k > 0 ==> Pow2(k) == 2 * Pow2(k - 1)
  {
  }

  lemma {:induction false} HalfBelow(v: nat, p: nat)
    requires v < 2 * p
    ensures v / 2 < p
  {
  }

  lemma {:induction false} SetIsLarge(v: nat, k: nat)
    requires Bit(v, k)
    ensures v >= Pow2(k)
    decreases k
  {
    if k > 0 { SetIsLarge(v / 2, k - 1); }
  }

  lemma {:induction false} PlusSets(v: nat, k: nat, j: nat)
    requires !Bit(v, k)
    ensures Bit(v + Pow2(k), j) == (j == k || Bit(v, j))
    decreases k
  {
    var w := v + Pow2(k);
    if k == 0 {
      assert w / 2 == v / 2;
    } else {
      assert w == v + 2 * Pow2(k - 1) && w / 2 == v / 2 + Pow2(k - 1) && w % 2 == v % 2;
      if j > 0 { PlusSets(v / 2, k - 1, j - 1); }
    }
  }

  /** Setting by addition sets exactly that bit when it was clear. */
  lemma {:induction false} AddSets(v: byte, k: nat, j: nat)
    requires k < 8 && !Bit(v, k)
    ensures Bit(Add(v, k), j) == (j == k || Bit(v, j))
  {
    Pow2Byte();
    ClearFits(v, k, 8);
    PlusSets(v, k, j);
  }

  lemma {:induction false} MinusClears(v: nat, k: nat, j: nat)
    requires v >= Pow2(k) && Bit(v, k)
    ensures Bit(v - Pow2(k), j) == (j != k && Bit(v, j))
    decreases k
  {
    if k == 0 {
      assert (v - 1) / 2 == v / 2;
    } else {
      var w := v - Pow2(k);
      assert w == v - 2 * Pow2(k - 1) && w / 2 == v / 2 - Pow2(k - 1) && w % 2 == v % 2;
      SetIsLarge(v / 2, k - 1);
      if j > 0 { MinusClears(v / 2, k - 1, j - 1); }
    }
  }

  /** Adding any multiple of 2^(k+1) leaves bit k, and 2^k more flips it. */
  lemma {:induction false} MinusFlips(v: nat, k: nat, n: nat)
    requires k < n && v < Pow2(n)
    ensures v + Pow2(n) >= Pow2(k) && Bit(v + Pow2(n) - Pow2(k), k) == !Bit(v, k)
    decreases k
  {
    Pow2Less(k, n);
    var w := v + Pow2(n) - Pow2(k);
    if k > 0 {
      assert w / 2 == v / 2 + Pow2(n - 1) - Pow2(k - 1);
      MinusFlips(v / 2, k - 1, n - 1);
    } else {
      assert Pow2(n) == 2 * Pow2(n - 1);
    }
  }

  lemma {:induction false} HighBits(v: nat, k: nat, n: nat)
    requires k < n
    ensures Bit(v + Pow2(n), k) == Bit(v, k)
    decreases k
  {
    assert Pow2(n) == 2 * Pow2(n - 1);
    if k > 0 { HighBits(v / 2, k - 1, n - 1); }
  }

  lemma {:induction false} SubClears(v: byte, k: nat, j: nat)
    requires k < 8 && Bit(v, k)
    ensures Bit(Sub(v, k), j) == (j != k && Bit(v, j))
  {
    SetIsLarge(v, k);
    MinusClears(v, k, j);
  }

  lemma {:induction false} SubSetsClear(v: byte, k: nat)
    requires k < 8 && !Bit(v, k)
    ensures Bit(Sub(v, k), k)
  {
    hide Bit, Pow2;
    Pow2Byte();
    Pow2Less(k, 8);
    MinusFlips(v, k, 8);
    if v >= Pow2(k) {
      HighBits(v - Pow2(k), k, 8);
    } else {
      assert Sub(v, k) == v + Pow2(8) - Pow2(k);
    }
  }

  /** Clearing by subtraction clears exactly that bit if and only if it was set; otherwise it sets it. */
  lemma {:induction false} SubClearsIff(v: byte, k: nat)
    requires k < 8
    ensures (forall j: nat | j < 8 :: Bit(Sub(v, k), j) == (j != k && Bit(v, j))) <==> Bit(v, k)
  {
    if Bit(v, k) {
      forall j: nat | j < 8 ensures Bit(Sub(v, k), j) == (j != k && Bit(v, j)) { SubClears(v, k, j); }
    } else {
      SubSetsClear(v, k);
    }
  }
}

/** Block allocation in `src/fs/cache.c`, over the view that the cache gives its users. */
module BlockAlloc {
  import opened LogHeaders
  import opened Bits

  const BITS_PER_BLOCK := 4096

  datatype SuperBlock = SuperBlock(numBlocks: nat, logStart: nat, inodeStart: nat, bitmapStart: nat, dataStart: nat,
      numInodes: nat)

  function MapBlock(sb: SuperBlock, b: nat): nat {
    sb.bitmapStart + b / BITS_PER_BLOCK
  }

  function MapByte(b: nat): nat {
    b % BITS_PER_BLOCK / 8
  }

  /** Bit b of the bitmap. */
  ghost predicate Used(sb: SuperBlock, view: Disk, b: nat)
    requires MapBlock(sb, b) in view
  {
    Bit(view[MapBlock(sb, b)][MapByte(b)], b % 8)
  }

  /**
    The bitmap lies before the data area, is on the disk, and marks every block before the data
    area, itself included, as used.
   */
  ghost predicate Mapped(sb: SuperBlock, view: Disk) {
    && sb.bitmapStart <= sb.dataStart <= sb.numBlocks
    && (forall b: nat | b < sb.numBlocks :: b in view && MapBlock(sb, b) in view && MapBlock(sb, b) < sb.dataStart)
    && (forall b: nat | b < sb.dataStart :: Used(sb, view, b))
  }

  lemma {:induction false} Coordinates(start: nat, mapByte: nat, bit: nat)
    requires start % BITS_PER_BLOCK == 0 && mapByte < BLOCK_SIZE && bit < 8
    ensures var b := start + mapByte * 8 + bit;
            b / BITS_PER_BLOCK == start / BITS_PER_BLOCK && MapByte(b) == mapByte && b % 8 == bit
  {
    var b := start + mapByte * 8 + bit;
    var q, r := start / BITS_PER_BLOCK, mapByte * 8 + bit;
    DivMod(BITS_PER_BLOCK, q, r, b);
    DivMod(8, mapByte, bit, r);
    DivMod(8, 512 * q + mapByte, bit, b);
  }

  lemma {:induction false} DivMod(d: nat, q: nat, r: nat, n: nat)
    requires d == 8 || d == BITS_PER_BLOCK
    requires r < d && n == d * q + r
    ensures n / d == q && n % d == r
  {
    if d == 8 {
      assert n / 8 == q;
    } else {
      assert n / BITS_PER_BLOCK == q;
    }
  }

  /** Two blocks share bitmap block, byte and bit only if they are equal. */
  lemma {:induction false} SameBit(b: nat, c: nat)
    requires b / BITS_PER_BLOCK == c / BITS_PER_BLOCK && MapByte(b) == MapByte(c) && b % 8 == c % 8
    ensures b == c
  {
    Recompose(b);
    Recompose(c);
  }

  lemma {:induction false} Recompose(b: nat)
    ensures b == BITS_PER_BLOCK * (b / BITS_PER_BLOCK) + 8 * MapByte(b) + b % 8
  {
    var q, s := b / BITS_PER_BLOCK, b % BITS_PER_BLOCK;
    var m, t := s / 8, s % 8;
    assert b == 8 * (512 * q + m) + t;
  }

  function Zeros(): (d: Data)
    ensures forall i :: 0 <= i < BLOCK_SIZE ==> d[i] == 0
  {
    seq(BLOCK_SIZE, i => 0)
  }

  ghost function WithByte(sb: SuperBlock, view: Disk, b: nat, v: byte): Disk
    requires MapBlock(sb, b) in view
  {
    view[MapBlock(sb, b) := view[MapBlock(sb, b)][MapByte(b) := v]]
  }

  /** Writing one bit changes the state of one block. */
  lemma {:induction false} MarkOne(sb: SuperBlock, view: Disk, b: nat, v: byte, used: bool, c: nat)
    requires MapBlock(sb, b) in view && MapBlock(sb, c) in view
    requires forall j: nat | j < 8 ::
             Bit(v, j) == if j == b % 8 then used else Bit(view[MapBlock(sb, b)][MapByte(b)], j)
    ensures MapBlock(sb, c) in WithByte(sb, view, b, v)
    ensures Used(sb, WithByte(sb, view, b, v), c) == if c == b then used else Used(sb, view, c)
  {
    if MapBlock(sb, c) == MapBlock(sb, b) && MapByte(c) == MapByte(b) && c % 8 == b % 8 { SameBit(b, c); }
  }

  /** The direct block numbers of an inode. */
  type Addrs = s: seq<nat> | |s| == 12 witness [0, 0, 0, 0, 0, 0, 0, 0, 0, 0, 0, 0]

  /** The on-disk inode, `struct dinode`. */
  datatype InodeEntry = InodeEntry(kind: nat, numLinks: nat, numBytes: nat, addrs: Addrs, indirect: nat)

  class Volume {
    const sb: SuperBlock
    var view: Disk                  // what the cache shows, outside the inode area
    var dinodes: map<nat, InodeEntry>   // the inode area
    ghost var synced: set<nat>      // blocks the running operation has synchronised

    /** The three nested loops of `cache_alloc`. */
    method FindFree() returns (found: bool, b: nat)
      requires Mapped(sb, view)
      ensures found ==> b < sb.numBlocks && !Used(sb, view, b) && forall c: nat | c < b :: Used(sb, view, c)
      ensures !found ==> forall c: nat | c < sb.numBlocks :: Used(sb, view, c)
    {
      var start := 0;
      while start < sb.numBlocks
        invariant start % BITS_PER_BLOCK == 0
        invariant forall c: nat | c < start && c < sb.numBlocks :: Used(sb, view, c)
      {
        var mapByte := 0;
        while mapByte < BLOCK_SIZE && start + mapByte * 8 < sb.numBlocks
          invariant mapByte <= BLOCK_SIZE
          invariant forall c: nat | c < start + mapByte * 8 && c < sb.numBlocks :: Used(sb, view, c)
        {
          assert MapBlock(sb, start) in view;
          var temp := view[MapBlock(sb, start)][mapByte];
          var mapBit := 0;
          while mapBit < 8 && start + mapByte * 8 + mapBit < sb.numBlocks
            invariant mapBit <= 8
            invariant forall c: nat | c < start + mapByte * 8 + mapBit && c < sb.numBlocks :: Used(sb, view, c)
          {
            Coordinates(start, mapByte, mapBit);
            if !Bit(temp, mapBit) {
              return true, start + mapByte * 8 + mapBit;
            }
            mapBit := mapBit + 1;
          }
          mapByte := mapByte + 1;
        }
        start := start + BITS_PER_BLOCK;
      }
      found, b := false, 0;
    }

    /** `cache_alloc`: the lowest free block, zeroed, and no other block changes state or contents. */
    method Alloc() returns (ok: bool, b: nat)
      requires Mapped(sb, view)
      modifies `view, `synced
      ensures ok <==> exists c: nat :: c < sb.numBlocks && !Used(sb, old(view), c)
      ensures !ok ==> view == old(view) && synced == old(synced)
      ensures ok ==>
              sb.dataStart <= b < sb.numBlocks && !Used(sb, old(view), b)
              && forall c: nat | c < b :: Used(sb, old(view), c)
      ensures ok ==> Allocated(sb, old(view), view, b) && synced == old(synced) + {MapBlock(sb, b), b}
      ensures Covered(old(view), old(synced), view, synced)
    {
      ok, b := FindFree();
      if ok {
        var data := view[MapBlock(sb, b)];
        var v := Add(data[MapByte(b)], b % 8);
        AllocatedBy(sb, view, b);
        view := view[MapBlock(sb, b) := data[MapByte(b) := v]];
        synced := synced + {MapBlock(sb, b)};
        view := view[b := Zeros()];
        synced := synced + {b};
      }
    }

    /** `cache_free` of an allocated block. */
    method Free(b: nat)
      requires Mapped(sb, view) && sb.dataStart <= b < sb.numBlocks && Used(sb, view, b)
      modifies `view, `synced
      ensures Freed(sb, old(view), view, b) && synced == old(synced) + {MapBlock(sb, b)}
      ensures Covered(old(view), old(synced), view, synced)
    {
      var data := view[MapBlock(sb, b)];
      FreedBy(sb, view, b);
      view := view[MapBlock(sb, b) := data[MapByte(b) := Sub(data[MapByte(b)], b % 8)]];
      synced := synced + {MapBlock(sb, b)};
    }
  }

  /** Whatever has changed has been synchronised: s before, s' now. */
  ghost predicate Covered(v: Disk, s: set<nat>, v': Disk, s': set<nat>) {
    s <= s' && v'.Keys == v.Keys && forall b | b in v && b !in s' :: v'[b] == v[b]
  }

  lemma {:induction false} CoveredTrans(v0: Disk, s0: set<nat>, v1: Disk, s1: set<nat>, v2: Disk, s2: set<nat>)
    requires Covered(v0, s0, v1, s1) && Covered(v1, s1, v2, s2)
    ensures Covered(v0, s0, v2, s2)
  {
  }

  lemma {:induction false} CoveredSelf(v: Disk, s: set<nat>, s': set<nat>)
    requires s <= s'
    ensures Covered(v, s, v, s')
  {
  }

  lemma {:induction false} CoveredMore(v0: Disk, s0: set<nat>, v: Disk, s: set<nat>, s': set<nat>)
    requires Covered(v0, s0, v, s) && s <= s'
    ensures Covered(v0, s0, v, s')
  {
  }

  /** One more block is changed and synchronised. */
  lemma {:induction false} CoveredPut(v0: Disk, s0: set<nat>, v: Disk, s: set<nat>, b: nat, data: Data)
    requires Covered(v0, s0, v, s) && b in v
    ensures Covered(v0, s0, v[b := data], s + {b})
  {
  }

  ghost predicate Allocated(sb: SuperBlock, before: Disk, after: Disk, b: nat)
    requires Mapped(sb, before) && b < sb.numBlocks
  {
    && Mapped(sb, after) && after.Keys == before.Keys && after[b] == Zeros()
    && (forall c: nat | c < sb.numBlocks :: Used(sb, after, c) == (c == b || Used(sb, before, c)))
    && (forall c | c in before && c != b && c != MapBlock(sb, b) :: after[c] == before[c])
  }

  ghost predicate Freed(sb: SuperBlock, before: Disk, after: Disk, b: nat)
    requires Mapped(sb, before) && b < sb.numBlocks
  {
    && Mapped(sb, after) && after.Keys == before.Keys
    && (forall c: nat | c < sb.numBlocks :: Used(sb, after, c) == (c != b && Used(sb, before, c)))
    && (forall c | c in before && c != MapBlock(sb, b) :: after[c] == before[c])
  }

  lemma {:induction false} AllocatedBy(sb: SuperBlock, view: Disk, b: nat)
    requires Mapped(sb, view) && b < sb.numBlocks && !Used(sb, view, b)
    ensures var v := Add(view[MapBlock(sb, b)][MapByte(b)], b % 8);
            b >= sb.dataStart && Allocated(sb, view, WithByte(sb, view, b, v)[b := Zeros()], b)
  {
    var was := view[MapBlock(sb, b)][MapByte(b)];
    var v := Add(was, b % 8);
    var w := WithByte(sb, view, b, v);
    forall j: nat | j < 8 ensures Bit(v, j) == if j == b % 8 then true else Bit(was, j) { AddSets(was, b % 8, j); }
    forall c: nat | c < sb.numBlocks
      ensures MapBlock(sb, c) in w && Used(sb, w[b := Zeros()], c) == (c == b || Used(sb, view, c))
    {
      MarkOne(sb, view, b, v, true, c);
    }
  }

  lemma {:induction false} FreedBy(sb: SuperBlock, view: Disk, b: nat)
    requires Mapped(sb, view) && sb.dataStart <= b < sb.numBlocks && Used(sb, view, b)
    ensures Freed(sb, view, WithByte(sb, view, b, Sub(view[MapBlock(sb, b)][MapByte(b)], b % 8)), b)
  {
    var was := view[MapBlock(sb, b)][MapByte(b)];
    var v := Sub(was, b % 8);
    forall j: nat | j < 8 ensures Bit(v, j) == if j == b % 8 then false else Bit(was, j) { SubClears(was, b % 8, j); }
    forall c: nat | c < sb.numBlocks
      ensures MapBlock(sb, c) in WithByte(sb, view, b, v)
              && Used(sb, WithByte(sb, view, b, v), c) == (c != b && Used(sb, view, c))
    {
      MarkOne(sb, view, b, v, false, c);
    }
  }

  /** `cache_free` of a block that is already free marks it as used, whatever else it does. */
  lemma {:induction false} FreeIff(sb: SuperBlock, view: Disk, b: nat)
    requires Mapped(sb, view) && sb.dataStart <= b < sb.numBlocks
    ensures Freed(sb, view, WithByte(sb, view, b, Sub(view[MapBlock(sb, b)][MapByte(b)], b % 8)), b)
            <==> Used(sb, view, b)
  {
    if Used(sb, view, b) {
      FreedBy(sb, view, b);
    } else {
      SubSetsClear(view[MapBlock(sb, b)][MapByte(b)], b % 8);
    }
  }
}
