/**
  The block cache and the logging layer of `src/fs/cache.c`: an LRU list of cached blocks over a
  block device, group commit and log-space reservation.
 */
module BlockCache {
  import Lists
  import opened Common
  import opened LogHeaders
  import opened Wal

  const EVICTION_THRESHOLD := 20
  const MOST_BUSY := LOG_MAX_SIZE + 1     // when nobody holds a block: the logged ones, and one that a copy holds

  datatype Block = Block(data: Data, acquired: bool, pinned: bool)

  predicate Busy(b: Block) {
    b.acquired || b.pinned
  }

  /** The busy blocks of a stretch of the list, in order. */
  function Kept(s: seq<nat>, blocks: map<nat, Block>): (r: seq<nat>)
    requires forall b :: b in s ==> b in blocks
    ensures forall b :: b in r <==> b in s && Busy(blocks[b])
    ensures Lists.Distinct(s) ==> Lists.Distinct(r)
  {
    if s == [] then [] else (if Busy(blocks[s[0]]) then [s[0]] else []) + Kept(s[1..], blocks)
  }

  // ----- log space -----

  function Left(rm: nat): nat {
    if rm <= OP_MAX_NUM_BLOCKS then OP_MAX_NUM_BLOCKS - rm else 0
  }

  /** How many more log slots the running operations may still take. */
  ghost function Reserved(ops: map<nat, nat>): nat
    decreases |ops|
  {
    if ops == map[] then 0
    else var k :| k in ops; Left(ops[k]) + Reserved(ops - {k})
  }

  lemma {:induction false} ReservedWithout(ops: map<nat, nat>, k: nat)
    requires k in ops
    ensures Reserved(ops) == Left(ops[k]) + Reserved(ops - {k})
    decreases |ops|
  {
    var m :| m in ops && Reserved(ops) == Left(ops[m]) + Reserved(ops - {m});
    if m != k {
      ReservedWithout(ops - {m}, k);
      ReservedWithout(ops - {k}, m);
      assert ops - {m} - {k} == ops - {k} - {m};
    }
  }

  lemma {:induction false} ReservedAtMost(ops: map<nat, nat>)
    ensures Reserved(ops) <= OP_MAX_NUM_BLOCKS * |ops|
    decreases |ops|
  {
    if ops != map[] {
      var k :| k in ops;
      ReservedWithout(ops, k);
      ReservedAtMost(ops - {k});
    }
  }

  lemma {:induction false} ReservedChange(ops: map<nat, nat>, k: nat, v: nat)
    ensures k in ops ==> Reserved(ops[k := v]) == Reserved(ops) - Left(ops[k]) + Left(v)
    ensures k !in ops ==> Reserved(ops[k := v]) == Reserved(ops) + Left(v)
  {
    ReservedWithout(ops[k := v], k);
    assert ops[k := v] - {k} == ops - {k};
    if k in ops { ReservedWithout(ops, k); } else { assert ops - {k} == ops; }
  }

  // ----- recency, on values -----

  /** When b was last used; 0 if never. */
  function LastUse(uses: seq<nat>, b: nat): (n: nat)
    ensures n <= |uses|
  {
    if uses == [] then 0
    else if uses[|uses| - 1] == b then |uses|
    else LastUse(uses[..|uses| - 1], b)
  }

  /** The list is in the order of last use, the latest first. */
  ghost predicate Recent(lru: seq<nat>, uses: seq<nat>) {
    forall x, y | Lists.Before(lru, x, y) :: LastUse(uses, x) > LastUse(uses, y)
  }

  /**
    `kept` is the list without some idle blocks: those furthest back, and no more of them than the
    threshold asks for.
   */
  ghost predicate DropsOldest(lru: seq<nat>, blocks: map<nat, Block>, kept: seq<nat>)
    requires forall b | b in lru :: b in blocks
  {
    && (forall x, y :: Lists.Before(kept, x, y) <==> Lists.Before(lru, x, y) && x in kept && y in kept)
    && (forall x | x in kept :: x in lru) && (forall x | x in lru && Busy(blocks[x]) :: x in kept)
    && (forall x, y | x in lru && x !in kept && y in kept && y in lru && !Busy(blocks[y]) :: Lists.Before(lru, y, x))
    && (|kept| < EVICTION_THRESHOLD || forall x | x in kept && x in lru :: Busy(blocks[x]))
    && (kept == lru || |kept| + 1 >= EVICTION_THRESHOLD)
  }

  /** The list after `no` was used: `no` in front, and behind it what was there, after an eviction if `no` was not. */
  ghost predicate UsedLast(lru: seq<nat>, blocks: map<nat, Block>, lru': seq<nat>, no: nat)
    requires forall b | b in lru :: b in blocks
  {
    && lru' != [] && lru'[0] == no && no !in lru'[1..]
    && (no in lru ==> forall x, y | x != no && y != no :: Lists.Before(lru', x, y) <==> Lists.Before(lru, x, y))
    && (no in lru ==> forall x :: x in lru' <==> x in lru)
    && (no !in lru ==> DropsOldest(lru, blocks, lru'[1..]))
  }

  // ----- coherence, on values -----

  ghost predicate Listed(lru: seq<nat>, blocks: map<nat, Block>, blockNum: nat) {
    Lists.Distinct(lru) && (forall b :: b in lru <==> b in blocks) && blockNum == |lru|
  }

  /**
    `view` is what readers of the cache see.  The blocks `logged` are pinned and no others, pinned
    and changed blocks are cached, and every other block of the view is what the disk holds.
   */
  ghost predicate Coherent(disk: Disk, blocks: map<nat, Block>, logged: set<nat>, dirty: set<nat>, view: Disk) {
    && view.Keys == disk.Keys
    && (forall b :: b in blocks ==> b in disk && (blocks[b].pinned <==> b in logged) && blocks[b].data == view[b])
    && (forall b :: b in logged ==> b in blocks)
    && (forall b :: b in dirty ==> b in blocks && blocks[b].acquired)
    && (forall b :: b in disk && b !in logged && b !in dirty ==> view[b] == disk[b])
  }

  /** Only idle blocks have gone. */
  ghost predicate Evicted(before: map<nat, Block>, after: map<nat, Block>) {
    && (forall b :: b in after ==> b in before && after[b] == before[b])
    && (forall b :: b in before && Busy(before[b]) ==> b in after)
  }

  lemma {:induction false} EvictedSelf(blocks: map<nat, Block>)
    ensures Evicted(blocks, blocks)
  {
  }

  /** Dropping idle blocks is invisible. */
  lemma {:induction false} EvictCoherent(disk: Disk, blocks: map<nat, Block>, kept: map<nat, Block>, logged: set<nat>,
                                         dirty: set<nat>, view: Disk)
    requires Coherent(disk, blocks, logged, dirty, view)
    requires Evicted(blocks, kept)
    ensures Coherent(disk, kept, logged, dirty, view)
  {
  }

  lemma {:induction false} LoadCoherent(disk: Disk, blocks: map<nat, Block>, logged: set<nat>, dirty: set<nat>,
                                        view: Disk, no: nat)
    requires Coherent(disk, blocks, logged, dirty, view) && no in disk && no !in blocks
    ensures Coherent(disk, blocks[no := Block(disk[no], true, false)], logged, dirty, view)
  {
  }

  /** Changing who holds an unchanged block is invisible. */
  lemma {:induction false} HoldCoherent(disk: Disk, blocks: map<nat, Block>, logged: set<nat>, dirty: set<nat>,
                                        view: Disk, no: nat, held: bool)
    requires Coherent(disk, blocks, logged, dirty, view) && no in blocks && (held || no !in dirty)
    ensures Coherent(disk, blocks[no := blocks[no].(acquired := held)], logged, dirty, view)
  {
  }

  /** Letting go of a block, changed or not, is invisible exactly when it is logged or the disk already holds it. */
  lemma {:induction false} ReleaseExact(disk: Disk, blocks: map<nat, Block>, logged: set<nat>, dirty: set<nat>,
                                        view: Disk, no: nat)
    requires Coherent(disk, blocks, logged, dirty, view) && no in blocks
    ensures Coherent(disk, blocks[no := blocks[no].(acquired := false)], logged, dirty - {no}, view)
            <==> no in logged || view[no] == disk[no]
  {
    var free := blocks[no := blocks[no].(acquired := false)];
    if no in logged || view[no] == disk[no] {
      assert Coherent(disk, free, logged, dirty - {no}, view);
    } else {
      assert no in disk && no !in logged && no !in dirty - {no};
    }
  }

  lemma {:induction false} ModifyCoherent(disk: Disk, blocks: map<nat, Block>, logged: set<nat>, dirty: set<nat>,
                                          view: Disk, no: nat, data: Data)
    requires Coherent(disk, blocks, logged, dirty, view) && no in blocks && blocks[no].acquired
    ensures Coherent(disk, blocks[no := blocks[no].(data := data)], logged, dirty + {no}, view[no := data])
  {
  }

  lemma {:induction false} WriteCoherent(disk: Disk, blocks: map<nat, Block>, logged: set<nat>, dirty: set<nat>,
                                         view: Disk, no: nat)
    requires Coherent(disk, blocks, logged, dirty, view) && no in blocks
    ensures Coherent(disk[no := blocks[no].data], blocks, logged, dirty - {no}, view)
  {
  }

  lemma {:induction false} PinCoherent(disk: Disk, blocks: map<nat, Block>, logged: set<nat>, dirty: set<nat>,
                                       view: Disk, no: nat)
    requires Coherent(disk, blocks, logged, dirty, view) && no in blocks
    ensures Coherent(disk, blocks[no := blocks[no].(pinned := true)], logged + {no}, dirty - {no}, view)
  {
  }

  lemma {:induction false} UnpinCoherent(disk: Disk, blocks: map<nat, Block>, logged: set<nat>, dirty: set<nat>,
                                         view: Disk, no: nat)
    requires Coherent(disk, blocks, logged, dirty, view) && no in blocks && view[no] == disk[no]
    ensures Coherent(disk, blocks[no := blocks[no].(pinned := false)], logged - {no}, dirty, view)
  {
  }

  /** The blocks in positions lo..hi of the header. */
  ghost function InSlots(slots: Slots, lo: nat, hi: nat): (s: set<nat>)
    requires lo <= hi <= LOG_MAX_SIZE
    ensures forall b :: b in s <==> exists i :: lo <= i < hi && slots[i] == b
  {
    set i | lo <= i < hi :: slots[i] as nat
  }

  lemma {:induction false} InSlotsAppend(slots: Slots, num: nat, no: u64)
    requires num < LOG_MAX_SIZE
    ensures InSlots(slots[num := no], 0, num + 1) == InSlots(slots, 0, num) + {no}
  {
    var t := slots[num := no];
    forall b | b in InSlots(slots, 0, num) + {no} ensures b in InSlots(t, 0, num + 1) {
      if b in InSlots(slots, 0, num) {
        var i :| 0 <= i < num && slots[i] == b;
        assert t[i] == b;
      } else {
        assert t[num] == b;
      }
    }
  }

  /** What the header may list: distinct blocks outside the log. */
  ghost predicate Loggable(log: nat, disk: Disk, slots: Slots, num: nat) {
    && num <= LOG_MAX_SIZE
    && (forall b :: InLog(log, b) ==> b in disk)
    && (forall i :: 0 <= i < num ==> !InLog(log, slots[i]) && slots[i] in disk)
    && (forall i, j :: 0 <= i < j < num ==> slots[i] != slots[j])
  }

  /** The log space is accounted for: what is logged and what may still be logged fit together. */
  ghost predicate Accounted(num: nat, ops: map<nat, nat>, outstanding: nat) {
    && outstanding == |ops| && (forall k :: k in ops ==> ops[k] <= OP_MAX_NUM_BLOCKS)
    && num + Reserved(ops) <= LOG_MAX_SIZE
  }

  lemma {:induction false} AccountedBegin(num: nat, ops: map<nat, nat>, outstanding: nat, op: nat)
    requires Accounted(num, ops, outstanding) && op !in ops
             && num + (outstanding + 1) * OP_MAX_NUM_BLOCKS <= LOG_MAX_SIZE
    ensures Accounted(num, ops[op := 0], outstanding + 1)
  {
    ReservedChange(ops, op, 0);
    ReservedAtMost(ops);
  }

  lemma {:induction false} AccountedSync(num: nat, ops: map<nat, nat>, outstanding: nat, op: nat)
    requires Accounted(num, ops, outstanding) && op in ops && ops[op] < OP_MAX_NUM_BLOCKS
    ensures num < LOG_MAX_SIZE && Accounted(num + 1, ops[op := ops[op] + 1], outstanding)
  {
    ReservedChange(ops, op, ops[op] + 1);
    ReservedWithout(ops, op);
    assert ops[op := ops[op] + 1].Keys == ops.Keys;
  }

  lemma {:induction false} AccountedEnd(num: nat, ops: map<nat, nat>, outstanding: nat, op: nat)
    requires Accounted(num, ops, outstanding) && op in ops
    ensures outstanding > 0 && Accounted(num, ops - {op}, outstanding - 1)
  {
    ReservedWithout(ops, op);
    assert (ops - {op}).Keys == ops.Keys - {op};
  }

  ghost predicate LogGood(log: nat, disk: Disk, num: nat, slots: Slots, ops: map<nat, nat>, outstanding: nat) {
    Loggable(log, disk, slots, num) && Accounted(num, ops, outstanding) && Quiet(log, disk)
  }

  lemma {:induction false} LogGoodAppend(log: nat, disk: Disk, num: nat, slots: Slots, ops: map<nat, nat>,
                                         outstanding: nat, op: nat, no: u64)
    requires LogGood(log, disk, num, slots, ops, outstanding) && op in ops && ops[op] < OP_MAX_NUM_BLOCKS
    requires num < LOG_MAX_SIZE && !InLog(log, no) && no in disk && no !in InSlots(slots, 0, num)
    ensures LogGood(log, disk, num + 1, slots[num := no], ops[op := ops[op] + 1], outstanding)
  {
    AccountedSync(num, ops, outstanding, op);
  }

  lemma {:induction false} ListedSame(lru: seq<nat>, blocks: map<nat, Block>, blockNum: nat, no: nat, b: Block)
    requires Listed(lru, blocks, blockNum) && no in blocks
    ensures Listed(lru, blocks[no := b], blockNum)
  {
  }

  class Cache {
    const log: nat                     // sblock->log_start
    var disk: Disk
    var trace: seq<Write>              // every device write so far
    var lru: seq<nat>                  // the block list from head.next to head.prev
    var blocks: map<nat, Block>
    var blockNum: nat
    var num: nat                       // header.num_blocks
    var slots: Slots                   // header.block_no
    var outstanding: nat
    var iscommit: bool
    var ops: map<nat, nat>             // rm of every running operation context
    ghost var view: Disk               // what readers see, whatever is cached
    ghost var dirty: set<nat>          // changed by the holder and not yet synchronised
    ghost var done: nat                // how many logged blocks the running commit has unpinned
    ghost var uses: seq<nat>           // every block acquired so far
    ghost var most: nat                // the most busy blocks there were when a block was loaded

    ghost predicate ListOk()
      reads this
    {
      Listed(lru, blocks, blockNum) && Recent(lru, uses)
    }

    /** The cache is as large as it has to be, and no larger than its threshold otherwise. */
    ghost predicate Bounded()
      reads this
    {
      blockNum <= Max(EVICTION_THRESHOLD, most + 1)
    }

    ghost predicate CacheOk()
      reads this
    {
      && ListOk() && Bounded() && done <= num <= LOG_MAX_SIZE
      && log !in blocks                                              // the header block bypasses the cache
      && Coherent(disk, blocks, InSlots(slots, done, num), dirty, view)
    }

    /** `init_bcache`: an empty cache over a disk whose logged group, if any, has been replayed. */
    constructor (log: nat, disk0: Disk)
      requires Recoverable(log, disk0)
      ensures this.log == log && Valid() && num == 0 && ops == map[] && dirty == {}
      ensures disk == view == Recover(log, disk0) && trace == ReplayWrites(log, disk0)
      ensures Idle(blocks) && most <= MOST_BUSY
    {
      hide Recover, ReplayWrites, Quiet, Coherent, LogGood, Fits;
      this.log, disk, trace, view := log, disk0, [], disk0;
      lru, blocks, blockNum := [], map[], 0;
      outstanding, iscommit, ops := 0, false, map[];
      dirty, uses, most := {}, [], 0;
      assert InLog(log, log);
      var header := DecodeHeader(disk0[log]);
      num, slots, done := header.num, header.slots, header.num;
      new;
      FreshCoherent(disk, slots, num);
      Boot(disk0);
    }

    method Boot(ghost disk0: Disk)
      requires CacheOk() && Recoverable(log, disk0) && disk == disk0 == view && trace == [] && dirty == {}
               && blocks == map[]
      requires num == done == |GroupOf(log, disk0).vals| && slots == GroupOf(log, disk0).slots
      requires ops == map[] && outstanding == 0 && !iscommit
      modifies this
      ensures Valid() && num == 0 && ops == map[] && dirty == {} && disk == view == Recover(log, disk0)
              && trace == ReplayWrites(log, disk0)
      ensures Idle(blocks) && (old(most) <= MOST_BUSY ==> most <= MOST_BUSY)
    {
      hide Recover, ReplayWrites, Quiet, Coherent, LogGood, Listed, InSlots, HeaderWrite, InstallWrites, Apply;
      LogReads(log, disk0);
      NoSlots(slots, num);
      Replay(GroupOf(log, disk0));
      num := 0;
      slots := Wiped(slots);
      done := 0;
      NoSlots(slots, 0);
      ReplayDone(log, disk0, disk, trace, slots);
      WriteHeader();
      ViewIsDisk(disk, blocks, InSlots(slots, 0, num), dirty, view);
    }

    /** The replay loop. */
    method Replay(ghost g: Group)
      requires CacheOk() && done == num && dirty == {} && trace == [] && view == disk && blocks == map[]
      requires Fits(log, disk, g) && g.slots == slots && |g.vals| == num
               && forall i :: 0 <= i < num ==> log + 1 + i in disk && g.vals[i] == disk[log + 1 + i]
      modifies `uses, `most, `lru, `blocks, `blockNum, `disk, `trace, `dirty, `view
      ensures CacheOk() && dirty == {} && NoneNewlyHeld(map[], blocks) && (old(most) <= MOST_BUSY ==> most <= MOST_BUSY)
      ensures disk == Apply(old(disk), InstallWrites(g)) && trace == InstallWrites(g) && disk.Keys == old(disk).Keys
    {
      hide Coherent, Listed, InstallWrites, Apply;
      NoSlots(slots, num);
      InstallNone(disk, g);
      for i := 0 to num
        invariant CacheOk() && dirty == {} && NoneNewlyHeld(map[], blocks)
                  && (old(most) <= MOST_BUSY ==> most <= MOST_BUSY)
        invariant view == disk && disk.Keys == old(disk).Keys
                  && forall b :: InLog(log, b) ==> b in disk && disk[b] == old(disk)[b]
        invariant disk == Apply(old(disk), InstallWrites(g)[..i]) && trace == InstallWrites(g)[..i]
      {
        InstallStep(old(disk), g, i);
        assert InLog(log, log + 1 + i) && InLog(log, log);
        StaysIdle(map[], blocks);
        CopyBlock(log + 1 + i, slots[i]);
      }
      assert InstallWrites(g)[..num] == InstallWrites(g);
    }

    /** Between calls: coherent, accounted for, and no group in the log on disk. */
    ghost predicate Valid()
      reads this
    {
      CacheOk() && done == 0 && !iscommit && LogGood(log, disk, num, slots, ops, outstanding)
    }

    /** The scan of the block list. */
    method Find(no: nat) returns (i: nat)
      ensures i <= |lru| && (i < |lru| ==> lru[i] == no) && (i == |lru| ==> no !in lru)
    {
      i := 0;
      while i < |lru| && lru[i] != no
        invariant i <= |lru| && no !in lru[..i]
      {
        i := i + 1;
      }
    }

    /**
      The eviction loop: from the least recently used end, idle blocks go until the cache is below its
      threshold.  So the idle blocks furthest back go, as many as it takes and no more, and the others
      keep their order.
     */
    method Evict() returns (ghost cut: nat)
      requires ListOk()
      modifies `lru, `blocks, `blockNum
      ensures ListOk() && cut <= |old(lru)| && blockNum <= old(blockNum)
      ensures lru == old(lru)[..cut] + Kept(old(lru)[cut..], old(blocks))
      ensures Evicted(old(blocks), blocks)
      ensures cut > 0 ==> blockNum < EVICTION_THRESHOLD
      ensures DropsOldest(old(lru), old(blocks), lru)
    {
      hide Kept, Listed, DropsOldest, Recent;
      var p: nat := |lru|;
      ghost var all := lru;
      EvictStart(all, blocks, blockNum);
      ListedKeys(lru, blocks, blockNum);
      while p > 0 && blockNum >= EVICTION_THRESHOLD
        invariant p <= |all| && ListOk() && all == old(lru) && blockNum <= old(blockNum)
        invariant blockNum == |lru| && lru == all[..p] + Kept(all[p..], old(blocks))
        invariant p < |all| ==> |all[..p + 1] + Kept(all[p + 1..], old(blocks))| >= EVICTION_THRESHOLD
        invariant forall b :: b in blocks ==> b in old(blocks) && blocks[b] == old(blocks)[b]
      {
        p := p - 1;
        EvictStep(all, p, lru, old(blocks));
        ListedKeys(lru, blocks, blockNum);
        var curr := lru[p];
        if !blocks[curr].acquired && !blocks[curr].pinned {
          DropAt(p);
        }
      }
      cut := p;
      ListedKeys(lru, blocks, blockNum);
      EvictKeepsBusy(old(lru), cut, old(blocks));
      CutDropsOldest(all, old(blocks), cut);
    }

    /** `_detach_from_list` and `kfree` of the block at position p. */
    method DropAt(p: nat)
      requires ListOk() && p < |lru|
      modifies `lru, `blocks, `blockNum
      ensures ListOk() && lru == old(lru)[..p] + old(lru)[p + 1..] && blockNum == old(blockNum) - 1 == |lru|
      ensures blocks == old(blocks) - {old(lru)[p]}
    {
      DroppedAt(lru, p);
      RecentDrop(lru, p, uses);
      blockNum := blockNum - 1;
      blocks := blocks - {lru[p]};
      lru := lru[..p] + lru[p + 1..];
    }

    /**
      `cache_acquire`: the holder sees the current contents; nothing any reader can see changes.  The
      block is now the one used last; of the others none goes on a hit, and on a miss only the idle
      ones furthest back, as many as the threshold asks for, while the rest keep their order.
     */
    method Acquire(no: nat) returns (data: Data)
      requires CacheOk() && no in disk && no != log && (no in blocks ==> !blocks[no].acquired)
      modifies `uses, `most, `lru, `blocks, `blockNum
      ensures CacheOk()
      ensures no in blocks && blocks[no].acquired && data == blocks[no].data == view[no] && lru[0] == no
      ensures Retained(old(blocks), blocks, no)
      ensures uses == old(uses) + [no] && UsedLast(old(lru), old(blocks), lru, no)
      ensures most == if no in old(blocks) then old(most) else Max(old(most), |Kept(old(lru), old(blocks))|)
      ensures no !in old(blocks) ==> blockNum <= Max(EVICTION_THRESHOLD, |Kept(old(lru), old(blocks))| + 1)
    {
      hide Kept, Recent, UsedLast, Listed, Coherent, Retained;
      ListedKeys(lru, blocks, blockNum);
      var i := Find(no);
      if i < |lru| {
        RetainedHit(blocks, no);
        Hit(i);
      } else {
        Miss(no);
      }
      CoherentAt(disk, blocks, InSlots(slots, done, num), dirty, view, no);
      data := blocks[no].data;
    }

    method Hit(i: nat)
      requires CacheOk() && i < |lru|
      modifies `uses, `most, `lru, `blocks
      ensures CacheOk() && most == old(most)
      ensures var no := old(lru)[i];
              && no in old(blocks) && lru[0] == no && blocks == old(blocks)[no := old(blocks)[no].(acquired := true)]
              && uses == old(uses) + [no] && UsedLast(old(lru), old(blocks), lru, no)
    {
      hide Recent, UsedLast, Coherent, InSlots, Listed;
      var no := lru[i];
      assert no in blocks by { ListedKeys(lru, blocks, blockNum); }
      MovedListed(lru, i, blocks, blockNum, blocks[no].(acquired := true));
      HoldCoherent(disk, blocks, InSlots(slots, done, num), dirty, view, no, true);
      MovedLast(lru, i, blocks, uses);
      blocks := blocks[no := blocks[no].(acquired := true)];
      lru := [no] + (lru[..i] + lru[i + 1..]);
      uses := uses + [no];
    }

    method Miss(no: nat)
      requires CacheOk() && no in disk && no != log && no !in blocks
      modifies `uses, `most, `lru, `blocks, `blockNum
      ensures CacheOk()
      ensures no in blocks && blocks[no] == Block(disk[no], true, false) && lru[0] == no
      ensures Retained(old(blocks), blocks, no)
      ensures uses == old(uses) + [no] && UsedLast(old(lru), old(blocks), lru, no)
      ensures most == Max(old(most), |Kept(old(lru), old(blocks))|)
      ensures blockNum <= Max(EVICTION_THRESHOLD, |Kept(old(lru), old(blocks))| + 1)
    {
      hide Coherent, InSlots, Kept, Listed, Evicted, Retained, Recent, UsedLast, DropsOldest;
      ListedKeys(lru, blocks, blockNum);
      MakeRoom();
      EvictCoherent(disk, old(blocks), blocks, InSlots(slots, done, num), dirty, view);
      RetainedLoad(old(blocks), blocks, no, log, Block(disk[no], true, false));
      LoadCoherent(disk, blocks, InSlots(slots, done, num), dirty, view, no);
      Load(no, disk[no], old(lru), old(blocks));
    }

    /** The cache is full: idle blocks go. */
    method MakeRoom()
      requires ListOk()
      modifies `lru, `blocks, `blockNum
      ensures ListOk() && Evicted(old(blocks), blocks) && (forall b | b in old(lru) :: b in old(blocks))
      ensures DropsOldest(old(lru), old(blocks), lru)
      ensures blockNum + 1 <= Max(EVICTION_THRESHOLD, |Kept(old(lru), old(blocks))| + 1)
    {
      hide Kept, Listed, Evicted, Recent, DropsOldest;
      EvictedSelf(blocks);
      ListedKeys(lru, blocks, blockNum);
      if blockNum >= EVICTION_THRESHOLD {
        ghost var cut := Evict();
        ListedKeys(lru, blocks, blockNum);
      } else {
        NoneDropped(lru, blocks);
      }
      LoadedSize(old(lru), old(blocks), lru);
    }

    /** A new block in front. */
    method Load(no: nat, data: Data, ghost before: seq<nat>, ghost held: map<nat, Block>)
      requires ListOk() && no !in blocks && (forall b | b in before :: b in held) && no !in before
      requires DropsOldest(before, held, lru)
      modifies `uses, `most, `lru, `blocks, `blockNum
      ensures ListOk() && blockNum == old(blockNum) + 1 && lru == [no] + old(lru)
      ensures blocks == old(blocks)[no := Block(data, true, false)]
      ensures uses == old(uses) + [no] && UsedLast(before, held, lru, no)
      ensures most == Max(old(most), |Kept(before, held)|)
    {
      hide Kept, Listed, Recent, UsedLast, DropsOldest;
      ListedKeys(lru, blocks, blockNum);
      ListedLoad(lru, blocks, blockNum, no, Block(data, true, false));
      LoadedLast(before, held, lru, no, uses);
      blockNum := blockNum + 1;
      blocks := blocks[no := Block(data, true, false)];
      lru := [no] + lru;
      uses, most := uses + [no], Max(most, |Kept(before, held)|);
    }

    /** The holder of a block changes its contents. */
    method Modify(no: nat, data: Data)
      requires CacheOk() && no in blocks && blocks[no].acquired
      modifies `blocks, `dirty, `view
      ensures CacheOk() && view == old(view)[no := data] && dirty == old(dirty) + {no}
      ensures blocks == old(blocks)[no := old(blocks)[no].(data := data)]
    {
      ModifyCoherent(disk, blocks, InSlots(slots, done, num), dirty, view, no, data);
      blocks := blocks[no := blocks[no].(data := data)];
      dirty := dirty + {no};
      view := view[no := data];
    }

    /**
      `cache_release`.  A changed block may be let go without being synchronised; what readers see
      is then still what the cache will answer, after any eviction, exactly when the block is
      logged or the disk holds the same bytes.
     */
    method Release(no: nat)
      requires CacheOk() && no in blocks && blocks[no].acquired
      modifies `blocks, `dirty
      ensures blocks == old(blocks)[no := old(blocks)[no].(acquired := false)] && dirty == old(dirty) - {no}
      ensures CacheOk() <==> no in InSlots(slots, done, num) || view[no] == disk[no]
      ensures no !in old(dirty) ==> CacheOk()
    {
      hide Listed;
      ReleaseExact(disk, blocks, InSlots(slots, done, num), dirty, view, no);
      ListedSame(lru, blocks, blockNum, no, blocks[no].(acquired := false));
      blocks := blocks[no := blocks[no].(acquired := false)];
      dirty := dirty - {no};
    }

    /** `cache_sync` without a context: one device write. */
    method SyncDirect(no: nat)
      requires CacheOk() && no in blocks && blocks[no].acquired
      modifies `disk, `trace, `dirty
      ensures CacheOk() && dirty == old(dirty) - {no}
      ensures disk == old(disk)[no := blocks[no].data] && trace == old(trace) + [Write(no, blocks[no].data)]
    {
      WriteCoherent(disk, blocks, InSlots(slots, done, num), dirty, view, no);
      disk := disk[no := blocks[no].data];
      trace := trace + [Write(no, blocks[no].data)];
      dirty := dirty - {no};
    }

    // ----- operations -----

    /** `cache_begin_op` up to the point where it would sleep. */
    method BeginOp(op: nat) returns (started: bool)
      requires Valid() && op !in ops
      modifies `outstanding, `ops
      ensures Valid()
      ensures started <==> num + (old(outstanding) + 1) * OP_MAX_NUM_BLOCKS <= LOG_MAX_SIZE
      ensures ops == if started then old(ops)[op := 0] else old(ops)
    {
      if iscommit || num + (outstanding + 1) * OP_MAX_NUM_BLOCKS > LOG_MAX_SIZE {
        return false;
      }
      AccountedBegin(num, ops, outstanding, op);
      outstanding := outstanding + 1;
      ops := ops[op := 0];
      started := true;
    }

    /** The search of the header for a block that is already logged. */
    method InHeader(no: u64) returns (found: bool)
      requires num <= LOG_MAX_SIZE
      ensures found <==> no in InSlots(slots, 0, num)
    {
      for i := 0 to num
        invariant forall j :: 0 <= j < i ==> slots[j] != no
      {
        if slots[i] == no { return true; }
      }
      found := false;
    }

    /**
      `cache_sync` in an operation.  It panics exactly when a new block exceeds the operation's own
      budget: the log itself is never full.
     */
    method Sync(op: nat, no: u64) returns (ok: bool)
      requires Valid() && op in ops && no in blocks && blocks[no].acquired && !InLog(log, no)
      modifies `blocks, `dirty, `num, `slots, `ops
      ensures ok <==> no in InSlots(old(slots), 0, old(num)) || old(ops)[op] < OP_MAX_NUM_BLOCKS
      ensures ok ==> Valid() && dirty == old(dirty) - {no}
      ensures ok ==> blocks == old(blocks)[no := old(blocks)[no].(pinned := true)]
      ensures ok ==> InSlots(slots, 0, num) == InSlots(old(slots), 0, old(num)) + {no}
      ensures ok ==>
              ops == if no in InSlots(old(slots), 0, old(num)) then old(ops) else old(ops)[op := old(ops)[op] + 1]
    {
      hide Coherent, Listed, Loggable;
      var found := InHeader(no);
      if found {
        PinCoherent(disk, blocks, InSlots(slots, 0, num), dirty, view, no);
        assert InSlots(slots, 0, num) + {no} == InSlots(slots, 0, num);
        ListedSame(lru, blocks, blockNum, no, blocks[no].(pinned := true));
        blocks := blocks[no := blocks[no].(pinned := true)];
        dirty := dirty - {no};
        return true;
      }
      if ops[op] < OP_MAX_NUM_BLOCKS { AccountedSync(num, ops, outstanding, op); }
      if ops[op] >= OP_MAX_NUM_BLOCKS || num >= LOG_MAX_SIZE {
        return false;
      }
      Append(op, no);
      ok := true;
    }

    method Append(op: nat, no: u64)
      requires Valid() && op in ops && ops[op] < OP_MAX_NUM_BLOCKS && num < LOG_MAX_SIZE
      requires no in blocks && !InLog(log, no) && no !in InSlots(slots, 0, num)
      modifies `blocks, `dirty, `num, `slots, `ops
      ensures Valid() && dirty == old(dirty) - {no}
      ensures blocks == old(blocks)[no := old(blocks)[no].(pinned := true)]
      ensures InSlots(slots, 0, num) == InSlots(old(slots), 0, old(num)) + {no}
      ensures ops == old(ops)[op := old(ops)[op] + 1]
    {
      PinCoherent(disk, blocks, InSlots(slots, 0, num), dirty, view, no);
      ListedSame(lru, blocks, blockNum, no, blocks[no].(pinned := true));
      blocks := blocks[no := blocks[no].(pinned := true)];
      dirty := dirty - {no};
      Push(op, no);
    }

    method Push(op: nat, no: u64)
      requires ListOk() && Bounded() && log !in blocks && done == 0 && !iscommit
               && LogGood(log, disk, num, slots, ops, outstanding)
      requires op in ops && ops[op] < OP_MAX_NUM_BLOCKS && num < LOG_MAX_SIZE && no !in InSlots(slots, 0, num)
               && !InLog(log, no) && no in disk
      requires Coherent(disk, blocks, InSlots(slots, 0, num) + {no}, dirty, view)
      modifies `num, `slots, `ops
      ensures Valid() && InSlots(slots, 0, num) == InSlots(old(slots), 0, old(num)) + {no}
      ensures ops == old(ops)[op := old(ops)[op] + 1]
    {
      hide LogGood, Coherent, Listed, InSlots;
      LogGoodAppend(log, disk, num, slots, ops, outstanding, op, no);
      InSlotsAppend(slots, num, no);
      slots := slots[num := no];
      num := num + 1;
      ops := ops[op := ops[op] + 1];
    }

    // ----- commit -----

    /**
      One round of the copy loops of `cache_end_op` and `init_bcache`: block `from` is copied to
      block `to` and written.
     */
    method CopyBlock(from: nat, to: nat)
      requires CacheOk() && dirty == {} && from in disk && to in disk && from != to && from != log && to != log
               && to !in InSlots(slots, done, num)
      requires (from in blocks ==> !blocks[from].acquired) && (to in blocks ==> !blocks[to].acquired)
      modifies `uses, `most, `lru, `blocks, `blockNum, `disk, `trace, `dirty, `view
      ensures CacheOk() && dirty == {} && NoneNewlyHeld(old(blocks), blocks)
      ensures var data := old(view)[from];
              disk == old(disk)[to := data] && trace == old(trace) + [Write(to, data)] && view == old(view)[to := data]
      ensures Idle(old(blocks)) && old(most) <= MOST_BUSY ==> most <= MOST_BUSY
    {
      hide *;
      var data := AcquireBoth(from, to);
      GivenBack(old(blocks), blocks, from, to, data);
      WriteThrough(to, data);
      Release(from);
      Release(to);
    }

    /** The first loop of `cache_end_op`: every logged block goes to its log slot. */
    method WriteLog(ghost g: Group)
      requires CacheOk() && done == 0 && dirty == {} && Loggable(log, disk, slots, num)
      requires g.slots == slots && |g.vals| == num && (forall i :: 0 <= i < num ==> g.vals[i] == view[slots[i]])
      requires Unheld(log, blocks, InSlots(slots, 0, num))
      modifies `uses, `most, `lru, `blocks, `blockNum, `disk, `trace, `dirty, `view
      ensures CacheOk() && dirty == {} && NoneNewlyHeld(old(blocks), blocks)
      ensures disk == Apply(old(disk), LogWrites(log, g)) && trace == old(trace) + LogWrites(log, g)
              && disk.Keys == old(disk).Keys
      ensures SameData(log, old(view), view)
      ensures Idle(old(blocks)) && old(most) <= MOST_BUSY ==> most <= MOST_BUSY
    {
      hide Coherent, Listed, Loggable, Unheld, InSlots, Apply, LogWrites, SameData, InLog;
      CoherentKeys(disk, blocks, InSlots(slots, 0, num), dirty, view);
      LogWriteNone(disk, log, g);
      SameDataSelf(log, view);
      for i := 0 to num
        invariant CacheOk() && dirty == {} && NoneNewlyHeld(old(blocks), blocks)
        invariant disk.Keys == old(disk).Keys
        invariant disk == Apply(old(disk), LogWrites(log, g)[..i]) && trace == old(trace) + LogWrites(log, g)[..i]
        invariant SameData(log, old(view), view)
        invariant Idle(old(blocks)) && old(most) <= MOST_BUSY ==> most <= MOST_BUSY
      {
        LogWriteStep(old(disk), log, g, i);
        SlotFacts(log, old(disk), slots, num, old(blocks), blocks, i);
        SameDataAt(log, old(view), view, slots[i]);
        SameDataStep(log, old(view), view, log + 1 + i, g.vals[i]);
        if Idle(old(blocks)) { StaysIdle(old(blocks), blocks); }
        CopyBlock(slots[i], log + 1 + i);
      }
      assert LogWrites(log, g)[..num] == LogWrites(log, g);
    }

    /** One round of the second loop: the block goes home and is unpinned. */
    method InstallOne(i: nat)
      requires CacheOk() && done == i < num && dirty == {} && Loggable(log, disk, slots, num)
      requires slots[i] in blocks && !blocks[slots[i]].acquired
      modifies `uses, `most, `lru, `blocks, `blockNum, `disk, `trace, `dirty, `done
      ensures CacheOk() && done == i + 1 && dirty == {} && NoneNewlyHeld(old(blocks), blocks)
      ensures disk == old(disk)[slots[i] := view[slots[i]]] && trace == old(trace) + [Write(slots[i], view[slots[i]])]
      ensures Idle(old(blocks)) && old(most) <= MOST_BUSY ==> most <= MOST_BUSY
    {
      hide Coherent, Listed, InSlots, Kept, Recent, UsedLast, Retained, NoneNewlyHeld, Idle;
      InSlotsTail(log, disk, slots, num, i);
      if Idle(blocks) { IdleFew(slots[i]); }
      var data := Acquire(slots[i]);
      CoherentAt(disk, blocks, InSlots(slots, done, num), dirty, view, slots[i]);
      OnlyReleased(old(blocks), blocks, slots[i], blocks[slots[i]].(pinned := false, acquired := false));
      SyncAndUnpin(i);
    }

    /** Its end: the held block is written home, unpinned and released. */
    method SyncAndUnpin(i: nat)
      requires CacheOk() && done == i < num && dirty == {} && slots[i] in blocks && blocks[slots[i]].acquired
      requires InSlots(slots, i + 1, num) == InSlots(slots, i, num) - {slots[i] as nat} && slots[i] in view
               && blocks[slots[i]].data == view[slots[i]]
      modifies `blocks, `disk, `trace, `dirty, `done
      ensures CacheOk() && done == i + 1 && dirty == {}
      ensures blocks == old(blocks)[slots[i] := old(blocks)[slots[i]].(pinned := false, acquired := false)]
      ensures disk == old(disk)[slots[i] := view[slots[i]]] && trace == old(trace) + [Write(slots[i], view[slots[i]])]
    {
      hide Coherent, Listed, InSlots, Kept, Recent;
      var no := slots[i];
      SyncDirect(no);
      UnpinCoherent(disk, blocks, InSlots(slots, i, num), dirty, view, no);
      ListedSame(lru, blocks, blockNum, no, blocks[no].(pinned := false));
      blocks := blocks[no := blocks[no].(pinned := false)];
      done := done + 1;
      Release(no);
    }

    /** The second loop of `cache_end_op`. */
    method Install(ghost g: Group)
      requires CacheOk() && done == 0 && dirty == {} && Loggable(log, disk, slots, num)
      requires g.slots == slots && |g.vals| == num
               && (forall i :: 0 <= i < num ==> slots[i] in view && g.vals[i] == view[slots[i]])
      requires Unheld(log, blocks, InSlots(slots, 0, num))
      modifies `uses, `most, `lru, `blocks, `blockNum, `disk, `trace, `dirty, `done
      ensures CacheOk() && done == num && dirty == {} && NoneNewlyHeld(old(blocks), blocks)
      ensures disk == Apply(old(disk), InstallWrites(g)) && trace == old(trace) + InstallWrites(g)
              && disk.Keys == old(disk).Keys
      ensures Idle(old(blocks)) && old(most) <= MOST_BUSY ==> most <= MOST_BUSY
    {
      hide Coherent, Listed, Unheld, InSlots, Apply, InstallWrites, InLog;
      InstallNone(disk, g);
      for i := 0 to num
        invariant CacheOk() && done == i && dirty == {} && NoneNewlyHeld(old(blocks), blocks)
        invariant disk.Keys == old(disk).Keys && Loggable(log, disk, slots, num)
        invariant Idle(old(blocks)) && old(most) <= MOST_BUSY ==> most <= MOST_BUSY
        invariant disk == Apply(old(disk), InstallWrites(g)[..i]) && trace == old(trace) + InstallWrites(g)[..i]
      {
        InstallStep(old(disk), g, i);
        LoggedCached(disk, blocks, slots, i, num, dirty, view);
        SlotFacts(log, old(disk), slots, num, old(blocks), blocks, i);
        if Idle(old(blocks)) { StaysIdle(old(blocks), blocks); }
        InstallOne(i);
      }
      assert InstallWrites(g)[..num] == InstallWrites(g);
    }

    /** `write_header`. */
    method WriteHeader()
      requires CacheOk() && log in disk && log !in dirty && log !in InSlots(slots, done, num)
      modifies `disk, `trace, `view
      ensures CacheOk()
      ensures var w := HeaderWrite(log, num, slots);
              disk == old(disk)[log := w.data] && trace == old(trace) + [w] && view == old(view)[log := w.data]
    {
      var data := EncodeHeader(LogHeader(num, slots));
      disk := disk[log := data];
      trace := trace + [Write(log, data)];
      view := view[log := data];
    }

    /** The commit: log, header, install, header. */
    method Commit() returns (ghost g: Group)
      requires CacheOk() && done == 0 && dirty == {} && Loggable(log, disk, slots, num)
               && Unheld(log, blocks, InSlots(slots, 0, num))
      modifies `uses, `most, `lru, `blocks, `blockNum, `disk, `trace, `dirty, `view, `done, `num
      ensures CacheOk() && done == 0 && dirty == {} && num == 0
      ensures Fits(log, old(disk), g) && g.slots == slots && |g.vals| == old(num)
      ensures forall i :: 0 <= i < |g.vals| ==> g.slots[i] in old(view) && g.vals[i] == old(view)[g.slots[i]]
      ensures disk == Apply(old(disk), CommitWrites(log, g)) && trace == old(trace) + CommitWrites(log, g)
      ensures SameData(log, old(view), view) && NoneNewlyHeld(old(blocks), blocks)
      ensures Idle(old(blocks)) && old(most) <= MOST_BUSY ==> most <= MOST_BUSY
    {
      hide Coherent, Listed, Apply, CommitWrites, Unheld, InSlots, HeaderWrite, Loggable, Fits, SameData, LogWrites,
          InstallWrites, NoneNewlyHeld;
      CoherentKeys(disk, blocks, InSlots(slots, 0, num), dirty, view);
      g := Pending(log, disk, slots, num, view);
      LogPhase(g);
      ghost var logged := blocks;
      if Idle(old(blocks)) { StaysIdle(old(blocks), blocks); }
      InstallPhase(g, old(view));
      HeldTrans(old(blocks), logged, blocks);
      CommitApply(old(disk), old(trace), log, g);
    }

    method LogPhase(ghost g: Group)
      requires CacheOk() && done == 0 && dirty == {} && Loggable(log, disk, slots, num)
               && Unheld(log, blocks, InSlots(slots, 0, num))
      requires g.slots == slots && |g.vals| == num
               && (forall i :: 0 <= i < num ==> slots[i] in view && g.vals[i] == view[slots[i]])
      modifies `uses, `most, `lru, `blocks, `blockNum, `disk, `trace, `dirty, `view
      ensures CacheOk() && dirty == {} && disk.Keys == old(disk).Keys && Loggable(log, disk, slots, num)
              && Unheld(log, blocks, InSlots(slots, 0, num))
      ensures var h := HeaderWrite(log, num, slots);
              disk == Apply(old(disk), LogWrites(log, g))[log := h.data]
                  && trace == old(trace) + LogWrites(log, g) + [h]
      ensures SameData(log, old(view), view) && NoneNewlyHeld(old(blocks), blocks)
      ensures Idle(old(blocks)) && old(most) <= MOST_BUSY ==> most <= MOST_BUSY
    {
      hide Coherent, Listed, Apply, Unheld, NoneNewlyHeld, InSlots, HeaderWrite, Loggable;
      HeaderApart(log, disk, slots, num);
      WriteLog(g);
      CoherentKeys(disk, blocks, InSlots(slots, 0, num), dirty, view);
      assert InLog(log, log);
      WriteHeader();
      LoggableKeys(log, old(disk), disk, slots, num);
      StillUnheld(log, old(blocks), blocks, InSlots(slots, 0, num));
    }

    method InstallPhase(ghost g: Group, ghost v: Disk)
      requires CacheOk() && done == 0 && dirty == {} && Loggable(log, disk, slots, num)
               && Unheld(log, blocks, InSlots(slots, 0, num))
      requires g.slots == slots && |g.vals| == num && SameData(log, v, view)
               && (forall i :: 0 <= i < num ==> slots[i] in v && g.vals[i] == v[slots[i]])
      modifies `uses, `most, `lru, `blocks, `blockNum, `disk, `trace, `dirty, `view, `done, `num
      ensures CacheOk() && done == 0 && dirty == {} && num == 0
      ensures var z := HeaderWrite(log, 0, slots);
              disk == Apply(old(disk), InstallWrites(g))[log := z.data] && trace == old(trace) + InstallWrites(g) + [z]
      ensures SameData(log, v, view) && NoneNewlyHeld(old(blocks), blocks)
      ensures Idle(old(blocks)) && old(most) <= MOST_BUSY ==> most <= MOST_BUSY
    {
      hide Coherent, Listed, Apply, Unheld, NoneNewlyHeld, InSlots, HeaderWrite, Loggable;
      HeaderApart(log, disk, slots, num);
      LoggableKeys(log, disk, disk, slots, num);
      assert InLog(log, log);
      CoherentKeys(disk, blocks, InSlots(slots, 0, num), dirty, view);
      Install(g);
      done, num := 0, 0;
      NoSlots(slots, |g.vals|);
      WriteHeader();
    }

    /**
      `cache_end_op`.  Only the last running operation commits; it issues exactly the writes of
      `Wal.CommitWrites` for the blocks logged so far, leaves what readers see unchanged, and makes
      all of it durable.
     */
    method EndOp(op: nat) returns (ghost g: Group)
      requires Valid() && op in ops
      requires outstanding == 1 ==> dirty == {} && Unheld(log, blocks, InSlots(slots, 0, num))
      modifies this
      ensures Valid() && ops == old(ops) - {op} && NoneNewlyHeld(old(blocks), blocks)
      ensures dirty == old(dirty)
      ensures old(outstanding) > 1 ==>
                disk == old(disk) && trace == old(trace) && view == old(view) && num == old(num) && slots == old(slots)
      ensures old(outstanding) == 1 ==>
                && Fits(log, old(disk), g) && g.slots == old(slots) && |g.vals| == old(num)
                && (forall i :: 0 <= i < |g.vals| ==> g.slots[i] in old(view) && g.vals[i] == old(view)[g.slots[i]])
                && disk == Apply(old(disk), CommitWrites(log, g)) && trace == old(trace) + CommitWrites(log, g)
                && num == 0 && SameData(log, old(view), view) && SameData(log, view, disk)
      ensures old(outstanding) == 1 ==> CrashSafe(log, old(disk), old(view), trace[|old(trace)|..])
      ensures Idle(old(blocks)) && old(most) <= MOST_BUSY ==> most <= MOST_BUSY
    {
      hide Coherent, Listed, Apply, CommitWrites, Unheld, InSlots, Loggable, Fits, SameData, Accounted, Quiet,
          CrashSafe, NoneNewlyHeld;
      g := Group(slots, []);
      HeldSelf(blocks);
      AccountedEnd(num, ops, outstanding, op);
      outstanding := outstanding - 1;
      ops := ops - {op};
      if outstanding > 0 {
        return;
      }
      iscommit := true;
      g := Commit();
      CommittedGood(log, old(disk), disk, slots, ops, outstanding, old(num), g);
      AllClean(log, disk, blocks, InSlots(slots, 0, 0), dirty, view, slots);
      AllCrashesSafe(log, old(disk), old(view), view, disk, g);
      assert trace[|old(trace)|..] == CommitWrites(log, g);
      iscommit := false;
    }

    method WriteThrough(to: nat, data: Data)
      requires CacheOk() && to in blocks && blocks[to].acquired
      modifies `blocks, `disk, `trace, `dirty, `view
      ensures CacheOk() && dirty == old(dirty) - {to} && blocks == old(blocks)[to := old(blocks)[to].(data := data)]
      ensures disk == old(disk)[to := data] && trace == old(trace) + [Write(to, data)]
      ensures view == old(view)[to := data]
    {
      Modify(to, data);
      SyncDirect(to);
    }

    /** How many blocks are busy when at most h is held. */
    lemma HeldFew(h: nat)
      requires CacheOk() && HeldOnly(blocks, h)
      ensures |Kept(lru, blocks)| <= LOG_MAX_SIZE + 1
    {
      hide Recent, Kept;
      SlotsFew(slots, done, num);
      BusyFew(disk, blocks, InSlots(slots, done, num), dirty, view, lru, blockNum, h);
    }

    lemma IdleFew(h: nat)
      requires CacheOk() && Idle(blocks)
      ensures |Kept(lru, blocks)| <= LOG_MAX_SIZE + 1
    {
      hide CacheOk, Kept;
      IdleHeld(blocks, h);
      HeldFew(h);
    }

    /** `cache_acquire`, a look, and `cache_release`, when nobody holds a block. */
    method ReadBlock(no: nat) returns (data: Data)
      requires CacheOk() && dirty == {} && Idle(blocks) && no in disk && no != log
      modifies `uses, `most, `lru, `blocks, `blockNum, `dirty
      ensures CacheOk() && dirty == {} && Idle(blocks) && data == view[no]
      ensures Idle(old(blocks)) && old(most) <= MOST_BUSY ==> most <= MOST_BUSY
    {
      hide Coherent, Listed, InSlots, Retained, Idle;
      IdleAt(blocks, no);
      IdleFew(no);
      data := Acquire(no);
      OneHeld(old(blocks), blocks, no);
      OneBack(blocks, no, blocks[no].(acquired := false));
      Release(no);
    }

    /** A holder's change of one block in an operation: acquire, change, synchronise, release. */
    method Change(op: nat, no: u64, data: Data) returns (ok: bool)
      requires Valid() && dirty == {} && Idle(blocks) && op in ops && no in disk && !InLog(log, no) && no != log
      modifies `uses, `most, `lru, `blocks, `blockNum, `dirty, `view, `num, `slots, `ops
      ensures ok <==> no in InSlots(old(slots), 0, old(num)) || old(ops)[op] < OP_MAX_NUM_BLOCKS
      ensures ok ==> Valid() && dirty == {} && Idle(blocks) && view == old(view)[no := data]
      ensures ok ==> InSlots(slots, 0, num) == InSlots(old(slots), 0, old(num)) + {no}
      ensures ok ==>
              ops == if no in InSlots(old(slots), 0, old(num)) then old(ops) else old(ops)[op := old(ops)[op] + 1]
      ensures Idle(old(blocks)) && old(most) <= MOST_BUSY ==> most <= MOST_BUSY
    {
      hide Coherent, Listed, InSlots, Idle, HeldOnly, LogGood, InLog;
      AcquireAndModify(no, data);
      ghost var held := blocks;
      ok := Sync(op, no);
      if ok {
        OneBack(held, no, blocks[no].(acquired := false));
        Release(no);
        assert blocks == held[no := blocks[no]];
      }
    }

    method AcquireAndModify(no: nat, data: Data)
      requires CacheOk() && dirty == {} && Idle(blocks) && no in disk && no != log
      modifies `uses, `most, `lru, `blocks, `blockNum, `dirty, `view
      ensures CacheOk() && dirty == {no} && HeldOnly(blocks, no) && view == old(view)[no := data]
      ensures no in blocks && blocks[no].acquired
      ensures Idle(old(blocks)) && old(most) <= MOST_BUSY ==> most <= MOST_BUSY
    {
      hide Coherent, Listed, InSlots, Retained, Idle;
      IdleAt(blocks, no);
      IdleFew(no);
      var stale := Acquire(no);
      OneHeld(old(blocks), blocks, no);
      Modify(no, data);
    }

    method AcquireBoth(from: nat, to: nat) returns (data: Data)
      requires CacheOk() && from in disk && to in disk && from != to && from != log && to != log
      requires (from in blocks ==> !blocks[from].acquired) && (to in blocks ==> !blocks[to].acquired)
      modifies `uses, `most, `lru, `blocks, `blockNum
      ensures CacheOk() && data == view[from]
      ensures from in blocks && to in blocks && blocks[from].acquired && blocks[to].acquired
      ensures HeldBoth(old(blocks), blocks, from, to)
      ensures Idle(old(blocks)) && old(most) <= MOST_BUSY ==> most <= MOST_BUSY
    {
      hide Coherent, Listed, InSlots, Kept, Retained, HeldBoth, Idle, Recent, UsedLast, HeldOnly;
      if Idle(blocks) { IdleFew(from); }
      data := Acquire(from);
      ghost var held := blocks;
      if Idle(old(blocks)) {
        OneHeld(old(blocks), blocks, from);
        HeldFew(from);
      }
      RetainedIdle(old(blocks), blocks, from, to);
      var stale := Acquire(to);
      BothHeld(old(blocks), held, blocks, from, to);
    }
  }

  /** Nobody holds a block. */
  ghost predicate Idle(blocks: map<nat, Block>) {
    forall b :: b in blocks ==> !blocks[b].acquired
  }

  lemma {:induction false} IdleAt(blocks: map<nat, Block>, no: nat)
    requires Idle(blocks)
    ensures no in blocks ==> !blocks[no].acquired
  {
  }

  /** Only `no` is held. */
  ghost predicate HeldOnly(blocks: map<nat, Block>, no: nat) {
    forall b :: b in blocks && b != no ==> !blocks[b].acquired
  }

  lemma {:induction false} OneHeld(before: map<nat, Block>, after: map<nat, Block>, no: nat)
    requires Idle(before) && Retained(before, after, no)
    ensures HeldOnly(after, no)
  {
  }

  lemma {:induction false} OneBack(blocks: map<nat, Block>, no: nat, b: Block)
    requires HeldOnly(blocks, no) && !b.acquired
    ensures Idle(blocks[no := b])
  {
  }

  lemma {:induction false} IdleHeld(blocks: map<nat, Block>, h: nat)
    requires Idle(blocks)
    ensures HeldOnly(blocks, h)
  {
  }

  lemma {:induction false} SlotsFew(slots: Slots, lo: nat, hi: nat)
    requires lo <= hi <= LOG_MAX_SIZE
    ensures |InSlots(slots, lo, hi)| <= hi - lo
    decreases hi
  {
    if lo < hi {
      SlotsFew(slots, lo, hi - 1);
      assert InSlots(slots, lo, hi) == InSlots(slots, lo, hi - 1) + {slots[hi - 1] as nat};
    } else {
      assert InSlots(slots, lo, hi) == {};
    }
  }

  lemma {:induction false} BusyFew(disk: Disk, blocks: map<nat, Block>, logged: set<nat>, dirty: set<nat>, view: Disk,
                                   lru: seq<nat>, blockNum: nat, h: nat)
    requires Coherent(disk, blocks, logged, dirty, view) && Listed(lru, blocks, blockNum) && HeldOnly(blocks, h)
    ensures |Kept(lru, blocks)| <= |logged| + 1
  {
    var k := Kept(lru, blocks);
    forall x | x in k ensures x in logged + {h} {}
    Lists.FitsSet(k, logged + {h});
  }

  lemma {:induction false} IdleUnheld(log: nat, blocks: map<nat, Block>, logged: set<nat>)
    requires Idle(blocks)
    ensures Unheld(log, blocks, logged)
  {
  }

  lemma {:induction false} StaysIdle(before: map<nat, Block>, after: map<nat, Block>)
    requires Idle(before) && NoneNewlyHeld(before, after)
    ensures Idle(after)
  {
  }

  /** Nobody holds a log block or a logged block. */
  ghost predicate Unheld(log: nat, blocks: map<nat, Block>, logged: set<nat>) {
    forall b :: b in blocks && (InLog(log, b) || b in logged) ==> !blocks[b].acquired
  }

  /** Two views agree outside the log area. */
  ghost predicate SameData(log: nat, v: Disk, w: Disk) {
    v.Keys == w.Keys && forall b :: b in v && !InLog(log, b) ==> v[b] == w[b]
  }

  /** After any prefix of the writes, replay gives the data that was on the disk, or the data that readers saw. */
  ghost predicate CrashSafe(log: nat, d: Disk, v: Disk, writes: seq<Write>) {
    forall k: nat | k <= |writes| ::
      var e := Apply(d, writes[..k]);
      Recoverable(log, e)
          && (DataOf(log, Recover(log, e)) == DataOf(log, d) || DataOf(log, Recover(log, e)) == DataOf(log, v))
  }

  lemma {:induction false} AllCrashesSafe(log: nat, d: Disk, v: Disk, w: Disk, e: Disk, g: Group)
    requires Quiet(log, d) && Fits(log, d, g) && e == Apply(d, CommitWrites(log, g))
    requires SameData(log, v, w) && SameData(log, w, e)
    ensures CrashSafe(log, d, v, CommitWrites(log, g))
  {
    hide Apply, CommitWrites, Recover, Quiet;
    CommitDone(log, d, g);
    assert DataOf(log, v) == DataOf(log, e);
    forall k: nat | k <= |CommitWrites(log, g)|
      ensures var u := Apply(d, CommitWrites(log, g)[..k]);
              Recoverable(log, u)
                  && (DataOf(log, Recover(log, u)) == DataOf(log, d) || DataOf(log, Recover(log, u)) == DataOf(log, v))
    {
      CrashAtomic(log, d, g, k);
    }
  }

  lemma {:induction false} CoherentKeys(disk: Disk, blocks: map<nat, Block>, logged: set<nat>, dirty: set<nat>,
                                        view: Disk)
    requires Coherent(disk, blocks, logged, dirty, view)
    ensures view.Keys == disk.Keys
  {
  }

  lemma {:induction false} SameDataSelf(log: nat, v: Disk)
    ensures SameData(log, v, v)
  {
  }

  lemma {:induction false} SameDataAt(log: nat, v: Disk, w: Disk, b: nat)
    requires SameData(log, v, w) && b in v && !InLog(log, b)
    ensures b in w && w[b] == v[b]
  {
  }

  lemma {:induction false} SameDataStep(log: nat, v: Disk, w: Disk, b: nat, data: Data)
    requires SameData(log, v, w) && b in v && InLog(log, b)
    ensures SameData(log, v, w[b := data])
  {
  }

  lemma {:induction false} SlotFacts(log: nat, disk: Disk, slots: Slots, num: nat, before: map<nat, Block>,
                                     blocks: map<nat, Block>, i: nat)
    requires Loggable(log, disk, slots, num) && i < num && Unheld(log, before, InSlots(slots, 0, num))
             && NoneNewlyHeld(before, blocks)
    ensures InLog(log, log + 1 + i) && log + 1 + i in disk && slots[i] in disk && !InLog(log, slots[i])
            && slots[i] != log + 1 + i
    ensures log + 1 + i !in InSlots(slots, 0, num) && slots[i] in InSlots(slots, 0, num)
    ensures slots[i] != log
    ensures slots[i] in blocks ==> !blocks[slots[i]].acquired
    ensures log + 1 + i in blocks ==> !blocks[log + 1 + i].acquired
  {
    var to := log + 1 + i;
    assert InLog(log, to) && InLog(log, log);
  }

  lemma {:induction false} InSlotsTail(log: nat, disk: Disk, slots: Slots, num: nat, i: nat)
    requires Loggable(log, disk, slots, num) && i < num
    ensures InSlots(slots, i + 1, num) == InSlots(slots, i, num) - {slots[i] as nat}
            && slots[i] in InSlots(slots, i, num) && slots[i] != log && slots[i] in disk
  {
    assert InLog(log, log);
  }

  lemma {:induction false} LoggedCached(disk: Disk, blocks: map<nat, Block>, slots: Slots, i: nat, num: nat,
                                        dirty: set<nat>, view: Disk)
    requires i < num <= LOG_MAX_SIZE && Coherent(disk, blocks, InSlots(slots, i, num), dirty, view)
    ensures slots[i] in blocks
  {
  }

  lemma {:induction false} InstallNone(d: Disk, g: Group)
    requires |g.vals| <= LOG_MAX_SIZE
    ensures InstallWrites(g)[..0] == [] && Apply(d, InstallWrites(g)[..0]) == d
  {
  }

  lemma {:induction false} InstallStep(d: Disk, g: Group, i: nat)
    requires i < |g.vals| <= LOG_MAX_SIZE
    ensures InstallWrites(g)[..i + 1] == InstallWrites(g)[..i] + [Write(g.slots[i], g.vals[i])]
    ensures Apply(d, InstallWrites(g)[..i + 1]) == Apply(d, InstallWrites(g)[..i])[g.slots[i] := g.vals[i]]
  {
    ApplyAppend(d, InstallWrites(g)[..i], Write(g.slots[i], g.vals[i]));
  }

  /** The group that the in-memory header describes. */
  ghost function Pending(log: nat, disk: Disk, slots: Slots, num: nat, view: Disk): (g: Group)
    requires Loggable(log, disk, slots, num) && view.Keys == disk.Keys
    ensures g.slots == slots && |g.vals| == num && Fits(log, disk, g)
    ensures forall i :: 0 <= i < num ==> slots[i] in view && g.vals[i] == view[slots[i]]
  {
    Group(slots, seq(num, i requires 0 <= i < num => view[slots[i]]))
  }

  lemma {:induction false} HeaderApart(log: nat, disk: Disk, slots: Slots, num: nat)
    requires Loggable(log, disk, slots, num)
    ensures log in disk && log !in InSlots(slots, 0, num)
  {
    assert InLog(log, log);
  }

  lemma {:induction false} LoggableKeys(log: nat, d: Disk, e: Disk, slots: Slots, num: nat)
    requires Loggable(log, d, slots, num) && e.Keys == d.Keys
    ensures Loggable(log, e, slots, num) && forall i :: 0 <= i < num ==> !InLog(log, slots[i])
  {
  }

  lemma {:induction false} StillUnheld(log: nat, before: map<nat, Block>, blocks: map<nat, Block>, logged: set<nat>)
    requires Unheld(log, before, logged) && NoneNewlyHeld(before, blocks)
    ensures Unheld(log, blocks, logged)
  {
  }

  lemma {:induction false} NoSlots(slots: Slots, num: nat)
    requires num <= LOG_MAX_SIZE
    ensures InSlots(slots, num, num) == {} == InSlots(slots, 0, 0)
  {
  }

  lemma {:induction false} CommitApply(d: Disk, trace: seq<Write>, log: nat, g: Group)
    requires |g.vals| <= LOG_MAX_SIZE
    ensures var h, z := HeaderWrite(log, |g.vals|, g.slots), HeaderWrite(log, 0, g.slots);
            && Apply(d, CommitWrites(log, g)) ==
                  Apply(Apply(d, LogWrites(log, g))[log := h.data], InstallWrites(g))[log := z.data]
            && trace + CommitWrites(log, g) == trace + LogWrites(log, g) + [h] + InstallWrites(g) + [z]
  {
    var l, i := LogWrites(log, g), InstallWrites(g);
    var h, z := HeaderWrite(log, |g.vals|, g.slots), HeaderWrite(log, 0, g.slots);
    hide Apply, LogWrites, InstallWrites, HeaderWrite;
    ApplyAppend(d, l, h);
    ApplyConcat(d, l + [h], i);
    ApplyAppend(d, l + [h] + i, z);
    assert CommitWrites(log, g) == l + [h] + i + [z];
    Traced(trace, l, [h], i, [z]);
  }

  lemma {:induction false} Traced(t: seq<Write>, a: seq<Write>, b: seq<Write>, c: seq<Write>, e: seq<Write>)
    ensures t + (a + b + c + e) == t + a + b + c + e
  {
  }

  lemma {:induction false} CommittedGood(log: nat, d: Disk, e: Disk, slots: Slots, ops: map<nat, nat>,
                                         outstanding: nat, num: nat, g: Group)
    requires Fits(log, d, g) && e == Apply(d, CommitWrites(log, g)) && Accounted(num, ops, outstanding)
    ensures LogGood(log, e, 0, slots, ops, outstanding)
  {
    CommitDone(log, d, g);
  }

  lemma {:induction false} AllClean(log: nat, disk: Disk, blocks: map<nat, Block>, logged: set<nat>, dirty: set<nat>,
                                    view: Disk, slots: Slots)
    requires Coherent(disk, blocks, logged, dirty, view) && logged == InSlots(slots, 0, 0) && dirty == {}
    ensures SameData(log, view, disk)
  {
    NoSlots(slots, 0);
  }

  lemma {:induction false} FreshCoherent(disk: Disk, slots: Slots, num: nat)
    requires num <= LOG_MAX_SIZE
    ensures Coherent(disk, map[], InSlots(slots, num, num), {}, disk)
  {
    NoSlots(slots, num);
  }

  lemma {:induction false} LogReads(log: nat, disk: Disk)
    requires Readable(log, disk)
    ensures var g := GroupOf(log, disk);
            log in disk && forall i :: 0 <= i < |g.vals| ==> log + 1 + i in disk && g.vals[i] == disk[log + 1 + i]
  {
    assert InLog(log, log);
    forall i | 0 <= i < |GroupOf(log, disk).vals|
      ensures log + 1 + i in disk && GroupOf(log, disk).vals[i] == disk[log + 1 + i]
    {
      assert InLog(log, log + 1 + i);
    }
  }

  lemma {:induction false} ViewIsDisk(disk: Disk, blocks: map<nat, Block>, logged: set<nat>, dirty: set<nat>,
                                      view: Disk)
    requires Coherent(disk, blocks, logged, dirty, view) && logged == {} && dirty == {}
    ensures view == disk
  {
  }

  /** The last write of the replay completes `Wal.ReplayWrites`. */
  lemma {:induction false} ReplayDone(log: nat, disk0: Disk, disk: Disk, trace: seq<Write>, slots: Slots)
    requires Recoverable(log, disk0) && slots == Wiped(GroupOf(log, disk0).slots)
    requires disk == Apply(disk0, InstallWrites(GroupOf(log, disk0))) && trace == InstallWrites(GroupOf(log, disk0))
    ensures var w := HeaderWrite(log, 0, slots);
            && disk[log := w.data] == Recover(log, disk0) && trace + [w] == ReplayWrites(log, disk0)
            && LogGood(log, disk[log := w.data], 0, slots, map[], 0)
  {
    RecoverInstalls(log, disk0);
    ApplyAppend(disk0, trace, HeaderWrite(log, 0, slots));
  }

  lemma {:induction false} LogWriteNone(d: Disk, log: nat, g: Group)
    ensures LogWrites(log, g)[..0] == [] && Apply(d, LogWrites(log, g)[..0]) == d
  {
  }

  lemma {:induction false} LogWriteStep(d: Disk, log: nat, g: Group, i: nat)
    requires i < |g.vals|
    ensures LogWrites(log, g)[..i + 1] == LogWrites(log, g)[..i] + [Write(log + 1 + i, g.vals[i])]
    ensures Apply(d, LogWrites(log, g)[..i + 1]) == Apply(d, LogWrites(log, g)[..i])[log + 1 + i := g.vals[i]]
  {
    ApplyAppend(d, LogWrites(log, g)[..i], Write(log + 1 + i, g.vals[i]));
  }

  /** Apart from two acquired blocks, cached blocks are the ones that were cached, unchanged. */
  ghost predicate HeldBoth(before: map<nat, Block>, after: map<nat, Block>, x: nat, y: nat) {
    x in after && y in after && forall b :: b in after && b != x && b != y ==> b in before && after[b] == before[b]
  }

  lemma {:induction false} OnlyReleased(before: map<nat, Block>, mid: map<nat, Block>, no: nat, b: Block)
    requires Retained(before, mid, no) && !b.acquired
    ensures NoneNewlyHeld(before, mid[no := b])
  {
  }

  lemma {:induction false} RetainedIdle(before: map<nat, Block>, after: map<nat, Block>, from: nat, to: nat)
    requires Retained(before, after, from) && from != to && (to in before ==> !before[to].acquired)
    ensures to in after ==> !after[to].acquired
  {
  }

  lemma {:induction false} BothHeld(before: map<nat, Block>, mid: map<nat, Block>, after: map<nat, Block>, from: nat,
                                    to: nat)
    requires Retained(before, mid, from) && Retained(mid, after, to) && from != to
    requires from in mid && mid[from].acquired && to in after
    ensures HeldBoth(before, after, from, to) && after[from].acquired
  {
    assert Busy(mid[from]);
  }

  lemma {:induction false} GivenBack(before: map<nat, Block>, mid: map<nat, Block>, from: nat, to: nat, data: Data)
    requires HeldBoth(before, mid, from, to) && from != to
    ensures var w := mid[to := mid[to].(data := data)];
            var r := w[from := w[from].(acquired := false)];
            NoneNewlyHeld(before, r[to := r[to].(acquired := false)])
  {
  }

  ghost predicate NoneNewlyHeld(before: map<nat, Block>, after: map<nat, Block>) {
    forall b :: b in after && after[b].acquired ==> b in before && before[b].acquired
  }

  lemma {:induction false} HeldSelf(blocks: map<nat, Block>)
    ensures NoneNewlyHeld(blocks, blocks)
  {
  }

  lemma {:induction false} HeldTrans(a: map<nat, Block>, b: map<nat, Block>, c: map<nat, Block>)
    requires NoneNewlyHeld(a, b) && NoneNewlyHeld(b, c)
    ensures NoneNewlyHeld(a, c)
  {
  }

  /** Apart from block `no`, cached blocks are the ones that were cached, unchanged, and no busy one is gone. */
  ghost predicate Retained(before: map<nat, Block>, after: map<nat, Block>, no: nat) {
    && (forall b :: b in after && b != no ==> b in before && after[b] == before[b])
    && (forall b :: b in before && Busy(before[b]) ==> b in after)
    && (no in before && no in after ==> after[no] == before[no].(acquired := true))
  }

  lemma {:induction false} Prepended(s: seq<nat>, no: nat)
    requires Lists.Distinct(s) && no !in s
    ensures Lists.Distinct([no] + s) && forall b :: b in [no] + s <==> b == no || b in s
  {
  }

  lemma {:induction false} ListedKeys(lru: seq<nat>, blocks: map<nat, Block>, blockNum: nat)
    requires Listed(lru, blocks, blockNum)
    ensures (forall b :: b in lru <==> b in blocks) && blockNum == |lru| && Lists.Distinct(lru)
  {
  }

  lemma {:induction false} ListedLoad(lru: seq<nat>, blocks: map<nat, Block>, blockNum: nat, no: nat, b: Block)
    requires Listed(lru, blocks, blockNum) && no !in blocks
    ensures Listed([no] + lru, blocks[no := b], blockNum + 1)
  {
    Prepended(lru, no);
  }

  lemma {:induction false} RetainedLoad(before: map<nat, Block>, after: map<nat, Block>, no: nat, log: nat, b: Block)
    requires Evicted(before, after) && no !in before && log !in before
    ensures no !in after && log !in after && Retained(before, after[no := b], no)
  {
  }

  lemma {:induction false} NoneDropped(lru: seq<nat>, blocks: map<nat, Block>)
    requires (forall b | b in lru :: b in blocks) && |lru| < EVICTION_THRESHOLD
    ensures DropsOldest(lru, blocks, lru)
  {
    forall x, y | Lists.Before(lru, x, y) ensures x in lru && y in lru {}
  }

  lemma {:induction false} KeptOrder(s: seq<nat>, blocks: map<nat, Block>, x: nat, y: nat)
    requires forall b | b in s :: b in blocks
    ensures Lists.Before(Kept(s, blocks), x, y)
            <==> Lists.Before(s, x, y) && x in Kept(s, blocks) && y in Kept(s, blocks)
  {
    hide Lists.Before;
    Lists.BeforeIn(s, x, y);
    Lists.BeforeIn(Kept(s, blocks), x, y);
    if s != [] {
      var rest := s[1..];
      var k, l := Kept(s, blocks), Kept(rest, blocks);
      KeptOrder(rest, blocks, x, y);
      Lists.BeforeTail(s, x, y);
      Lists.BeforeIn(rest, x, y);
      Lists.BeforeIn(l, x, y);
      if Busy(blocks[s[0]]) {
        assert k == [s[0]] + l && k[0] == s[0] && k[1..] == l;
        Lists.BeforeTail(k, x, y);
      } else {
        assert k == l;
      }
    }
  }

  lemma {:induction false} CutOrder(all: seq<nat>, blocks: map<nat, Block>, cut: nat, x: nat, y: nat)
    requires (forall b | b in all :: b in blocks) && cut <= |all| && Lists.Distinct(all)
    ensures var kept := all[..cut] + Kept(all[cut..], blocks);
            Lists.Before(kept, x, y) <==> Lists.Before(all, x, y) && x in kept && y in kept
  {
    var a, b := all[..cut], all[cut..];
    assert all == a + b;
    Lists.BeforeConcat(a, b, x, y);
    Lists.BeforeConcat(a, Kept(b, blocks), x, y);
    KeptOrder(b, blocks, x, y);
    Lists.SplitApart(a, b);
    Lists.BeforeIn(a, x, y);
    Lists.BeforeIn(b, x, y);
  }

  lemma {:induction false} CutDropsOldest(all: seq<nat>, blocks: map<nat, Block>, cut: nat)
    requires (forall b | b in all :: b in blocks) && cut <= |all| && Lists.Distinct(all)
    requires cut > 0 ==> |all[..cut] + Kept(all[cut..], blocks)| < EVICTION_THRESHOLD
    requires cut < |all| ==> |all[..cut + 1] + Kept(all[cut + 1..], blocks)| >= EVICTION_THRESHOLD
    ensures DropsOldest(all, blocks, all[..cut] + Kept(all[cut..], blocks))
  {
    var a, b := all[..cut], all[cut..];
    var kept := a + Kept(b, blocks);
    assert all == a + b;
    forall x, y ensures Lists.Before(kept, x, y) <==> Lists.Before(all, x, y) && x in kept && y in kept {
      CutOrder(all, blocks, cut, x, y);
    }
    forall x, y | x in all && x !in kept && y in kept && y in all && !Busy(blocks[y]) ensures Lists.Before(all, y, x) {
      assert x in b && y in a;
      Lists.BeforeConcat(a, b, y, x);
    }
    if cut < |all| {
      assert b[0] == all[cut] && b[1..] == all[cut + 1..];
    } else {
      assert b == [] && kept == all;
    }
  }

  /** How large the cache is after a load. */
  lemma {:induction false} LoadedSize(lru: seq<nat>, blocks: map<nat, Block>, kept: seq<nat>)
    requires (forall b | b in lru :: b in blocks) && Lists.Distinct(lru) && Lists.Distinct(kept)
             && DropsOldest(lru, blocks, kept)
    ensures |kept| + 1 <= Max(EVICTION_THRESHOLD, |Kept(lru, blocks)| + 1)
  {
    if |kept| >= EVICTION_THRESHOLD {
      forall x | x in kept ensures x in Kept(lru, blocks) {}
      Lists.FitsInto(kept, Kept(lru, blocks));
    }
  }

  lemma {:induction false} LastUseMore(uses: seq<nat>, no: nat, x: nat)
    ensures LastUse(uses + [no], x) == if x == no then |uses| + 1 else LastUse(uses, x)
  {
    assert (uses + [no])[..|uses|] == uses;
  }

  /** What follows the block used last keeps its order of use. */
  lemma {:induction false} RecentFront(rest: seq<nat>, no: nat, uses: seq<nat>)
    requires Recent(rest, uses) && no !in rest
    ensures Recent([no] + rest, uses + [no])
  {
    var r := [no] + rest;
    assert r[1..] == rest;
    forall x, y | Lists.Before(r, x, y) ensures LastUse(uses + [no], x) > LastUse(uses + [no], y) {
      Lists.BeforeTail(r, x, y);
      Lists.BeforeIn(rest, x, y);
      LastUseMore(uses, no, x);
      LastUseMore(uses, no, y);
    }
  }

  lemma {:induction false} RecentDrop(lru: seq<nat>, p: nat, uses: seq<nat>)
    requires Recent(lru, uses) && p < |lru|
    ensures Recent(lru[..p] + lru[p + 1..], uses)
  {
    var r := lru[..p] + lru[p + 1..];
    forall x, y | Lists.Before(r, x, y) ensures Lists.Before(lru, x, y) {
      var i: nat, j: nat :| i < j < |r| && r[i] == x && r[j] == y;
      var i', j' := if i < p then i else i + 1, if j < p then j else j + 1;
      assert lru[i'] == x && lru[j'] == y;
    }
  }

  lemma {:induction false} MovedLast(lru: seq<nat>, i: nat, blocks: map<nat, Block>, uses: seq<nat>)
    requires Lists.Distinct(lru) && i < |lru| && Recent(lru, uses) && forall b | b in lru :: b in blocks
    ensures var r := [lru[i]] + (lru[..i] + lru[i + 1..]);
            Recent(r, uses + [lru[i]]) && UsedLast(lru, blocks, r, lru[i])
  {
    var no, rest := lru[i], lru[..i] + lru[i + 1..];
    var r := [no] + rest;
    DroppedAt(lru, i);
    RecentDrop(lru, i, uses);
    RecentFront(rest, no, uses);
    assert r[1..] == rest && lru == lru[..i] + [no] + lru[i + 1..];
    forall x, y | x != no && y != no ensures Lists.Before(r, x, y) <==> Lists.Before(lru, x, y) {
      Lists.BeforeTail(r, x, y);
      DropOrder(lru, i, x, y);
    }
  }

  lemma {:induction false} DropOrder(lru: seq<nat>, i: nat, x: nat, y: nat)
    requires i < |lru| && x != lru[i] && y != lru[i]
    ensures Lists.Before(lru[..i] + lru[i + 1..], x, y) <==> Lists.Before(lru, x, y)
  {
    var r := lru[..i] + lru[i + 1..];
    if Lists.Before(r, x, y) {
      var a: nat, b: nat :| a < b < |r| && r[a] == x && r[b] == y;
      assert lru[if a < i then a else a + 1] == x && lru[if b < i then b else b + 1] == y;
    }
    if Lists.Before(lru, x, y) {
      var a: nat, b: nat :| a < b < |lru| && lru[a] == x && lru[b] == y;
      assert r[if a < i then a else a - 1] == x && r[if b < i then b else b - 1] == y;
    }
  }

  lemma {:induction false} LoadedLast(lru: seq<nat>, blocks: map<nat, Block>, kept: seq<nat>, no: nat, uses: seq<nat>)
    requires (forall b | b in lru :: b in blocks) && no !in lru && no !in kept && DropsOldest(lru, blocks, kept)
    requires Recent(kept, uses)
    ensures Recent([no] + kept, uses + [no]) && UsedLast(lru, blocks, [no] + kept, no)
  {
    RecentFront(kept, no, uses);
    assert ([no] + kept)[1..] == kept;
  }

  lemma {:induction false} RetainedHit(blocks: map<nat, Block>, no: nat)
    requires no in blocks
    ensures Retained(blocks, blocks[no := blocks[no].(acquired := true)], no)
  {
  }

  lemma {:induction false} CoherentAt(disk: Disk, blocks: map<nat, Block>, logged: set<nat>, dirty: set<nat>,
                                      view: Disk,
                                      no: nat)
    requires Coherent(disk, blocks, logged, dirty, view) && no in blocks
    ensures no in view && blocks[no].data == view[no]
  {
  }

  /** Moving an element to the front keeps the elements. */
  lemma {:induction false} Moved(s: seq<nat>, i: nat)
    requires Lists.Distinct(s) && i < |s|
    ensures var r := [s[i]] + (s[..i] + s[i + 1..]); Lists.Distinct(r) && |r| == |s| && forall b :: b in r <==> b in s
  {
    DroppedAt(s, i);
    Prepended(s[..i] + s[i + 1..], s[i]);
  }

  lemma {:induction false} MovedListed(s: seq<nat>, i: nat, blocks: map<nat, Block>, n: nat, x: Block)
    requires Listed(s, blocks, n) && i < |s|
    ensures s[i] in blocks && Lists.Distinct(s) && (forall b | b in s :: b in blocks)
    ensures Listed([s[i]] + (s[..i] + s[i + 1..]), blocks[s[i] := x], n)
  {
    Moved(s, i);
    assert s[i] in s;
  }

  lemma {:induction false} EvictKeepsBusy(s: seq<nat>, cut: nat, blocks: map<nat, Block>)
    requires cut <= |s| && forall b :: b in s ==> b in blocks
    ensures forall b :: b in s && Busy(blocks[b]) ==> b in s[..cut] + Kept(s[cut..], blocks)
  {
    assert s == s[..cut] + s[cut..];
  }

  lemma {:induction false} EvictStart(all: seq<nat>, blocks: map<nat, Block>, blockNum: nat)
    requires Listed(all, blocks, blockNum)
    ensures (forall b :: b in all <==> b in blocks) && all[..|all|] + Kept(all[|all|..], blocks) == all
  {
  }

  /** The list keeps the busy blocks behind position p, whether the block at p stays or goes. */
  lemma {:induction false} EvictStep(all: seq<nat>, p: nat, s: seq<nat>, blocks: map<nat, Block>)
    requires p < |all| && (forall b :: b in all ==> b in blocks) && s == all[..p + 1] + Kept(all[p + 1..], blocks)
    ensures p < |s| && s[p] == all[p] && s[p] in s && s[p] in blocks
    ensures Busy(blocks[s[p]]) ==> s == all[..p] + Kept(all[p..], blocks)
    ensures !Busy(blocks[s[p]]) ==> s[..p] + s[p + 1..] == all[..p] + Kept(all[p..], blocks)
  {
    assert all[p..][0] == all[p] && all[p..][1..] == all[p + 1..];
    SplitAt(all, p, s, Kept(all[p + 1..], blocks));
  }

  lemma {:induction false} SplitAt(all: seq<nat>, p: nat, s: seq<nat>, k: seq<nat>)
    requires p < |all| && s == all[..p + 1] + k
    ensures s[p] == all[p] && s == all[..p] + ([all[p]] + k) && s[..p] + s[p + 1..] == all[..p] + ([] + k)
  {
  }

  lemma {:induction false} DroppedAt(s: seq<nat>, p: nat)
    requires Lists.Distinct(s) && p < |s|
    ensures Lists.Distinct(s[..p] + s[p + 1..]) && forall b :: b in s[..p] + s[p + 1..] <==> b in s && b != s[p]
  {
    var r := s[..p] + s[p + 1..];
    forall b ensures b in r <==> b in s && b != s[p] {
      if b in r {
        var i :| 0 <= i < |r| && r[i] == b;
        assert b == s[if i < p then i else i + 1];
      }
      if b in s && b != s[p] {
        var i :| 0 <= i < |s| && s[i] == b;
        assert b == r[if i < p then i else i - 1];
      }
    }
  }
}
