/**
  Whole sessions with the block cache of `src/fs/cache.c`: reads, operations, commits, crashes at any
  device write and reboots behave like a plain store with two maps, what is durable and what is seen.
 */
module Sessions {
  import opened Common
  import opened LogHeaders
  import opened Wal
  import opened BlockCache
  import opened BlockAlloc
  import Files

  /** What the kernel does with the cache, in the order in which the locks serialise it. */
  datatype Call =
    | Get(no: u64)                                      // acquire, read, release
    | Begin(op: nat)
    | Put(op: nat, no: u64, data: Data)                 // acquire, change, synchronise, release
    | End(op: nat)
    | Stop(replays: seq<nat>)                           // the machine stops between two calls
    | StopIn(op: nat, k: nat, replays: seq<nat>)        // it stops after k writes of `cache_end_op`

  // ----- the plain store -----

  /** `logged` are the blocks changed since `durable` was, `ops` the running operations with their budgets used. */
  datatype Store = Store(durable: Disk, seen: Disk, logged: set<nat>, ops: map<nat, nat>)

  function Fresh(d: Disk): Store {
    Store(d, d, {}, map[])
  }

  predicate Puts(s: Store, op: nat, no: nat) {
    op in s.ops && no in s.seen
  }

  /**
    One call.  A call that does not apply, or has to wait, does nothing; a panic is a restart; a stop
    inside the last `cache_end_op` keeps the operations' changes exactly when the header was written.
   */
  function Do(s: Store, call: Call): Store {
    match call
    case Get(_) => s
    case Begin(op) =>
      if op !in s.ops && |s.logged| + (|s.ops| + 1) * OP_MAX_NUM_BLOCKS <= LOG_MAX_SIZE then s.(ops := s.ops[op := 0])
      else s
    case Put(op, no, data) =>
      if !Puts(s, op, no) then s
      else if no in s.logged then s.(seen := s.seen[no := data])
      else if s.ops[op] < OP_MAX_NUM_BLOCKS then
        Store(s.durable, s.seen[no := data], s.logged + {no}, s.ops[op := s.ops[op] + 1])
      else Fresh(s.durable)
    case End(op) => if op !in s.ops then s else if |s.ops| > 1 then s.(ops := s.ops - {op}) else Fresh(s.seen)
    case Stop(_) => Fresh(s.durable)
    case StopIn(op, k, _) =>
      if op in s.ops && |s.ops| == 1 && k > |s.logged| then Fresh(s.seen) else Fresh(s.durable)
  }

  function Session(s: Store, calls: seq<Call>): Store
    decreases |calls|
  {
    if calls == [] then s else Session(Do(s, calls[0]), calls[1..])
  }

  /** What the reads of a session answer. */
  function Answers(s: Store, calls: seq<Call>): seq<Data>
    decreases |calls|
  {
    if calls == [] then [] else Answer(s, calls[0]) + Answers(Do(s, calls[0]), calls[1..])
  }

  function Answer(s: Store, call: Call): seq<Data> {
    if call.Get? && call.no in s.seen then [s.seen[call.no]] else []
  }

  lemma {:induction false} SessionMore(s: Store, calls: seq<Call>, call: Call)
    ensures Session(s, calls + [call]) == Do(Session(s, calls), call)
    ensures Answers(s, calls + [call]) == Answers(s, calls) + Answer(Session(s, calls), call)
    decreases |calls|
  {
    if calls == [] {
      assert [call][1..] == [] && calls + [call] == [call];
    } else {
      assert (calls + [call])[0] == calls[0] && (calls + [call])[1..] == calls[1..] + [call];
      SessionMore(Do(s, calls[0]), calls[1..], call);
    }
  }

  // ----- what the plain store is for -----

  /** With no operation running, what is seen is durable. */
  predicate Settled(s: Store) {
    s.ops == map[] ==> s.seen == s.durable && s.logged == {}
  }

  lemma {:induction false} StaysSettled(s: Store, call: Call)
    requires Settled(s)
    ensures Settled(Do(s, call))
  {
    if call.Begin? { assert call.op in s.ops[call.op := 0]; }
    if call.Put? && call.op in s.ops { assert call.op in s.ops[call.op := s.ops[call.op] + 1]; }
    if call.End? && call.op in s.ops && |s.ops| > 1 { NotTheLast(s.ops, call.op); }
  }

  lemma {:induction false} NotTheLast(ops: map<nat, nat>, op: nat)
    requires op in ops && |ops| > 1
    ensures ops - {op} != map[]
  {
    assert |(ops - {op}).Keys| == |ops.Keys - {op}| == |ops| - 1;
  }

  lemma {:induction false} SessionNone(s: Store)
    ensures Session(s, []) == s
  {
  }

  /** What becomes durable is what is seen then, with no operation running. */
  lemma {:induction false} DurableSeen(s: Store, call: Call)
    ensures Do(s, call).durable == s.durable || Do(s, call) == Fresh(s.seen)
  {
  }

  /**
    Operations are atomic across crashes: what is durable after any session is what was seen at some
    moment of it when no operation was running.
   */
  lemma {:induction false} OperationsAtomic(s: Store, calls: seq<Call>) returns (i: nat)
    requires Settled(s) && s.ops == map[]
    ensures i <= |calls| && Session(s, calls[..i]).ops == map[]
    ensures Session(s, calls).durable == Session(s, calls[..i]).seen && Settled(Session(s, calls))
    decreases |calls|
  {
    hide Do, Session;
    if calls == [] {
      i := 0;
      assert Session(s, []) == s by { SessionNone(s); }
    } else {
      var init, last := calls[..|calls| - 1], calls[|calls| - 1];
      assert calls == init + [last] && calls[..|calls|] == calls;
      i := OperationsAtomic(s, init);
      SessionMore(s, init, last);
      StaysSettled(Session(s, init), last);
      DurableSeen(Session(s, init), last);
      assert init[..i] == calls[..i];
      if Session(s, calls).durable != Session(s, init).durable { i := |calls|; }
    }
  }

  // ----- operations of the file system -----

  /** The numbers of a list of blocks. */
  function Numbers(bs: seq<u64>): (s: set<nat>)
    ensures forall b: nat :: b in s <==> b in bs
  {
    set b | b in bs :: b as nat
  }

  /** The blocks of an operation get their contents in v, one after the other. */
  function PutAll(op: nat, bs: seq<u64>, v: Disk): (calls: seq<Call>)
    requires forall b | b in bs :: b in v
    ensures |calls| == |bs| && forall i | 0 <= i < |bs| :: calls[i] == Put(op, bs[i], v[bs[i]])
  {
    seq(|bs|, i requires 0 <= i < |bs| => Put(op, bs[i], v[bs[i]]))
  }

  /** v differs from d in these blocks only, and they fit one operation. */
  ghost predicate Small(d: Disk, v: Disk, bs: seq<u64>) {
    && v.Keys == d.Keys && |Numbers(bs)| <= OP_MAX_NUM_BLOCKS && (forall b | b in bs :: b in v)
    && forall b | b in d && b !in Numbers(bs) :: v[b] == d[b]
  }

  /** The first k blocks of an operation that began in s have been put. */
  ghost predicate Halfway(s: Store, t: Store, op: nat, bs: seq<u64>, v: Disk, k: nat)
    requires k <= |bs|
  {
    && t.durable == s.durable && t.logged == s.logged + Numbers(bs[..k])
    && op in t.ops && t.ops == s.ops[op := t.ops[op]] && t.ops[op] <= |Numbers(bs[..k])|
    && Overlaid(t.seen, s.seen, v, Numbers(bs[..k]))
  }

  /** d with v's contents in these blocks. */
  ghost predicate Overlaid(seen: Disk, d: Disk, v: Disk, blocks: set<nat>) {
    seen.Keys == d.Keys && forall b | b in seen :: seen[b] == if b in blocks && b in v then v[b] else d[b]
  }

  lemma {:induction false} OverlayMore(seen: Disk, d: Disk, v: Disk, blocks: set<nat>, b: nat)
    requires Overlaid(seen, d, v, blocks) && b in v && b in seen
    ensures Overlaid(seen[b := v[b]], d, v, blocks + {b})
  {
  }

  lemma {:induction false} PutNext(s: Store, t: Store, op: nat, bs: seq<u64>, v: Disk, k: nat)
    requires Small(s.seen, v, bs) && k < |bs| && Halfway(s, t, op, bs, v, k)
    ensures Halfway(s, Do(t, Put(op, bs[k], v[bs[k]])), op, bs, v, k + 1)
  {
    hide Numbers, Overlaid, Do, Small;
    SmallReads(s.seen, v, bs, k);
    var b := bs[k];
    OverlaidKeys(t.seen, s.seen, v, Numbers(bs[..k]));
    PutDoes(t, op, b, v[b]);
    OverlayMore(t.seen, s.seen, v, Numbers(bs[..k]), b);
    NumbersMore(bs, k);
    BudgetLeft(bs, k);
    assert s.logged + Numbers(bs[..k]) + {b as nat} == s.logged + Numbers(bs[..k + 1]);
  }

  lemma {:induction false} SmallReads(d: Disk, v: Disk, bs: seq<u64>, k: nat)
    requires Small(d, v, bs) && k < |bs|
    ensures bs[k] in v && bs[k] in d && |Numbers(bs)| <= OP_MAX_NUM_BLOCKS
  {
    assert bs[k] in bs;
  }

  lemma {:induction false} PutDoes(t: Store, op: nat, no: u64, data: Data)
    requires Puts(t, op, no)
    ensures no in t.logged ==> Do(t, Put(op, no, data)) == t.(seen := t.seen[no := data])
    ensures no !in t.logged && t.ops[op] < OP_MAX_NUM_BLOCKS ==>
            Do(t, Put(op, no, data)) ==
                Store(t.durable, t.seen[no := data], t.logged + {no}, t.ops[op := t.ops[op] + 1])
  {
  }

  lemma {:induction false} OverlaidKeys(seen: Disk, d: Disk, v: Disk, blocks: set<nat>)
    requires Overlaid(seen, d, v, blocks)
    ensures seen.Keys == d.Keys
  {
  }

  lemma {:induction false} NumbersMore(bs: seq<u64>, k: nat)
    requires k < |bs|
    ensures Numbers(bs[..k + 1]) == Numbers(bs[..k]) + {bs[k] as nat} && Numbers(bs[..k + 1]) <= Numbers(bs)
  {
    assert bs[..k + 1] == bs[..k] + [bs[k]];
    assert forall b | b in bs[..k + 1] :: b in bs;
  }

  lemma {:induction false} BudgetLeft(bs: seq<u64>, k: nat)
    requires k < |bs| && |Numbers(bs)| <= OP_MAX_NUM_BLOCKS
    ensures bs[k] !in Numbers(bs[..k]) ==>
            |Numbers(bs[..k])| < OP_MAX_NUM_BLOCKS && |Numbers(bs[..k + 1])| == |Numbers(bs[..k])| + 1
    ensures bs[k] in Numbers(bs[..k]) ==> Numbers(bs[..k + 1]) == Numbers(bs[..k])
    ensures |Numbers(bs[..k])| <= |Numbers(bs[..k + 1])|
  {
    hide Numbers;
    NumbersMore(bs, k);
    var more := Numbers(bs[..k + 1]);
    assert Numbers(bs) == more + (Numbers(bs) - more);
  }

  /** The calls of an operation that changes d into v, up to its end. */
  function Opening(op: nat, bs: seq<u64>, v: Disk): seq<Call>
    requires forall b | b in bs :: b in v
  {
    [Begin(op)] + PutAll(op, bs, v)
  }

  /** It begins, if there is room for its budget, and never panics. */
  lemma {:induction false} OperationRuns(s: Store, op: nat, bs: seq<u64>, v: Disk, k: nat)
    requires Small(s.seen, v, bs) && op !in s.ops && k <= |bs|
    requires |s.logged| + (|s.ops| + 1) * OP_MAX_NUM_BLOCKS <= LOG_MAX_SIZE
    ensures Halfway(s, Session(s, Opening(op, bs, v)[..k + 1]), op, bs, v, k)
  {
    hide Halfway, Session, Do, Numbers;
    var calls := Opening(op, bs, v);
    if k == 0 {
      assert calls[..1] == [] + [Begin(op)];
      SessionMore(s, [], Begin(op));
      Begun(s, op, bs, v);
    } else {
      OperationRuns(s, op, bs, v, k - 1);
      PutNext(s, Session(s, calls[..k]), op, bs, v, k - 1);
      assert bs[k - 1] in bs;
      assert calls[..k + 1] == calls[..k] + [Put(op, bs[k - 1], v[bs[k - 1]])];
      SessionMore(s, calls[..k], Put(op, bs[k - 1], v[bs[k - 1]]));
    }
  }

  lemma {:induction false} Begun(s: Store, op: nat, bs: seq<u64>, v: Disk)
    requires op !in s.ops && |s.logged| + (|s.ops| + 1) * OP_MAX_NUM_BLOCKS <= LOG_MAX_SIZE
    ensures Session(s, []) == s && Halfway(s, Do(s, Begin(op)), op, bs, v, 0)
  {
    assert Numbers(bs[..0]) == {};
  }

  /** At its end readers see v, and nothing is durable that was not before. */
  lemma {:induction false} OperationSeen(s: Store, op: nat, bs: seq<u64>, v: Disk)
    requires Small(s.seen, v, bs) && op !in s.ops
    requires |s.logged| + (|s.ops| + 1) * OP_MAX_NUM_BLOCKS <= LOG_MAX_SIZE
    ensures var t := Session(s, Opening(op, bs, v));
            && t.seen == v && t.durable == s.durable && t.logged == s.logged + Numbers(bs)
            && op in t.ops && t.ops == s.ops[op := t.ops[op]]
  {
    hide Session;
    OperationRuns(s, op, bs, v, |bs|);
    assert Opening(op, bs, v)[..|bs| + 1] == Opening(op, bs, v) && bs[..|bs|] == bs;
    PutDone(s, Session(s, Opening(op, bs, v)), op, bs, v);
  }

  lemma {:induction false} PutDone(s: Store, t: Store, op: nat, bs: seq<u64>, v: Disk)
    requires Small(s.seen, v, bs) && Halfway(s, t, op, bs, v, |bs|)
    ensures t.seen == v && t.durable == s.durable && t.logged == s.logged + Numbers(bs)
    ensures op in t.ops && t.ops == s.ops[op := t.ops[op]]
  {
    hide Numbers;
    assert bs[..|bs|] == bs;
  }

  // ----- a long write, operation after operation -----

  /** ws[i] becomes ws[i + 1] by an operation on the blocks bss[i]. */
  ghost predicate Chain(ws: seq<Disk>, bss: seq<seq<u64>>) {
    |ws| == |bss| + 1 && forall i | 0 <= i < |bss| :: Small(ws[i], ws[i + 1], bss[i])
  }

  ghost function Program(op: nat, ws: seq<Disk>, bss: seq<seq<u64>>): seq<Call>
    requires Chain(ws, bss)
    decreases |bss|
  {
    if bss == [] then []
    else
      var n := |bss| - 1;
      Program(op, ws[..n + 1], bss[..n]) + Opening(op, bss[n], ws[n + 1]) + [End(op)]
  }

  /** The whole program goes from the first contents to the last. */
  lemma {:induction false} ProgramRuns(op: nat, ws: seq<Disk>, bss: seq<seq<u64>>)
    requires Chain(ws, bss)
    ensures Session(Fresh(ws[0]), Program(op, ws, bss)) == Fresh(ws[|bss|])
    decreases |bss|
  {
    if bss != [] {
      var n := |bss| - 1;
      var s, done, more := Fresh(ws[0]), Program(op, ws[..n + 1], bss[..n]), Opening(op, bss[n], ws[n + 1]);
      ProgramRuns(op, ws[..n + 1], bss[..n]);
      LastOperation(op, ws[n], bss[n], ws[n + 1]);
      SessionJoin(s, done, more);
      SessionMore(s, done + more, End(op));
    }
  }

  /** The operation alone. */
  lemma {:induction false} LastOperation(op: nat, d: Disk, bs: seq<u64>, v: Disk)
    requires Small(d, v, bs)
    ensures var t := Session(Fresh(d), Opening(op, bs, v));
            Do(t, End(op)) == Fresh(v) && t.seen == v && t.durable == d
  {
    hide Opening, Session, Numbers;
    OperationSeen(Fresh(d), op, bs, v);
    var t := Session(Fresh(d), Opening(op, bs, v));
    assert t.ops == map[op := t.ops[op]];
  }

  lemma {:induction false} SessionJoin(s: Store, a: seq<Call>, b: seq<Call>)
    ensures Session(s, a + b) == Session(Session(s, a), b)
    decreases |a|
  {
    if a == [] {
      assert a + b == b;
    } else {
      assert (a + b)[0] == a[0] && (a + b)[1..] == a[1..] + b;
      SessionJoin(Do(s, a[0]), a[1..], b);
    }
  }

  /** A stop that can happen where the program stands: between calls, or inside the `cache_end_op` that comes next. */
  ghost predicate CanStop(calls: seq<Call>, i: nat, stop: Call)
    requires i <= |calls|
  {
    stop.Stop? || (stop.StopIn? && i < |calls| && calls[i] == End(stop.op))
  }

  /** Wherever the machine stops, it comes back to the contents after a whole number of operations. */
  lemma {:induction false} ProgramCrash(op: nat, ws: seq<Disk>, bss: seq<seq<u64>>, i: nat, stop: Call) returns (j: nat)
    requires Chain(ws, bss) && i <= |Program(op, ws, bss)| && CanStop(Program(op, ws, bss), i, stop)
    ensures j <= |bss| && Do(Session(Fresh(ws[0]), Program(op, ws, bss)[..i]), stop) == Fresh(ws[j])
    decreases |bss|
  {
    hide Small, Do, Session, Opening;
    var calls := Program(op, ws, bss);
    if i == |calls| {
      ProgramRuns(op, ws, bss);
      assert calls[..i] == calls;
      StoppedFresh(ws[|bss|], stop);
      j := |bss|;
    } else {
      var n := |bss| - 1;
      SmallBlocks(ws[n], ws[n + 1], bss[n]);
      var s, done, more := Fresh(ws[0]), Program(op, ws[..n + 1], bss[..n]), Opening(op, bss[n], ws[n + 1]);
      assert calls == done + more + [End(op)];
      if i < |done| {
        assert calls[..i] == done[..i] && calls[i] == done[i];
        j := ProgramCrash(op, ws[..n + 1], bss[..n], i, stop);
      } else {
        ProgramRuns(op, ws[..n + 1], bss[..n]);
        var k := i - |done|;
        assert calls[..i] == done + more[..k] && (k < |more| ==> calls[i] == more[k])
          && (k == |more| ==> calls[i] == End(op));
        SessionJoin(s, done, more[..k]);
        if k < |more| { NoEndYet(op, bss[n], ws[n + 1], k); }
        j := OperationCrash(op, ws[n], bss[n], ws[n + 1], k, stop);
        j := n + j;
      }
    }
  }

  lemma {:induction false} StoppedFresh(d: Disk, stop: Call)
    requires stop.Stop? || stop.StopIn?
    ensures Do(Fresh(d), stop) == Fresh(d)
  {
  }

  lemma {:induction false} SmallBlocks(d: Disk, v: Disk, bs: seq<u64>)
    requires Small(d, v, bs)
    ensures forall b | b in bs :: b in v
  {
  }

  lemma {:induction false} NoEndYet(op: nat, bs: seq<u64>, v: Disk, k: nat)
    requires (forall b | b in bs :: b in v) && k < |Opening(op, bs, v)|
    ensures !Opening(op, bs, v)[k].End?
  {
  }

  /** The same inside one operation that runs alone. */
  lemma {:induction false} OperationCrash(op: nat, d: Disk, bs: seq<u64>, v: Disk, k: nat, stop: Call) returns (j: nat)
    requires Small(d, v, bs) && k <= |Opening(op, bs, v)|
    requires stop.Stop? || (stop.StopIn? && k == |Opening(op, bs, v)| && stop.op == op)
    ensures j <= 1 && Do(Session(Fresh(d), Opening(op, bs, v)[..k]), stop) == Fresh(if j == 0 then d else v)
  {
    hide Do, Session, Halfway, Small, Opening;
    SmallBlocks(d, v, bs);
    var calls := Opening(op, bs, v);
    var t := Session(Fresh(d), calls[..k]);
    StopDoes(t, stop);
    if k == |calls| {
      assert calls[..k] == calls;
      LastOperation(op, d, bs, v);
      j := if Do(t, stop) == Fresh(d) then 0 else 1;
    } else {
      PrefixDurable(op, d, bs, v, k);
      j := 0;
    }
  }

  lemma {:induction false} PrefixDurable(op: nat, d: Disk, bs: seq<u64>, v: Disk, k: nat)
    requires Small(d, v, bs) && (forall b | b in bs :: b in v) && k <= |Opening(op, bs, v)|
    ensures Session(Fresh(d), Opening(op, bs, v)[..k]).durable == d
  {
    hide Small, Session, Halfway, Do, Opening;
    OpeningSize(op, bs, v);
    if k == 0 {
      SessionNone(Fresh(d));
    } else {
      OperationRuns(Fresh(d), op, bs, v, k - 1);
      HalfwayDurable(Fresh(d), Session(Fresh(d), Opening(op, bs, v)[..k]), op, bs, v, k - 1);
    }
  }

  lemma {:induction false} OpeningSize(op: nat, bs: seq<u64>, v: Disk)
    requires forall b | b in bs :: b in v
    ensures |Opening(op, bs, v)| == |bs| + 1 && Opening(op, bs, v)[..0] == []
  {
  }

  lemma {:induction false} HalfwayDurable(s: Store, t: Store, op: nat, bs: seq<u64>, v: Disk, k: nat)
    requires k <= |bs| && Halfway(s, t, op, bs, v, k)
    ensures t.durable == s.durable
  {
  }

  lemma {:induction false} StopDoes(t: Store, stop: Call)
    ensures stop.Stop? ==> Do(t, stop) == Fresh(t.durable)
    ensures stop.StopIn? ==> Do(t, stop) == Fresh(t.durable) || Do(t, stop) == Fresh(t.seen)
  {
  }

  // ----- `file_write` on the store -----

  /** The blocks that the cache shows: `ino` gives the bytes of the inode area, which `view` leaves out. */
  ghost function Whole(log: nat, area: set<nat>, view: Disk, ino: Disk): Disk
    requires ino.Keys == view.Keys
  {
    map b | b in view && !InLog(log, b) :: if b in area then ino[b] else view[b]
  }

  /** What an operation synchronises lies outside the log and fits its budget. */
  ghost predicate Puttable(log: nat, view: Disk, chunk: set<nat>) {
    |chunk| <= OP_MAX_NUM_BLOCKS && forall b | b in chunk :: b in view && !InLog(log, b) && b < 0x1_0000_0000_0000_0000
  }

  /** One operation of the file system is one of the store. */
  lemma {:induction false} OneChunk(log: nat, area: set<nat>, v: Disk, v': Disk, ino: Disk, ino': Disk, chunk: set<nat>)
    returns (bs: seq<u64>)
    requires ino.Keys == v.Keys && Covered(v, {}, v', chunk) && Covered(ino, {}, ino', chunk) && Puttable(log, v, chunk)
    ensures ino'.Keys == v'.Keys && Small(Whole(log, area, v, ino), Whole(log, area, v', ino'), bs)
  {
    bs := Listing(chunk);
    assert Numbers(bs) == chunk;
  }

  lemma {:induction false} Listing(s: set<nat>) returns (bs: seq<u64>)
    requires forall b | b in s :: b < 0x1_0000_0000_0000_0000
    ensures forall b: nat :: b in bs <==> b in s
    decreases |s|
  {
    if s == {} {
      bs := [];
    } else {
      var b :| b in s;
      var rest := Listing(s - {b});
      bs := rest + [b];
    }
  }

  /**
    The operations of `Files.FileWrite`, with whatever bytes they give the inode blocks they
    synchronise, are a chain of operations of the store.  With `ProgramRuns` they take it from the
    first view to the last, and with `ProgramCrash` a stop anywhere leaves the view after a whole
    number of them.
   */
  lemma {:induction false} ChunksChain(log: nat, area: set<nat>, views: seq<Disk>, inos: seq<Disk>,
                                       chunks: seq<set<nat>>)
    returns (ws: seq<Disk>, bss: seq<seq<u64>>)
    requires Files.Steps(views, chunks) && Files.Steps(inos, chunks) && inos[0].Keys == views[0].Keys
    requires forall i | 0 <= i < |chunks| :: Puttable(log, views[i], chunks[i])
    ensures Chain(ws, bss) && |bss| == |chunks|
    ensures forall i | 0 <= i < |ws| :: inos[i].Keys == views[i].Keys && ws[i] == Whole(log, area, views[i], inos[i])
    decreases |chunks|
  {
    hide Covered, Puttable, Small, Whole;
    var n := |chunks| - 1;
    if chunks == [] {
      ws, bss := [Whole(log, area, views[0], inos[0])], [];
    } else {
      var bs;
      ws, bss := ChunksChain(log, area, views[..n + 1], inos[..n + 1], chunks[..n]);
      bs := OneChunk(log, area, views[n], views[n + 1], inos[n], inos[n + 1], chunks[n]);
      ws, bss := ws + [Whole(log, area, views[n + 1], inos[n + 1])], bss + [bs];
    }
  }

  // ----- the cache serves as that store -----

  ghost predicate Serves(c: Cache, s: Store)
    reads c
  {
    && c.Valid() && c.dirty == {} && Idle(c.blocks) && c.most <= MOST_BUSY
    && DataOf(c.log, c.disk) == s.durable && DataOf(c.log, c.view) == s.seen
    && InSlots(c.slots, 0, c.num) == s.logged && c.num == |s.logged| && c.ops == s.ops
  }

  /** `es` is a history, in the sense of `Wal.RunAtomic`, that takes the disk from d0 to d. */
  ghost predicate Ran(log: nat, d0: Disk, d: Disk, es: seq<Event>) {
    Quiet(log, d0) && AllFit(log, d0, es) && RunDisk(log, d0, es) == d
  }

  lemma {:induction false} RanMore(log: nat, d0: Disk, d: Disk, es: seq<Event>, e: Event)
    requires Ran(log, d0, d, es) && Fits(log, d, e.g)
    ensures Quiet(log, d) && d.Keys == d0.Keys
    ensures Ran(log, d0, StepDisk(log, d, e), es + [e])
    decreases |es|
  {
    hide StepDisk, Fits;
    if es == [] {
      assert es + [e] == [e];
      RanOne(log, d, e);
    } else {
      StepAtomic(log, d0, es[0]);
      var d1 := StepDisk(log, d0, es[0]);
      StillFit(log, d0, d1, es);
      RanMore(log, d1, d, es[1..], e);
      assert (es + [e])[1..] == es[1..] + [e];
      FitsKeys(log, d, d0, e.g);
    }
  }

  lemma {:induction false} RanOne(log: nat, d: Disk, e: Event)
    requires Quiet(log, d) && Fits(log, d, e.g)
    ensures Ran(log, d, StepDisk(log, d, e), [e])
  {
    hide StepDisk;
    StepAtomic(log, d, e);
    assert [e][1..] == [] && AllFit(log, d, [e]);
    var d' := StepDisk(log, d, e);
    assert AllFit(log, d', []) && RunDisk(log, d', []) == d';
    assert RunDisk(log, d, [e]) == RunDisk(log, d', [e][1..]);
  }

  lemma {:induction false} FitsKeys(log: nat, d: Disk, d': Disk, g: Group)
    requires Fits(log, d, g) && d'.Keys == d.Keys
    ensures Fits(log, d', g)
  {
  }

  // ----- the calls -----

  /** The cache is gone; the log is replayed, perhaps several times. */
  method Restart(log: nat, d: Disk, replays: seq<nat>) returns (c: Cache)
    requires Recoverable(log, d)
    ensures fresh(c) && c.log == log && c.disk == Reboots(log, d, replays) && Serves(c, Fresh(DataOf(log, c.disk)))
  {
    hide Recoverable, Reboots, Recover, Interrupted, ReplayWrites, Coherent, LogGood, Listed, DataOf;
    RebootsLast(log, d, replays);
    c := new Cache(log, Interrupted(log, d, replays));
  }

  method GetBlock(c: Cache, no: u64, ghost s: Store) returns (data: Data)
    requires Serves(c, s) && no in s.seen
    modifies c
    ensures Serves(c, s) && c.disk == old(c.disk) && data == s.seen[no]
  {
    hide LogGood, Listed, Coherent, InSlots, Idle, DataOf;
    DataBlock(c, s, no);
    data := c.ReadBlock(no);
  }

  method PutBlock(c: Cache, op: nat, no: u64, data: Data, ghost s: Store) returns (ok: bool)
    requires Serves(c, s) && Puts(s, op, no)
    modifies c
    ensures ok <==> no in s.logged || s.ops[op] < OP_MAX_NUM_BLOCKS
    ensures c.disk == old(c.disk)
    ensures ok ==> Serves(c, Do(s, Put(op, no, data)))
  {
    hide LogGood, Listed, Coherent, InSlots, Idle, DataOf, InLog;
    DataBlock(c, s, no);
    DataPut(c.log, c.view, no, data);
    ok := c.Change(op, no, data);
    if ok { SlotsCount(c.log, c.disk, c.slots, c.num, c.ops, c.outstanding); }
  }

  lemma {:induction false} DataBlock(c: Cache, s: Store, no: nat)
    requires Serves(c, s) && no in s.seen
    ensures no in c.disk && no in c.view && !InLog(c.log, no) && no != c.log && c.view[no] == s.seen[no]
  {
  }

  lemma {:induction false} DataPut(log: nat, d: Disk, no: nat, data: Data)
    requires no in d && !InLog(log, no)
    ensures DataOf(log, d[no := data]) == DataOf(log, d)[no := data]
  {
  }

  /** The header has no block twice. */
  lemma {:induction false} SlotsCount(log: nat, disk: Disk, slots: Slots, num: nat, ops: map<nat, nat>,
                                      outstanding: nat)
    requires LogGood(log, disk, num, slots, ops, outstanding)
    ensures |InSlots(slots, 0, num)| == num && outstanding == |ops|
  {
    hide Quiet, Reserved;
    DistinctSlots(slots, num);
  }

  lemma {:induction false} DistinctSlots(slots: Slots, n: nat)
    requires n <= LOG_MAX_SIZE && forall i, j :: 0 <= i < j < n ==> slots[i] != slots[j]
    ensures |InSlots(slots, 0, n)| == n
  {
    if n > 0 {
      DistinctSlots(slots, n - 1);
      assert InSlots(slots, 0, n) == InSlots(slots, 0, n - 1) + {slots[n - 1]};
    } else {
      assert InSlots(slots, 0, 0) == {};
    }
  }

  method EndBlocks(c: Cache, op: nat, ghost s: Store) returns (ghost g: Group)
    requires Serves(c, s) && op in s.ops
    modifies c
    ensures Serves(c, Do(s, End(op)))
    ensures |s.ops| > 1 ==> c.disk == old(c.disk) && c.trace == old(c.trace)
    ensures |s.ops| == 1 ==>
            && Fits(c.log, old(c.disk), g) && |g.vals| == |s.logged|
            && c.disk == Apply(old(c.disk), CommitWrites(c.log, g)) && c.trace == old(c.trace) + CommitWrites(c.log, g)
  {
    hide LogGood, Listed, Coherent, InSlots, Fits, Apply, CommitWrites, DataOf, Idle, Unheld, NoneNewlyHeld, SameData;
    SlotsCount(c.log, c.disk, c.slots, c.num, c.ops, c.outstanding);
    IdleUnheld(c.log, c.blocks, InSlots(c.slots, 0, c.num));
    g := c.EndOp(op);
    StaysIdle(old(c.blocks), c.blocks);
    if |s.ops| == 1 {
      SameDataOf(c.log, old(c.view), c.view);
      SameDataOf(c.log, c.view, c.disk);
      NoSlots(c.slots, 0);
      OnlyOne(s.ops, op);
    }
  }

  lemma {:induction false} SameDataOf(log: nat, v: Disk, w: Disk)
    requires SameData(log, v, w)
    ensures DataOf(log, v) == DataOf(log, w)
  {
  }

  lemma {:induction false} OnlyOne(ops: map<nat, nat>, op: nat)
    requires op in ops && |ops| == 1
    ensures ops - {op} == map[]
  {
    assert |(ops - {op}).Keys| == |ops.Keys - {op}| == 0;
  }

  /** A stop between calls, as an event of the log: no group, no write. */
  function NoGroup(slots: Slots): Group {
    Group(slots, [])
  }

  lemma {:induction false} StopEvent(log: nat, d: Disk, slots: Slots, replays: seq<nat>)
    requires Quiet(log, d)
    ensures Fits(log, d, NoGroup(slots)) && Recoverable(log, d)
    ensures StepDisk(log, d, Crash(NoGroup(slots), 0, replays)) == Reboots(log, d, replays)
    ensures DataOf(log, Reboots(log, d, replays)) == DataOf(log, d)
  {
    var e := Crash(NoGroup(slots), 0, replays);
    assert CommitWrites(log, e.g)[..0] == [];
    QuietRecoverable(log, d);
    StepAtomic(log, d, e);
    hide Reboots, DataOf, Recoverable, Quiet, Fits;
  }

  method StopNow(log: nat, d: Disk, slots: Slots, replays: seq<nat>, ghost d0: Disk, ghost es: seq<Event>)
    returns (c: Cache, ghost es': seq<Event>)
    requires Quiet(log, d) && Ran(log, d0, d, es)
    ensures fresh(c) && c.log == log && Serves(c, Fresh(DataOf(log, d))) && Ran(log, d0, c.disk, es')
  {
    hide *;
    StopEvent(log, d, slots, replays);
    RanMore(log, d0, d, es, Crash(NoGroup(slots), 0, replays));
    c := Restart(log, d, replays);
    es' := es + [Crash(NoGroup(slots), 0, replays)];
  }

  /** What is on the disk after k writes of the last `cache_end_op` and the reboots. */
  lemma {:induction false} CrashEvent(log: nat, d: Disk, g: Group, k: nat, replays: seq<nat>)
    requires Quiet(log, d) && Fits(log, d, g)
    ensures var k' := Min(k, |CommitWrites(log, g)|);
            var e := Apply(d, CommitWrites(log, g)[..k']);
            && Recoverable(log, e) && StepDisk(log, d, Crash(g, k, replays)) == Reboots(log, e, replays)
            && DataOf(log, Reboots(log, e, replays)) ==
                 if k <= |g.vals| then DataOf(log, d) else DataOf(log, Apply(d, CommitWrites(log, g)))
  {
    var k' := Min(k, |CommitWrites(log, g)|);
    CrashAtomic(log, d, g, k');
    RebootsRecover(log, Apply(d, CommitWrites(log, g)[..k']), replays);
    CommitPrefix(log, g, k');
    CommitDone(log, d, g);
    hide Reboots, DataOf, Recoverable, Quiet, Fits, DataAfter, Apply, Recover;
  }

  method StopInEnd(c: Cache, op: nat, k: nat, replays: seq<nat>, ghost s: Store, ghost d0: Disk, ghost es: seq<Event>)
    returns (c': Cache, ghost es': seq<Event>)
    requires Serves(c, s) && op in s.ops && |s.ops| == 1 && Ran(c.log, d0, c.disk, es)
    modifies c
    ensures fresh(c') && c'.log == c.log && Serves(c', Do(s, StopIn(op, k, replays))) && Ran(c'.log, d0, c'.disk, es')
  {
    hide LogGood, Listed, Coherent, InSlots, Fits, Apply, CommitWrites, DataOf, Idle, Reboots, StepDisk, Recoverable,
        Ran;
    var d, before := c.disk, |c.trace|;
    ServesQuiet(c, s);
    ghost var g := EndBlocks(c, op, s);
    CrashEvent(c.log, d, g, k, replays);
    RanMore(c.log, d0, d, es, Crash(g, k, replays));
    var ws := c.trace[before..];
    assert ws == CommitWrites(c.log, g);
    c' := Restart(c.log, Apply(d, ws[..Min(k, |ws|)]), replays);
    es' := es + [Crash(g, k, replays)];
  }

  lemma {:induction false} ServesQuiet(c: Cache, s: Store)
    requires Serves(c, s)
    ensures Quiet(c.log, c.disk) && c.outstanding == |s.ops|
  {
    SlotsCount(c.log, c.disk, c.slots, c.num, c.ops, c.outstanding);
  }

  method BeginBlocks(c: Cache, op: nat, ghost s: Store)
    requires Serves(c, s) && op !in s.ops
    modifies c
    ensures Serves(c, Do(s, Begin(op))) && c.disk == old(c.disk)
  {
    hide LogGood, Listed, Coherent, InSlots, DataOf, Idle;
    ServesQuiet(c, s);
    var started := c.BeginOp(op);
  }

  /** One call on a cache that serves as `s` leaves one that serves as `Do(s, call)`. */
  method Perform(c: Cache, call: Call, ghost s: Store, ghost d0: Disk, ghost es: seq<Event>)
    returns (c': Cache, answer: seq<Data>, ghost es': seq<Event>)
    requires Serves(c, s) && Ran(c.log, d0, c.disk, es)
    modifies c
    ensures (c' == c || fresh(c')) && c'.log == c.log && Serves(c', Do(s, call)) && answer == Answer(s, call)
    ensures Ran(c'.log, d0, c'.disk, es')
  {
    hide LogGood, Listed, Coherent, InSlots, Idle, DataOf, Ran;
    c', answer, es' := c, [], es;
    match call
    case Get(no) => answer := PerformGet(c, no, s);
    case Begin(op) => if op !in c.ops { BeginBlocks(c, op, s); }
    case Put(_, _, _) => c', es' := PerformPut(c, call, s, d0, es);
    case End(op) => es' := PerformEnd(c, op, s, d0, es);
    case Stop(replays) =>
      ServesQuiet(c, s);
      c', es' := StopNow(c.log, c.disk, c.slots, replays, d0, es);
    case StopIn(op, k, replays) =>
      ServesQuiet(c, s);
      if op in c.ops && c.outstanding == 1 {
        c', es' := StopInEnd(c, op, k, replays, s, d0, es);
      } else {
        c', es' := StopNow(c.log, c.disk, c.slots, replays, d0, es);
      }
  }

  method PerformGet(c: Cache, no: u64, ghost s: Store) returns (answer: seq<Data>)
    requires Serves(c, s)
    modifies c
    ensures Serves(c, s) && c.disk == old(c.disk) && answer == Answer(s, Get(no))
  {
    hide LogGood, Listed, Coherent, InSlots, Idle, DataOf;
    answer := [];
    HasBlock(c, s, no);
    if no in c.disk && !InLog(c.log, no) {
      var data := GetBlock(c, no, s);
      answer := [data];
    }
  }

  lemma {:induction false} HasBlock(c: Cache, s: Store, no: nat)
    requires Serves(c, s)
    ensures no in s.seen <==> no in c.disk && !InLog(c.log, no)
  {
  }

  method PerformPut(c: Cache, call: Call, ghost s: Store, ghost d0: Disk, ghost es: seq<Event>)
    returns (c': Cache, ghost es': seq<Event>)
    requires Serves(c, s) && Ran(c.log, d0, c.disk, es) && call.Put?
    modifies c
    ensures (c' == c || fresh(c')) && c'.log == c.log && Serves(c', Do(s, call)) && Ran(c'.log, d0, c'.disk, es')
  {
    hide LogGood, Listed, Coherent, InSlots, Idle, DataOf, Ran;
    c', es' := c, es;
    HasBlock(c, s, call.no);
    ServesQuiet(c, s);
    if call.op in c.ops && call.no in c.disk && !InLog(c.log, call.no) {
      var ok := PutBlock(c, call.op, call.no, call.data, s);
      if !ok { c', es' := StopNow(c.log, c.disk, c.slots, [], d0, es); }
    }
  }

  method PerformEnd(c: Cache, op: nat, ghost s: Store, ghost d0: Disk, ghost es: seq<Event>)
      returns (ghost es': seq<Event>)
    requires Serves(c, s) && Ran(c.log, d0, c.disk, es)
    modifies c
    ensures Serves(c, Do(s, End(op))) && Ran(c.log, d0, c.disk, es')
  {
    hide LogGood, Listed, Coherent, InSlots, Idle, DataOf, Ran, Fits, Apply, CommitWrites;
    es' := es;
    if op in c.ops {
      ghost var d := c.disk;
      ghost var g := EndBlocks(c, op, s);
      if |s.ops| == 1 {
        RanMore(c.log, d0, d, es, Commit(g));
        es' := es + [Commit(g)];
      } else {
        SomeOp(s.ops, op);
      }
    }
  }

  lemma {:induction false} SomeOp(ops: map<nat, nat>, op: nat)
    requires op in ops && |ops| != 1
    ensures |ops| > 1
  {
    assert |ops.Keys| == |ops| && op in ops.Keys;
  }

  /**
    Opening a disk and any session of reads, operations, crashes and reboots: every read answers what
    the plain store answers, what readers see and what is durable are its two maps, and the device has
    gone through a history of `Wal.RunAtomic`.
   */
  method Serve(log: nat, disk0: Disk, calls: seq<Call>) returns (c: Cache, answers: seq<Data>, ghost es: seq<Event>)
    requires Recoverable(log, disk0)
    ensures fresh(c) && c.log == log
    ensures var s := Fresh(DataOf(log, Recover(log, disk0)));
            Serves(c, Session(s, calls)) && answers == Answers(s, calls)
    ensures Ran(log, Recover(log, disk0), c.disk, es)
    ensures DataOf(log, c.disk) == RunData(DataOf(log, Recover(log, disk0)), es)
    ensures c.blockNum <= MOST_BUSY + 1 && Recent(c.lru, c.uses)
  {
    hide Serves, Ran, Recover, DataOf, Do, Answer;
    c := Restart(log, disk0, []);
    answers, es := [], [];
    ghost var d0 := Recover(log, disk0);
    ghost var s := Fresh(DataOf(log, d0));
    Opened(log, disk0);
    assert calls[..0] == [];
    for i := 0 to |calls|
      invariant fresh(c) && c.log == log
      invariant Serves(c, Session(s, calls[..i])) && answers == Answers(s, calls[..i]) && Ran(log, d0, c.disk, es)
    {
      var answer;
      SessionMore(s, calls[..i], calls[i]);
      assert calls[..i + 1] == calls[..i] + [calls[i]];
      c, answer, es := Perform(c, calls[i], Session(s, calls[..i]), d0, es);
      answers := answers + answer;
    }
    assert calls[..|calls|] == calls;
    FewCached(c, Session(s, calls));
    RanData(log, d0, c.disk, es);
  }

  /** However long the session, the cache stays small, and its list is the order of last use. */
  lemma {:induction false} FewCached(c: Cache, s: Store)
    requires Serves(c, s)
    ensures c.blockNum <= MOST_BUSY + 1 && Recent(c.lru, c.uses)
  {
  }

  lemma {:induction false} Opened(log: nat, d: Disk)
    requires Recoverable(log, d)
    ensures Reboots(log, d, []) == Recover(log, d) && Ran(log, Recover(log, d), Recover(log, d), [])
  {
    RecoverInstalls(log, d);
  }

  lemma {:induction false} RanData(log: nat, d0: Disk, d: Disk, es: seq<Event>)
    requires Ran(log, d0, d, es)
    ensures (forall i :: 0 <= i < |es| ==> |es[i].g.vals| <= LOG_MAX_SIZE)
            && DataOf(log, d) == RunData(DataOf(log, d0), es)
  {
    RunAtomic(log, d0, es);
  }
}
