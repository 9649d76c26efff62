/**
  The descriptor table of `src/driver/virtio_blk.c`: a free list threaded through the descriptors,
  requests as chains of three, and the used ring with its 16-bit indices (section 2.6.5 of
  Virtio 1.1).
 */
module Virtqueue {
  import opened Lists

  const NQUEUE := 8
  const WRAP := 65536

  const HDR_SIZE := 16          // sizeof(struct virtio_blk_req_hdr)
  const SECTOR_SIZE := 512
  const STATUS_SIZE := 1

  /** What a descriptor points at: a request's header, its buffer, or the status byte of the chain at `head`. */
  datatype Target = Nowhere | Header(read: bool, sector: nat) | Buffer(b: nat) | Status(head: nat)

  /** `write` is VIRTQ_DESC_F_WRITE: the device writes there. */
  datatype Desc = Desc(addr: Target, len: nat, hasNext: bool, write: bool, next: nat)

  /** To read a sector into a buffer, or to write the buffer to it. */
  datatype Request = Request(b: nat, sector: nat, read: bool)

  /** Handed to the device, in the used ring, or posted to its submitter. */
  datatype Stage = Sent | Returned | Posted

  /** A request in flight: its other two descriptors, its number and what it asks for. */
  datatype Chain = Chain(d1: nat, d2: nat, id: nat, stage: Stage, req: Request)

  // ----- the free list and the chains partition the descriptors -----

  predicate LinksTo(d: Desc, n: nat) {
    d.hasNext && d.next == n
  }

  ghost predicate FreeOk(desc: seq<Desc>, head: nat, free: seq<nat>) {
    && (free != [] ==> head == free[0])
    && (forall i: nat | i < |free| :: free[i] < |desc|)
    && (forall i: nat, j: nat | i < |free| && j == i + 1 && j < |free| ::
          LinksTo(desc[free[i]], free[j]))
  }

  predicate Member(chains: map<nat, Chain>, h: nat, d: nat) {
    h in chains && (d == h || d == chains[h].d1 || d == chains[h].d2)
  }

  /**
    The device reads the header, moves a sector between the disk and the buffer in the direction of
    the request, and writes the status byte.
   */
  ghost predicate ChainOk(desc: seq<Desc>, h: nat, c: Chain) {
    && h < |desc| && c.d1 < |desc| && c.d2 < |desc| && h != c.d1 && h != c.d2 && c.d1 != c.d2
    && desc[h].hasNext && desc[h].next == c.d1 && desc[c.d1].hasNext && desc[c.d1].next == c.d2 && !desc[c.d2].hasNext
    && desc[h].addr == Header(c.req.read, c.req.sector) && desc[h].len == HDR_SIZE && !desc[h].write
    && desc[c.d1].addr == Buffer(c.req.b) && desc[c.d1].len == SECTOR_SIZE && (desc[c.d1].write <==> c.req.read)
    && desc[c.d2].addr == Status(h) && desc[c.d2].len == STATUS_SIZE && desc[c.d2].write
  }

  ghost predicate ChainsOk(desc: seq<Desc>, chains: map<nat, Chain>) {
    && (forall h | h in chains :: ChainOk(desc, h, chains[h]))
    && (forall h, g, d | Member(chains, h, d) && Member(chains, g, d) :: h == g)
  }

  ghost predicate Partition(n: nat, free: seq<nat>, chains: map<nat, Chain>) {
    && Distinct(free)
    && (forall h, d | Member(chains, h, d) :: d !in free)
    && (forall d: nat | d < n :: d in free || exists h :: Member(chains, h, d))
  }

  ghost predicate TableOk(desc: seq<Desc>, head: nat, free: seq<nat>, chains: map<nat, Chain>) {
    FreeOk(desc, head, free) && ChainsOk(desc, chains) && Partition(|desc|, free, chains)
  }

  /** A descriptor back in the free list. */
  function Released(d: Desc, next: nat): Desc {
    d.(hasNext := true, write := false, next := next)
  }

  /** The three descriptors at the head of the free list, made into a chain. */
  function Linked(desc: seq<Desc>, d0: nat, d1: nat, d2: nat, q: Request): (r: seq<Desc>)
    requires d0 < |desc| && d1 < |desc| && d2 < |desc|
    ensures |r| == |desc|
  {
    desc[d0 := Desc(Header(q.read, q.sector), HDR_SIZE, true, false, d1)]
        [d1 := Desc(Buffer(q.b), SECTOR_SIZE, true, q.read, d2)]
        [d2 := Desc(Status(d0), STATUS_SIZE, false, true, 0)]
  }

  lemma {:induction false} SubmitTable(desc: seq<Desc>, head: nat, free: seq<nat>, chains: map<nat, Chain>,
                                       head': nat, c: Chain)
    requires TableOk(desc, head, free, chains) && |free| >= 3 && c.d1 == free[1] && c.d2 == free[2]
             && (|free| > 3 ==> head' == free[3])
    ensures free[0] < |desc| && free[1] < |desc| && free[2] < |desc| && free[0] !in chains
    ensures TableOk(Linked(desc, free[0], free[1], free[2], c.req), head', free[3..], chains[free[0] := c])
  {
    var d0, d1, d2 := free[0], free[1], free[2];
    var desc', free', chains' := Linked(desc, d0, d1, d2, c.req), free[3..], chains[d0 := c];
    assert d0 != d1 && d0 != d2 && d1 != d2 && d0 in free && d1 in free && d2 in free;
    forall i: nat | i < |free'|
      ensures free'[i] == free[i + 3] && free'[i] in free && free'[i] != d0 && free'[i] != d1 && free'[i] != d2
    {
    }
    assert d0 in chains ==> Member(chains, d0, d0);
    SubmitChains(desc, free, chains, c);
    SubmitPartition(desc, free, chains, c);
  }

  lemma {:induction false} SubmitChains(desc: seq<Desc>, free: seq<nat>, chains: map<nat, Chain>, c: Chain)
    requires ChainsOk(desc, chains) && Partition(|desc|, free, chains) && |free| >= 3 && c.d1 == free[1]
             && c.d2 == free[2] && free[0] !in chains
    requires free[0] < |desc| && free[1] < |desc| && free[2] < |desc|
    ensures ChainsOk(Linked(desc, free[0], free[1], free[2], c.req), chains[free[0] := c])
  {
    var d0, d1, d2 := free[0], free[1], free[2];
    var desc', chains' := Linked(desc, d0, d1, d2, c.req), chains[d0 := c];
    forall h | h in chains' ensures ChainOk(desc', h, chains'[h]) {
      if h != d0 {
        assert ChainOk(desc, h, chains[h]) && Member(chains, h, h) && Member(chains, h, chains[h].d1)
          && Member(chains, h, chains[h].d2);
        assert h !in free && chains[h].d1 !in free && chains[h].d2 !in free;
      }
    }
    forall h, g, d | Member(chains', h, d) && Member(chains', g, d) ensures h == g {
      if h != d0 { assert Member(chains, h, d); }
      if g != d0 { assert Member(chains, g, d); }
    }
  }

  lemma {:induction false} SubmitPartition(desc: seq<Desc>, free: seq<nat>, chains: map<nat, Chain>, c: Chain)
    requires Partition(|desc|, free, chains) && |free| >= 3 && c.d1 == free[1] && c.d2 == free[2] && free[0] !in chains
    ensures Partition(|desc|, free[3..], chains[free[0] := c])
  {
    var d0 := free[0];
    var free', chains' := free[3..], chains[d0 := c];
    assert free == [d0, c.d1, c.d2] + free';
    forall h, d | Member(chains', h, d) ensures d !in free' {
      if h != d0 { assert Member(chains, h, d); }
    }
    forall d: nat | d < |desc| ensures d in free' || exists h :: Member(chains', h, d) {
      if d in free {
        if d !in free' { assert Member(chains', d0, d); }
      } else {
        var h :| Member(chains, h, d);
        assert Member(chains', h, d);
      }
    }
  }

  /** The tail of the freed chain points at the old head, or nowhere in particular when the list was empty. */
  lemma {:induction false} ReleaseTable(desc: seq<Desc>, head: nat, free: seq<nat>, chains: map<nat, Chain>, h: nat)
    requires TableOk(desc, head, free, chains) && h in chains
    ensures var c := chains[h];
            c.d2 < |desc| && TableOk(desc[c.d2 := Released(desc[c.d2], if free == [] then desc[c.d2].next else head)],
                h,
              [h, c.d1, c.d2] + free, chains - {h})
  {
    var c := chains[h];
    assert ChainOk(desc, h, c) && Member(chains, h, h) && Member(chains, h, c.d1) && Member(chains, h, c.d2);
    var desc' := desc[c.d2 := Released(desc[c.d2], if free == [] then desc[c.d2].next else head)];
    var free', chains' := [h, c.d1, c.d2] + free, chains - {h};
    ReleaseFree(desc, head, free, h, c);
    forall g, d | Member(chains', g, d) ensures Member(chains, g, d) && g != h && d != h && d != c.d1 && d != c.d2 {
      assert Member(chains, g, d) && g != h;
      assert !Member(chains, h, d);
    }
    assert ChainsOk(desc', chains') by {
      forall g | g in chains' ensures ChainOk(desc', g, chains'[g]) {
        assert ChainOk(desc, g, chains[g]) && Member(chains', g, g) && Member(chains', g, chains[g].d1)
          && Member(chains', g, chains[g].d2);
      }
    }
    ReleasePartition(|desc|, free, chains, h);
  }

  lemma {:induction false} ReleaseFree(desc: seq<Desc>, head: nat, free: seq<nat>, h: nat, c: Chain)
    requires FreeOk(desc, head, free) && ChainOk(desc, h, c) && h !in free && c.d1 !in free && c.d2 !in free
    ensures FreeOk(desc[c.d2 := Released(desc[c.d2], if free == [] then desc[c.d2].next else head)], h,
            [h, c.d1, c.d2] + free)
  {
    var desc' := desc[c.d2 := Released(desc[c.d2], if free == [] then desc[c.d2].next else head)];
    var free' := [h, c.d1, c.d2] + free;
    forall i: nat, j: nat | i < |free'| && j == i + 1 && j < |free'|
      ensures LinksTo(desc'[free'[i]], free'[j])
    {
      if i >= 3 {
        assert free'[i] == free[i - 3] && free'[j] == free[j - 3] && free[i - 3] in free;
      }
    }
  }

  lemma {:induction false} ReleasePartition(n: nat, free: seq<nat>, chains: map<nat, Chain>, h: nat)
    requires Partition(n, free, chains) && h in chains && chains[h].d1 != h && chains[h].d2 != h
             && chains[h].d1 != chains[h].d2
    requires forall h, g, d | Member(chains, h, d) && Member(chains, g, d) :: h == g
    ensures Partition(n, [h, chains[h].d1, chains[h].d2] + free, chains - {h})
  {
    var c := chains[h];
    var free', chains' := [h, c.d1, c.d2] + free, chains - {h};
    assert Member(chains, h, h) && Member(chains, h, c.d1) && Member(chains, h, c.d2);
    JoinedDistinct([h, c.d1, c.d2], free);
    forall g, d | Member(chains', g, d) ensures d !in free' { assert Member(chains, g, d); }
    forall d: nat | d < n ensures d in free' || exists g :: Member(chains', g, d) {
      if d !in free' {
        assert d !in free;
        var g :| Member(chains, g, d);
        assert Member(chains', g, d);
      }
    }
  }

  // ----- the used ring -----

  /** The entries between the two indices, which wrap at 2^16, are `pending` in order. */
  ghost predicate RingOk(ring: seq<nat>, last: nat, idx: nat, pending: seq<nat>) {
    && |ring| == NQUEUE && last < WRAP && idx < WRAP && |pending| <= NQUEUE
    && idx == (last + |pending|) % WRAP
    && (forall k: nat | k < |pending| :: ring[(last + k) % WRAP % NQUEUE] == pending[k])
  }

  lemma {:induction false} Slots(last: nat, k: nat, l: nat)
    requires last < WRAP && k < l < k + NQUEUE
    ensures (last + k) % WRAP % NQUEUE != (last + l) % WRAP % NQUEUE
  {
    SlotIs(last + k);
    SlotIs(last + l);
  }

  /** The ring size divides 2^16, so wrapping does not move slots. */
  lemma {:induction false} SlotIs(n: nat)
    ensures n % WRAP % NQUEUE == n % NQUEUE
  {
    var q, r := n / WRAP, n % WRAP;
    assert n == NQUEUE * (8192 * q) + r;
  }

  lemma {:induction false} RingPush(ring: seq<nat>, last: nat, idx: nat, pending: seq<nat>, h: nat)
    requires RingOk(ring, last, idx, pending) && |pending| < NQUEUE
    ensures RingOk(ring[idx % NQUEUE := h], last, (idx + 1) % WRAP, pending + [h])
  {
    var ring', n := ring[idx % NQUEUE := h], |pending|;
    forall k: nat | k < n + 1 ensures ring'[(last + k) % WRAP % NQUEUE] == (pending + [h])[k] {
      if k < n { Slots(last, k, n); }
    }
  }

  lemma {:induction false} RingPop(ring: seq<nat>, last: nat, idx: nat, pending: seq<nat>)
    requires RingOk(ring, last, idx, pending)
    ensures last == idx <==> pending == []
    ensures pending != [] ==> ring[last % NQUEUE] == pending[0] && RingOk(ring, (last + 1) % WRAP, idx, pending[1..])
  {
    if pending != [] {
      assert ring[(last + 0) % WRAP % NQUEUE] == pending[0];
      assert last % WRAP == last;
      var rest := pending[1..];
      forall k: nat | k < |rest| ensures ring[((last + 1) % WRAP + k) % WRAP % NQUEUE] == rest[k] {
        RingTail(ring, last, idx, pending, k);
      }
      RingIndex(last, idx, |pending|);
    } else {
      assert last % WRAP == last;
    }
  }

  lemma {:induction false} RingIndex(last: nat, idx: nat, n: nat)
    requires last < WRAP && 0 < n <= NQUEUE && idx == (last + n) % WRAP
    ensures last != idx && idx == ((last + 1) % WRAP + (n - 1)) % WRAP
  {
    if last + n >= WRAP { assert idx == last + n - WRAP; } else { assert idx == last + n; }
  }

  lemma {:induction false} RingTail(ring: seq<nat>, last: nat, idx: nat, pending: seq<nat>, k: nat)
    requires RingOk(ring, last, idx, pending) && k + 1 < |pending|
    ensures ring[((last + 1) % WRAP + k) % WRAP % NQUEUE] == pending[k + 1]
  {
    SlotIs((last + 1) % WRAP + k);
    SlotIs(last + (k + 1));
    assert ring[(last + (k + 1)) % WRAP % NQUEUE] == pending[k + 1];
    SameSlot(last, k);
  }

  lemma {:induction false} SameSlot(last: nat, k: nat)
    requires last < WRAP
    ensures ((last + 1) % WRAP + k) % NQUEUE == (last + k + 1) % NQUEUE
  {
    if last + 1 == WRAP { assert last + k + 1 == NQUEUE * 8192 + k; }
  }

  // ----- requests -----

  /** `buf` holds the submitter's buffer until the completion is posted; `posts` counts posts per request. */
  ghost predicate RequestsOk(chains: map<nat, Chain>, pending: seq<nat>, buf: seq<int>, data: seq<nat>,
                             posts: multiset<nat>)
  {
    && Distinct(pending)
    && (forall k: nat | k < |pending| :: pending[k] in chains && chains[pending[k]].stage == Returned)
    && (forall h | h in chains && chains[h].stage == Returned :: h in pending)
    && (forall h, g | h in chains && g in chains && chains[h].id == chains[g].id :: h == g)
    && EachOk(chains, buf, data, posts)
    && (forall id | id in posts :: id < |data|)
    && (forall id: nat | id < |data| :: posts[id] == 1 || (posts[id] == 0 && Unposted(chains, id)))
  }

  ghost predicate Unposted(chains: map<nat, Chain>, id: nat) {
    exists h :: h in chains && chains[h].id == id && chains[h].stage != Posted
  }

  ghost predicate EachOk(chains: map<nat, Chain>, buf: seq<int>, data: seq<nat>, posts: multiset<nat>) {
    forall h | h in chains :: RequestOk(h, chains[h], buf, data, posts)
  }

  ghost predicate RequestOk(h: nat, c: Chain, buf: seq<int>, data: seq<nat>, posts: multiset<nat>) {
    && h < |buf| && c.id < |data| && c.req.b == data[c.id]
    && (if c.stage == Posted then posts[c.id] == 1 else posts[c.id] == 0 && buf[h] == data[c.id])
  }

  lemma {:induction false} SubmitRequests(chains: map<nat, Chain>, pending: seq<nat>, buf: seq<int>, data: seq<nat>,
                                          posts: multiset<nat>, h: nat, c: Chain, b: nat)
    requires RequestsOk(chains, pending, buf, data, posts) && h !in chains && h < |buf| && c.id == |data|
             && c.stage == Sent && c.req.b == b
    ensures RequestsOk(chains[h := c], pending, buf[h := b], data + [b], posts)
  {
    SubmitEach(chains, pending, buf, data, posts, h, c, b);
    SubmitPosts(chains, pending, buf, data, posts, h, c);
    hide RequestOk, Unposted, Distinct;
  }

  lemma {:induction false} SubmitEach(chains: map<nat, Chain>, pending: seq<nat>, buf: seq<int>, data: seq<nat>,
                                      posts: multiset<nat>, h: nat, c: Chain, b: nat)
    requires RequestsOk(chains, pending, buf, data, posts) && h !in chains && h < |buf| && c.id == |data|
             && c.stage == Sent && c.req.b == b
    ensures forall g | g in chains :: chains[g].id < |data|
    ensures EachOk(chains[h := c], buf[h := b], data + [b], posts)
  {
    hide Unposted, Distinct;
    var chains', buf', data' := chains[h := c], buf[h := b], data + [b];
    forall g | g in chains'
      ensures RequestOk(g, chains'[g], buf', data', posts) && (g in chains ==> chains[g].id < |data|)
    {
      if g != h { assert RequestOk(g, chains[g], buf, data, posts); }
    }
  }

  lemma {:induction false} SubmitPosts(chains: map<nat, Chain>, pending: seq<nat>, buf: seq<int>, data: seq<nat>,
                                       posts: multiset<nat>, h: nat, c: Chain)
    requires RequestsOk(chains, pending, buf, data, posts) && h !in chains && c.id == |data| && c.stage == Sent
    ensures forall id: nat | id < |data| + 1 :: posts[id] == 1 || (posts[id] == 0 && Unposted(chains[h := c], id))
  {
    hide RequestOk, Distinct;
    var chains' := chains[h := c];
    forall id: nat | id < |data| + 1 ensures posts[id] == 1 || (posts[id] == 0 && Unposted(chains', id)) {
      if id == |data| {
        assert h in chains' && chains'[h].id == id;
      } else if posts[id] != 1 {
        assert Unposted(chains, id);
        var g :| g in chains && chains[g].id == id && chains[g].stage != Posted;
        assert g in chains' && chains'[g].id == id;
      }
    }
  }

  lemma {:induction false} ReturnRequests(chains: map<nat, Chain>, pending: seq<nat>, buf: seq<int>, data: seq<nat>,
                                          posts: multiset<nat>, h: nat)
    requires RequestsOk(chains, pending, buf, data, posts) && h in chains && chains[h].stage == Sent
    ensures RequestsOk(chains[h := chains[h].(stage := Returned)], pending + [h], buf, data, posts)
  {
    hide Distinct;
    var chains', pending' := chains[h := chains[h].(stage := Returned)], pending + [h];
    assert h !in pending;
    AddedDistinct(pending, h);
    assert forall g | g in pending :: g in pending';
    assert pending'[|pending|] == h;
    ReturnEach(chains, buf, data, posts, h);
    forall id: nat | id < |data| && posts[id] != 1 ensures posts[id] == 0 && Unposted(chains', id) {
      assert Unposted(chains, id);
      var g :| g in chains && chains[g].id == id && chains[g].stage != Posted;
      assert g in chains' && chains'[g].id == id;
    }
  }

  lemma {:induction false} ReturnEach(chains: map<nat, Chain>, buf: seq<int>, data: seq<nat>, posts: multiset<nat>,
                                      h: nat)
    requires EachOk(chains, buf, data, posts) && h in chains && chains[h].stage == Sent
    ensures EachOk(chains[h := chains[h].(stage := Returned)], buf, data, posts)
  {
    var chains' := chains[h := chains[h].(stage := Returned)];
    forall g | g in chains' ensures RequestOk(g, chains'[g], buf, data, posts) {
      assert RequestOk(g, chains[g], buf, data, posts);
    }
  }

  lemma {:induction false} PostEach(chains: map<nat, Chain>, buf: seq<int>, data: seq<nat>, posts: multiset<nat>,
                                    h: nat)
    requires EachOk(chains, buf, data, posts) && h in chains && h < |buf| && chains[h].stage == Returned
    requires forall g | g in chains && chains[g].id == chains[h].id :: g == h
    ensures EachOk(chains[h := chains[h].(stage := Posted)], buf[h := -1], data, posts + multiset{chains[h].id})
  {
    var chains', buf', posts' := chains[h := chains[h].(stage := Posted)], buf[h := -1], posts + multiset{chains[h].id};
    forall g | g in chains' ensures RequestOk(g, chains'[g], buf', data, posts') {
      assert RequestOk(g, chains[g], buf, data, posts) && RequestOk(h, chains[h], buf, data, posts);
    }
  }

  lemma {:induction false} PostRequests(chains: map<nat, Chain>, pending: seq<nat>, buf: seq<int>, data: seq<nat>,
                                        posts: multiset<nat>)
    requires RequestsOk(chains, pending, buf, data, posts) && pending != []
    ensures var h := pending[0];
            && h in chains && h < |buf| && chains[h].id < |data| && buf[h] == data[chains[h].id]
                  && posts[chains[h].id] == 0
            && RequestsOk(chains[h := chains[h].(stage := Posted)], pending[1..], buf[h := -1], data,
                  posts + multiset{chains[h].id})
  {
    var h := pending[0];
    var id0 := chains[h].id;
    assert RequestOk(h, chains[h], buf, data, posts);
    var chains', buf', posts' := chains[h := chains[h].(stage := Posted)], buf[h := -1], posts + multiset{id0};
    hide Distinct;
    TailDistinct(pending);
    forall g | g in pending && g != h ensures g in pending[1..] { assert pending == [h] + pending[1..]; }
    PostEach(chains, buf, data, posts, h);
    forall id: nat | id < |data| && posts'[id] != 1 ensures posts'[id] == 0 && Unposted(chains', id) {
      assert Unposted(chains, id);
      var g :| g in chains && chains[g].id == id && chains[g].stage != Posted;
      assert g in chains' && chains'[g].id == id && g != h;
    }
  }

  lemma {:induction false} ReleaseRequests(chains: map<nat, Chain>, pending: seq<nat>, buf: seq<int>, data: seq<nat>,
                                           posts: multiset<nat>, h: nat)
    requires RequestsOk(chains, pending, buf, data, posts) && h in chains && chains[h].stage == Posted
    ensures RequestsOk(chains - {h}, pending, buf, data, posts)
  {
    var chains' := chains - {h};
    forall g | g in chains' ensures RequestOk(g, chains'[g], buf, data, posts) {
      assert RequestOk(g, chains[g], buf, data, posts);
    }
    forall id: nat | id < |data| && posts[id] != 1 ensures posts[id] == 0 && Unposted(chains', id) {
      assert Unposted(chains, id);
      var g :| g in chains && chains[g].id == id && chains[g].stage != Posted;
      assert g in chains' && chains'[g].id == id;
    }
  }

  /** At most one pending entry per chain, and a chain takes three descriptors. */
  lemma {:induction false} PendingFits(desc: seq<Desc>, head: nat, free: seq<nat>, chains: map<nat, Chain>,
                                       pending: seq<nat>, h: nat)
    requires TableOk(desc, head, free, chains) && Distinct(pending) && |desc| == NQUEUE && h in chains && h !in pending
    requires forall k: nat | k < |pending| :: pending[k] in chains
    ensures |pending| < NQUEUE
  {
    AddedDistinct(pending, h);
    var all: seq<nat> := pending + [h];
    forall k: nat | k < |all| ensures all[k] < NQUEUE { assert ChainOk(desc, all[k], chains[all[k]]); }
    Pigeonhole(all, NQUEUE);
  }

  lemma {:induction false} Pigeonhole(q: seq<nat>, n: nat)
    requires Distinct(q) && forall k: nat | k < |q| :: q[k] < n
    ensures |q| <= n
    decreases n
  {
    if q != [] {
      assert q[0] < n;
      var r := Detached(q, n - 1);
      DetachedDistinct(q, n - 1);
      forall k: nat | k < |r| ensures r[k] < n - 1 { assert r[k] in r && r[k] in q; }
      Pigeonhole(r, n - 1);
    }
  }

  lemma {:induction false} SubmitAll(desc: seq<Desc>, head: nat, free: seq<nat>, chains: map<nat, Chain>, head': nat,
                                     c: Chain,
                                     pending: seq<nat>, buf: seq<int>, data: seq<nat>, posts: multiset<nat>, b: nat)
    requires TableOk(desc, head, free, chains) && |free| >= 3 && c == Chain(free[1], free[2], |data|, Sent, c.req)
             && c.req.b == b
             && (|free| > 3 ==> head' == free[3])
    requires RequestsOk(chains, pending, buf, data, posts) && CountOk(|free|, chains) && |buf| == |desc|
    ensures free[0] < |desc| && free[1] < |desc| && free[2] < |desc| && free[0] !in chains
    ensures TableOk(Linked(desc, free[0], free[1], free[2], c.req), head', free[3..], chains[free[0] := c])
    ensures RequestsOk(chains[free[0] := c], pending, buf[free[0] := b], data + [b], posts)
    ensures CountOk(|free[3..]|, chains[free[0] := c])
  {
    hide TableOk, RequestsOk, CountOk, Linked;
    SubmitTable(desc, head, free, chains, head', c);
    SubmitRequests(chains, pending, buf, data, posts, free[0], c, b);
    CountMore(|free|, chains, free[0], c);
  }

  function Counting(): (r: seq<nat>)
    ensures |r| == NQUEUE && forall k: nat | k < NQUEUE :: r[k] == k
  {
    seq(NQUEUE, k requires 0 <= k => k)
  }

  lemma {:induction false} InitTable(desc: seq<Desc>)
    requires |desc| == NQUEUE && forall k: nat | k < NQUEUE - 1 :: desc[k] == Desc(Nowhere, 0, true, false, k + 1)
    ensures TableOk(desc, 0, Counting(), map[])
  {
    var free := Counting();
    assert FreeOk(desc, 0, free);
    forall d: nat | d < NQUEUE ensures d in free { assert free[d] == d; }
  }

  lemma {:induction false} InitRest(ring: seq<nat>, buf: seq<int>)
    requires |ring| == NQUEUE
    ensures RingOk(ring, 0, 0, []) && RequestsOk(map[], [], buf, [], multiset{})
  {
  }

  class Disk {
    var desc: seq<Desc>
    var freeHead: nat
    var nfree: nat
    var availRing: seq<nat>
    var availIdx: nat
    var usedRing: seq<nat>
    var usedIdx: nat
    var lastUsedIdx: nat
    var buf: seq<int>            // info[].buf, -1 for NULL
    ghost var free: seq<nat>
    ghost var chains: map<nat, Chain>
    ghost var pending: seq<nat>
    ghost var data: seq<nat>     // the buffer of each request so far
    ghost var posts: multiset<nat>

    ghost predicate Valid()
      reads this
    {
      && |desc| == |buf| == |availRing| == NQUEUE && nfree == |free| && availIdx < WRAP && CountOk(nfree, chains)
      && TableOk(desc, freeHead, free, chains)
      && RingOk(usedRing, lastUsedIdx, usedIdx, pending)
      && RequestsOk(chains, pending, buf, data, posts)
    }

    /** `virtq_init` and `desc_init`. */
    constructor ()
      ensures Valid() && nfree == NQUEUE && chains == map[] && data == []
    {
      var table: seq<Desc> := seq(NQUEUE, i => Desc(Nowhere, 0, false, false, 0));
      var i := 0;
      while i < NQUEUE
        invariant i <= NQUEUE == |table|
                  && forall k: nat | i <= k < NQUEUE :: table[k] == Desc(Nowhere, 0, false, false, 0)
        invariant forall k: nat | k < i && k < NQUEUE - 1 :: table[k] == Desc(Nowhere, 0, true, false, k + 1)
      {
        if i != NQUEUE - 1 { table := table[i := table[i].(hasNext := true, write := false, next := i + 1)]; }
        i := i + 1;
      }
      desc, nfree, freeHead := table, NQUEUE, 0;
      usedRing, usedIdx, lastUsedIdx, availIdx := seq(NQUEUE, i => 0), 0, 0, 0;
      buf, availRing := seq(NQUEUE, i => -1), seq(NQUEUE, i => 0);
      free, chains, pending, data, posts := Counting(), map[], [], [], multiset{};
      hide TableOk, RingOk, RequestsOk;
      InitTable(table);
      new;
      InitRest(usedRing, buf);
    }

    /** `alloc_desc`; it panics on an empty list. */
    method AllocDesc() returns (ok: bool, d: nat)
      requires FreeOk(desc, freeHead, free) && nfree == |free|
      modifies `freeHead, `nfree, `free
      ensures ok == (old(free) != [])
      ensures !ok ==> free == old(free) && nfree == old(nfree) && freeHead == old(freeHead)
      ensures ok ==>
              d == old(free)[0] < |desc| && free == old(free)[1..] && nfree == old(nfree) - 1
              && FreeOk(desc, freeHead, free)
    {
      if nfree == 0 { return false, 0; }
      d := freeHead;
      if desc[d].hasNext { freeHead := desc[d].next; }
      nfree := nfree - 1;
      if |free| > 1 { assert LinksTo(desc[free[0]], free[1]); }
      free := free[1..];
      ok := true;
    }

    /** The three allocations of `virtio_blk_rw`, linked into a chain. */
    method TakeThree(q: Request) returns (ok: bool, d0: nat, d1: nat, d2: nat)
      requires FreeOk(desc, freeHead, free) && nfree == |free| && Distinct(free)
      modifies `desc, `freeHead, `nfree, `free
      ensures ok == (|old(free)| >= 3)
      ensures ok ==>
              d0 == old(free)[0] < |old(desc)| && d1 == old(free)[1] < |old(desc)| && d2 == old(free)[2] < |old(desc)|
      ensures ok ==>
              desc == Linked(old(desc), d0, d1, d2, q) && free == old(free)[3..] && nfree == |free|
              && FreeOk(desc, freeHead, free)
    {
      hide FreeOk, Distinct;
      d0, d1, d2 := 0, 0, 0;
      ghost var f := free;
      ok, d0 := AllocDesc();
      if !ok { return; }
      TailDistinct(f);
      var e0 := Desc(Header(q.read, q.sector), HDR_SIZE, true, false, desc[d0].next);
      FreeFrame(desc, freeHead, free, d0, e0);
      desc := desc[d0 := e0];
      ok, d1 := AllocDesc();
      if !ok { return; }
      TailDistinct(f[1..]);
      FreeFrame(desc, freeHead, free, d0, e0.(next := d1));
      desc := desc[d0 := e0.(next := d1)];
      var e1 := Desc(Buffer(q.b), SECTOR_SIZE, true, q.read, desc[d1].next);
      FreeFrame(desc, freeHead, free, d1, e1);
      desc := desc[d1 := e1];
      ok, d2 := AllocDesc();
      if !ok { return; }
      TailDistinct(f[2..]);
      FreeFrame(desc, freeHead, free, d1, e1.(next := d2));
      desc := desc[d1 := e1.(next := d2)];
      var e2 := Desc(Status(d0), STATUS_SIZE, false, true, 0);
      FreeFrame(desc, freeHead, free, d2, e2);
      desc := desc[d2 := e2];
    }

    /** Three descriptors are to be had exactly when at most one request is in flight. */
    method TakeChain(q: Request) returns (ok: bool, d0: nat, d1: nat, d2: nat)
      requires TableOk(desc, freeHead, free, chains) && nfree == |free| && CountOk(nfree, chains)
      modifies `desc, `freeHead, `nfree, `free
      ensures ok <==> old(nfree) >= 3
      ensures ok <==> |chains| <= 1
      ensures ok ==>
              |old(free)| >= 3 && d0 == old(free)[0] < |old(desc)| && d1 == old(free)[1] < |old(desc)|
              && d2 == old(free)[2] < |old(desc)|
      ensures ok ==> desc == Linked(old(desc), d0, d1, d2, q) && free == old(free)[3..] && nfree == |free|
      ensures ok && |old(free)| > 3 ==> freeHead == old(free)[3]
    {
      hide TableOk, FreeOk, Distinct, Linked, CountOk;
      CountFits(nfree, chains);
      TableParts(desc, freeHead, free, chains);
      ok, d0, d1, d2 := TakeThree(q);
      if ok { FreeHeadIs(desc, freeHead, free); }
    }

    /** The chain's head goes into the available ring. */
    method Publish(d0: nat)
      requires |availRing| == NQUEUE
      modifies `availRing, `availIdx
      ensures availRing == old(availRing)[old(availIdx) % NQUEUE := d0] && availIdx == (old(availIdx) + 1) % WRAP < WRAP
    {
      availRing := availRing[availIdx % NQUEUE := d0];
      availIdx := (availIdx + 1) % WRAP;
    }

    /**
      `virtio_blk_rw` up to the wait: it queues the request if at most one is in flight, and panics
      if there are two.
     */
    method Submit(q: Request) returns (ok: bool, d0: nat)
      requires Valid()
      modifies this
      ensures ok <==> old(nfree) >= 3
      ensures ok <==> |old(chains)| <= 1
      ensures ok ==>
              Valid() && d0 !in old(chains)
              && chains == old(chains)[d0 := Chain(old(free)[1], old(free)[2], |old(data)|, Sent, q)]
      ensures ok ==>
              free == old(free)[3..] && data == old(data) + [q.b] && pending == old(pending) && posts == old(posts)
      ensures ok ==> availRing == old(availRing)[old(availIdx) % NQUEUE := d0] && availIdx == (old(availIdx) + 1) % WRAP
      ensures ok ==> ChainOk(desc, d0, Chain(old(free)[1], old(free)[2], |old(data)|, Sent, q))
    {
      hide ChainOk, TableOk, RingOk, RequestsOk, Linked, CountOk;
      var d1, d2;
      ghost var f, table, head := free, desc, freeHead;
      ok, d0, d1, d2 := TakeChain(q);
      if !ok { return; }
      ghost var c := Chain(d1, d2, |data|, Sent, q);
      SubmitAll(table, head, f, chains, freeHead, c, pending, buf, data, posts, q.b);
      Enter(c, d0, q.b);
      ChainWalk(desc, freeHead, free, chains, d0);
      Publish(d0);
    }

    /** The request's buffer is recorded under its first descriptor. */
    method Enter(ghost c: Chain, d0: nat, b: nat)
      requires d0 < |buf|
      modifies `buf, `chains, `data
      ensures buf == old(buf)[d0 := b] && chains == old(chains)[d0 := c] && data == old(data) + [b]
    {
      buf := buf[d0 := b];
      chains, data := chains[d0 := c], data + [b];
    }

    /** The device returns a request it was given, once, with a good status. */
    method Complete(h: nat)
      requires Valid() && h in chains && chains[h].stage == Sent
      modifies `usedRing, `usedIdx, `chains, `pending
      ensures Valid() && chains == old(chains)[h := old(chains)[h].(stage := Returned)] && pending == old(pending) + [h]
    {
      hide TableOk, RingOk, RequestsOk, Distinct, CountOk;
      NotPending(chains, pending, buf, data, posts, h);
      PendingFits(desc, freeHead, free, chains, pending, h);
      RingPush(usedRing, lastUsedIdx, usedIdx, pending, h);
      ReturnRequests(chains, pending, buf, data, posts, h);
      StageTable(desc, freeHead, free, chains, h, Returned);
      CountSame(nfree, chains, chains[h := chains[h].(stage := Returned)]);
      RingSize(usedRing, lastUsedIdx, usedIdx, pending);
      usedRing := usedRing[usedIdx % NQUEUE := h];
      usedIdx := (usedIdx + 1) % WRAP;
      chains, pending := chains[h := chains[h].(stage := Returned)], pending + [h];
    }

    /** One round of the interrupt handler. */
    method PostOne() returns (b: int)
      requires Valid() && pending != []
      modifies `lastUsedIdx, `buf, `chains, `pending, `posts
      ensures Valid() && pending == old(pending)[1..] && old(pending)[0] in old(chains)
      ensures chains == old(chains)[old(pending)[0] := old(chains)[old(pending)[0]].(stage := Posted)]
      ensures old(chains)[old(pending)[0]].id < |data| && b == data[old(chains)[old(pending)[0]].id]
      ensures posts == old(posts) + multiset{old(chains)[old(pending)[0]].id}
              && old(posts)[old(chains)[old(pending)[0]].id] == 0
    {
      hide TableOk, RingOk, RequestsOk, Distinct, CountOk;
      RingPop(usedRing, lastUsedIdx, usedIdx, pending);
      RingSize(usedRing, lastUsedIdx, usedIdx, pending);
      PostRequests(chains, pending, buf, data, posts);
      var d0 := usedRing[lastUsedIdx % NQUEUE];
      StageTable(desc, freeHead, free, chains, d0, Posted);
      CountSame(nfree, chains, chains[d0 := chains[d0].(stage := Posted)]);
      b := buf[d0];
      buf := buf[d0 := -1];
      posts := posts + multiset{chains[d0].id};
      chains, pending := chains[d0 := chains[d0].(stage := Posted)], pending[1..];
      lastUsedIdx := (lastUsedIdx + 1) % WRAP;
    }

    /** `virtio_blk_intr`: every returned request is posted, to its own buffer, in order, and no other. */
    method Interrupt() returns (posted: seq<int>)
      requires Valid()
      modifies `lastUsedIdx, `buf, `chains, `pending, `posts
      ensures Valid() && pending == [] && chains == Marked(old(chains), old(pending))
              && Delivered(old(chains), old(pending), data, posted)
    {
      hide TableOk, RingOk, RequestsOk, Distinct, Marked, Delivered, CountOk;
      posted := [];
      ghost var all, before := pending, chains;
      MarkedNone(before);
      RingPop(usedRing, lastUsedIdx, usedIdx, pending);
      while lastUsedIdx != usedIdx
        invariant Valid() && |posted| <= |all| && pending == all[|posted|..]
                  && (lastUsedIdx == usedIdx <==> pending == [])
        invariant chains == Marked(before, all[..|posted|]) && Delivered(before, all[..|posted|], data, posted)
        decreases |pending|
      {
        var b := PostOne();
        RingPop(usedRing, lastUsedIdx, usedIdx, pending);
        MarkedNext(before, all, |posted|, chains, data, posted, b);
        posted := posted + [b];
      }
      assert all[..|posted|] == all;
    }

    /** `free_desc` follows the chain, counting, and puts it in front of the free list. */
    method FreeDesc(h: nat)
      requires Valid() && h in chains && chains[h].stage == Posted
      modifies `desc, `freeHead, `nfree, `free, `chains
      ensures Valid() && chains == old(chains) - {h} && free == [h, old(chains)[h].d1, old(chains)[h].d2] + old(free)
    {
      hide TableOk, RingOk, RequestsOk, FreeOk, Distinct, CountOk;
      ghost var c := chains[h];
      ChainWalk(desc, freeHead, free, chains, h);
      ReleaseTable(desc, freeHead, free, chains, h);
      ReleaseRequests(chains, pending, buf, data, posts, h);
      CountLess(nfree, chains, h);
      TableParts(desc, freeHead, free, chains);
      FreeHeadIs(desc, freeHead, free);
      var empty := nfree == 0;
      var n := FollowChain(h, c);
      desc := desc[n := desc[n].(hasNext := true, write := false, next := if empty then desc[n].next else freeHead)];
      freeHead := h;
      free, chains := [h, c.d1, c.d2] + free, chains - {h};
    }

    /** The loop of `free_desc`: counts the chain's descriptors and stops at its tail. */
    method FollowChain(h: nat, ghost c: Chain) returns (n: nat)
      requires ChainOk(desc, h, c)
      modifies `nfree
      ensures n == c.d2 && nfree == old(nfree) + 3
    {
      n := h;
      nfree := nfree + 1;
      while desc[n].hasNext
        invariant n < |desc| && (n == h || n == c.d1 || n == c.d2)
        invariant nfree == old(nfree) + (if n == h then 1 else if n == c.d1 then 2 else 3)
        decreases old(nfree) + 3 - nfree
      {
        n := desc[n].next;
        nfree := nfree + 1;
      }
    }
  }

  /** Two requests are queued and a third, made before either has come back, panics. */
  method ThirdPanics(q: seq<Request>) returns (ok: seq<bool>)
    requires |q| == 3
    ensures ok == [true, true, false]
  {
    hide Disk.Valid;
    var disk := new Disk();
    var first, d := disk.Submit(q[0]);
    var second, e := disk.Submit(q[1]);
    var third, f := disk.Submit(q[2]);
    ok := [first, second, third];
  }

  lemma {:induction false} CountMore(nfree: nat, chains: map<nat, Chain>, h: nat, c: Chain)
    requires CountOk(nfree, chains) && h !in chains
    ensures nfree >= 3 ==> CountOk(nfree - 3, chains[h := c])
  {
    assert chains[h := c].Keys == chains.Keys + {h};
  }

  lemma {:induction false} CountLess(nfree: nat, chains: map<nat, Chain>, h: nat)
    requires CountOk(nfree, chains) && h in chains
    ensures CountOk(nfree + 3, chains - {h})
  {
    assert chains.Keys == (chains - {h}).Keys + {h};
  }

  lemma {:induction false} CountFits(nfree: nat, chains: map<nat, Chain>)
    requires CountOk(nfree, chains)
    ensures nfree >= 3 <==> |chains| <= 1
  {
  }

  lemma {:induction false} CountSame(nfree: nat, chains: map<nat, Chain>, chains': map<nat, Chain>)
    requires CountOk(nfree, chains) && chains'.Keys == chains.Keys
    ensures CountOk(nfree, chains') && |chains'| == |chains|
  {
    assert |chains| == |chains.Keys| && |chains'| == |chains'.Keys|;
  }

  /** In flight or not, all descriptors are accounted for. */
  predicate CountOk(nfree: nat, chains: map<nat, Chain>) {
    nfree + 3 * |chains| == NQUEUE
  }

  lemma {:induction false} TableParts(desc: seq<Desc>, head: nat, free: seq<nat>, chains: map<nat, Chain>)
    requires TableOk(desc, head, free, chains)
    ensures FreeOk(desc, head, free) && Distinct(free)
  {
  }

  lemma {:induction false} FreeHeadIs(desc: seq<Desc>, head: nat, free: seq<nat>)
    requires FreeOk(desc, head, free)
    ensures free != [] ==> head == free[0]
  {
  }

  lemma {:induction false} ChainWalk(desc: seq<Desc>, head: nat, free: seq<nat>, chains: map<nat, Chain>, h: nat)
    requires TableOk(desc, head, free, chains) && h in chains
    ensures ChainOk(desc, h, chains[h])
  {
  }

  lemma {:induction false} RingSize(ring: seq<nat>, last: nat, idx: nat, pending: seq<nat>)
    requires RingOk(ring, last, idx, pending)
    ensures |ring| == NQUEUE && last < WRAP && idx < WRAP
  {
  }

  /** The buffers posted are those of the requests in `done`, in order. */
  ghost predicate Delivered(chains: map<nat, Chain>, done: seq<nat>, data: seq<nat>, posted: seq<int>) {
    && |posted| == |done|
    && forall k: nat | k < |done| ::
          done[k] in chains && chains[done[k]].id < |data| && posted[k] == data[chains[done[k]].id]
  }

  lemma {:induction false} FreeFrame(desc: seq<Desc>, head: nat, free: seq<nat>, d: nat, x: Desc)
    requires FreeOk(desc, head, free) && d < |desc| && d !in free
    ensures FreeOk(desc[d := x], head, free)
  {
    forall i: nat | i < |free| ensures free[i] != d { assert free[i] in free; }
  }

  lemma {:induction false} NotPending(chains: map<nat, Chain>, pending: seq<nat>, buf: seq<int>, data: seq<nat>,
                                      posts: multiset<nat>, h: nat)
    requires RequestsOk(chains, pending, buf, data, posts) && h in chains && chains[h].stage == Sent
    ensures h !in pending && Distinct(pending) && forall k: nat | k < |pending| :: pending[k] in chains
  {
  }

  /** The stage of a request does not matter to the table. */
  lemma {:induction false} StageTable(desc: seq<Desc>, head: nat, free: seq<nat>, chains: map<nat, Chain>, h: nat,
                                      stage: Stage)
    requires TableOk(desc, head, free, chains) && h in chains
    ensures TableOk(desc, head, free, chains[h := chains[h].(stage := stage)])
  {
    hide FreeOk, Distinct;
    var chains' := chains[h := chains[h].(stage := stage)];
    forall g, d ensures Member(chains', g, d) <==> Member(chains, g, d) {}
    forall g | g in chains' ensures ChainOk(desc, g, chains'[g]) { assert ChainOk(desc, g, chains[g]); }
    forall d: nat | d < |desc| ensures d in free || exists g :: Member(chains', g, d) {
      if d !in free {
        var g :| Member(chains, g, d);
        assert Member(chains', g, d);
      }
    }
  }

  ghost function Marked(chains: map<nat, Chain>, done: seq<nat>): (r: map<nat, Chain>)
    ensures r.Keys == chains.Keys
    ensures forall h | h in chains :: r[h] == if h in done then chains[h].(stage := Posted) else chains[h]
  {
    map h | h in chains :: if h in done then chains[h].(stage := Posted) else chains[h]
  }

  lemma {:induction false} MarkedNone(chains: map<nat, Chain>)
    ensures Marked(chains, []) == chains && forall data :: Delivered(chains, [], data, [])
  {
  }

  lemma {:induction false} MarkedNext(before: map<nat, Chain>, all: seq<nat>, k: nat, chains: map<nat, Chain>,
                                      data: seq<nat>, posted: seq<int>, b: int)
    requires k < |all| && all[k] in before && |posted| == k && Delivered(before, all[..k], data, posted)
    requires chains == Marked(before, all[..k])[all[k] := Marked(before, all[..k])[all[k]].(stage := Posted)]
    requires before[all[k]].id < |data| && b == data[before[all[k]].id]
    ensures chains == Marked(before, all[..k + 1]) && Delivered(before, all[..k + 1], data, posted + [b])
    ensures all[k..][1..] == all[k + 1..] && all[k..][0] == all[k]
  {
    assert all[..k + 1] == all[..k] + [all[k]];
  }
}
