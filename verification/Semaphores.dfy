/**
  Semaphores of `src/common/sem.c` together with the scheduler, as a system of steps: whatever a
  process does between two lock operations is one step of the CPU it runs on, and the CPUs
  interleave freely.
 */
module Semaphores {
  import opened Common
  import opened Lists
  import opened LinkedQueues
  import opened SpinLocks
  import opened Scheduler

  /** `initial`, `posts` and `grants` only record history; `list` has the newest sleeper first. */
  datatype Sem = Sem(val: int, list: seq<nat>, holder: Holder, initial: int, posts: nat, grants: nat)

  /**
    Where a process is: outside, inside a semaphore's lock, about to activate the process it posted
    to, or at one of the stages of `_wait_sem`: queued with the semaphore locked, with both locks,
    with the scheduler lock only, and beyond `sched`.
   */
  datatype Pc = Free | Holding(s: nat) | Posting(s: nat, q: nat)
    | Parking(s: nat, alertable: bool) | BothLocks(s: nat, alertable: bool) | Handing(s: nat, alertable: bool)
    | Waiting(s: nat, alertable: bool)

  /**
    `up` is the flag in a process's WaitData, `refused` whether `sched` would not let it sleep,
    `ticket` the order of arrival, `lock` the holder of `sched_lock`.
   */
  datatype State = State(t: Table, pc: seq<Pc>, up: seq<bool>, refused: seq<bool>, ticket: seq<nat>, clock: nat,
      sems: seq<Sem>, lock: Holder)

  datatype Action =
    | Lock(c: nat, i: nat) | Unlock(c: nat) | Post(c: nat) | Wake(c: nat) | Get(c: nat) | GetAll(c: nat)
    | Wait(c: nat, alertable: bool) | TakeSched(c: nat) | DropSem(c: nat) | Sleep(c: nat, panicking: bool)
    | Recheck(c: nat)
    | Yield(c: nat, panicking: bool) | Exit(c: nat, panicking: bool) | Activate(c: nat, q: nat, onalert: bool)
    | Kill(c: nat, q: nat)

  datatype Result = Blocked | Fault | Step(s: State)

  // ----- what a program counter means -----

  predicate HoldsSem(pc: Pc, i: nat) {
    (pc.Holding? || pc.Posting? || pc.Parking? || pc.BothLocks?) && pc.s == i
  }

  predicate HoldsSched(pc: Pc) {
    pc.BothLocks? || pc.Handing?
  }

  predicate Enqueued(pc: Pc, i: nat) {
    (pc.Parking? || pc.BothLocks? || pc.Handing? || pc.Waiting?) && pc.s == i
  }

  predicate Asleep(s: ProcState) {
    s == SLEEPING || s == DEEPSLEEPING
  }

  // ----- the invariant -----

  ghost predicate Shape(s: State) {
    && SchedInv(s.t) && |s.pc| == |s.up| == |s.refused| == |s.ticket| == |s.t.state|
    && (forall p: nat | p < |s.pc| && !s.pc[p].Free? :: s.pc[p].s < |s.sems|)
    && (forall p: nat | p < |s.pc| && s.pc[p].Posting? :: s.pc[p].q < |s.pc|)
    && (forall i: nat, q: nat | i < |s.sems| && q in s.sems[i].list :: q < |s.pc|)
  }

  /** Locks are held by exactly the processes that are inside them. */
  ghost predicate Locks(pc: seq<Pc>, sems: seq<Sem>, lock: Holder) {
    && (forall i: nat, p: nat | i < |sems| && p < |pc| :: HoldsSem(pc[p], i) <==> sems[i].holder == By(p))
    && (forall i: nat | i < |sems| && sems[i].holder.By? :: sems[i].holder.p < |pc|)
    && (forall p: nat | p < |pc| :: HoldsSched(pc[p]) <==> lock == By(p))
    && (lock.By? ==> lock.p < |pc|)
  }

  /**
    A process inside a lock is RUNNING; one that sleeps is beyond `sched` in `_wait_sem`; idle
    processes do not wait.
   */
  ghost predicate Running(state: seq<ProcState>, pc: seq<Pc>)
    requires |pc| == |state|
  {
    forall p: nat | p < |pc| ::
      && (!pc[p].Free? && !pc[p].Waiting? ==> state[p] == RUNNING)
      && (Asleep(state[p]) ==> pc[p].Waiting?)
      && (pc[p].Waiting? ==> Asleep(state[p]) || Scheduler.Queued(state[p]))
      && (pc[p].Parking? || pc[p].BothLocks? || pc[p].Handing? || pc[p].Waiting? ==> p >= NCPU)
  }

  /** The length of the sleep list and the value determine each other, and tokens are conserved. */
  predicate Counts(m: Sem) {
    && |m.list| == (if m.val < 0 then -m.val else 0)
    && m.val == m.initial + m.posts - m.grants - |m.list|
  }

  /** The sleep list holds exactly the processes that wait without having been granted. */
  ghost predicate Queues(pc: seq<Pc>, up: seq<bool>, sems: seq<Sem>)
    requires |up| == |pc|
  {
    && (forall i: nat, q: nat | i < |sems| && q < |pc| :: q in sems[i].list <==> Enqueued(pc[q], i) && !up[q])
    && (forall q: nat | q < |pc| && (pc[q].Parking? || pc[q].BothLocks?) :: !up[q])
  }

  /** Newest first: tickets fall along the list. */
  ghost predicate Ordered(list: seq<nat>, ticket: seq<nat>, clock: nat) {
    && (forall j: nat | j < |list| :: list[j] < |ticket| && ticket[list[j]] < clock)
    && (forall j: nat, k: nat | j < k < |list| ::
          list[j] < |ticket| && list[k] < |ticket| && ticket[list[j]] > ticket[list[k]])
  }

  /**
    Whoever has been granted but is still asleep, or is on its way to sleep, is about to be
    activated by the process inside the lock.
   */
  ghost predicate Wakeups(state: seq<ProcState>, pc: seq<Pc>, up: seq<bool>, sems: seq<Sem>)
    requires |up| == |pc| == |state|
  {
    forall q: nat | q < |pc| && up[q] && (pc[q].Handing? || (pc[q].Waiting? && Asleep(state[q]))) ::
        Granting(pc, sems, pc[q].s, q)
  }

  predicate Granting(pc: seq<Pc>, sems: seq<Sem>, i: nat, q: nat) {
    i < |sems| && sems[i].holder.By? && sems[i].holder.p < |pc| && pc[sems[i].holder.p] == Posting(i, q)
  }

  ghost predicate Inv(s: State) {
    && Shape(s) && Locks(s.pc, s.sems, s.lock) && Running(s.t.state, s.pc)
    && (forall i: nat | i < |s.sems| :: Counts(s.sems[i]))
    && (forall i: nat | i < |s.sems| :: Ordered(s.sems[i].list, s.ticket, s.clock))
    && Queues(s.pc, s.up, s.sems) && Wakeups(s.t.state, s.pc, s.up, s.sems)
  }

  // ----- the steps -----

  function Put(s: State, p: nat, pc: Pc, i: nat, m: Sem): State
    requires p < |s.pc| && i < |s.sems|
  {
    s.(pc := s.pc[p := pc], sems := s.sems[i := m])
  }

  /** Steps that need no semaphore lock. */
  ghost function OutsideStep(s: State, a: Action, p: nat): Result
    requires Shape(s) && a.c < NCPU && p == s.t.cpu[a.c] && s.pc[p].Free?
  {
    match a
    case Lock(_, i) =>
      if i < |s.sems| && s.sems[i].holder == Nobody then Step(Put(s, p, Holding(i), i, s.sems[i].(holder := By(p))))
          else Blocked
    case Yield(c, panicking) =>
      if s.lock != Nobody then Blocked else Scheduled(s, Switched(s.t, c, RUNNABLE, panicking))
    case Exit(c, panicking) =>
      if s.lock != Nobody || p < NCPU then Blocked else Scheduled(s, Switched(s.t, c, ZOMBIE, panicking))
    case Activate(_, q, onalert) =>
      if s.lock != Nobody || q >= |s.pc| then Blocked
      else if !onalert && Asleep(s.t.state[q]) then Blocked   // only _post_sem does this
      else if Wakes(s.t, q, onalert) then Step(s.(t := Activated(s.t, q))) else Step(s)
    case Kill(_, q) =>
      if NCPU <= q < |s.pc| then Step(s.(t := s.t.(killed := s.t.killed[q := true]))) else Blocked
    case _ => Blocked
  }

  ghost function Scheduled(s: State, o: Outcome<Table>): Result {
    if o.Panic? then Fault else Step(s.(t := o.value))
  }

  /** Steps inside a semaphore's lock. */
  function LockedStep(s: State, a: Action, p: nat, i: nat): Result
    requires p < |s.pc| == |s.up| == |s.ticket| && i < |s.sems|
             && forall j: nat | j < |s.sems[i].list| :: s.sems[i].list[j] < |s.pc|
  {
    var m := s.sems[i];
    match a
    case Unlock(_) => Step(Put(s, p, Free, i, m.(holder := Nobody)))
    case Get(_) => if m.val > 0 then Step(Put(s, p, Holding(i), i, m.(val := m.val - 1, grants := m.grants + 1)))
        else Step(s)
    case GetAll(_) => if m.val > 0 then Step(Put(s, p, Holding(i), i, m.(val := 0, grants := m.grants + m.val)))
        else Step(s)
    case Post(_) =>
      if m.val + 1 <= 0 then
        if m.list == [] then Fault else Step(PostWakes(s, p, i))
      else Step(Put(s, p, Holding(i), i, m.(val := m.val + 1, posts := m.posts + 1)))
    case Wait(_, alertable) =>
      if m.val - 1 >= 0 then Step(Put(s, p, Free, i, m.(val := m.val - 1, grants := m.grants + 1, holder := Nobody)))
      else if p < NCPU then Blocked else Step(WaitQueues(s, p, i, alertable))
    case _ => Blocked
  }

  /** The tail of the list is granted; its process is activated in a later step. */
  function PostWakes(s: State, p: nat, i: nat): State
    requires p < |s.pc| == |s.up| && i < |s.sems| && s.sems[i].list != []
             && forall j: nat | j < |s.sems[i].list| :: s.sems[i].list[j] < |s.pc|
  {
    var m := s.sems[i];
    var n := |m.list| - 1;
    var m' := m.(val := m.val + 1, list := m.list[..n], posts := m.posts + 1, grants := m.grants + 1);
    Put(s, p, Posting(i, m.list[n]), i, m').(up := s.up[m.list[n] := true])
  }

  function WaitQueues(s: State, p: nat, i: nat, alertable: bool): State
    requires p < |s.pc| == |s.up| == |s.ticket| && i < |s.sems|
  {
    var m := s.sems[i];
    Put(s, p, Parking(i, alertable), i, m.(val := m.val - 1, list := [p] + m.list)).(up := s.up[p := false],
        ticket := s.ticket[p := s.clock], clock := s.clock + 1)
  }

  /** The tail of `_wait_sem`: a process that was not granted takes its place back. */
  function Rechecked(s: State, p: nat, i: nat): Result
    requires p < |s.pc| == |s.up| && i < |s.sems|
  {
    var m := s.sems[i];
    if m.holder != Nobody then Blocked
    else if s.up[p] then Step(s.(pc := s.pc[p := Free]))
    else if m.val + 1 > 0 then Fault
    else Step(Put(s, p, Free, i, m.(val := m.val + 1, list := Detached(m.list, p))))
  }

  /** The stages of posting and waiting that have one thing to do. */
  ghost function StageStep(s: State, a: Action, p: nat): Result
    requires Shape(s) && a.c < NCPU && p == s.t.cpu[a.c] && !s.pc[p].Free? && !s.pc[p].Holding?
  {
    match s.pc[p]
    case Posting(i, q) =>
      if !a.Wake? || s.lock != Nobody then Blocked
      else Step(s.(pc := s.pc[p := Holding(i)], t := if Wakes(s.t, q, false) then Activated(s.t, q) else s.t))
    case Parking(i, alertable) =>
      if !a.TakeSched? || s.lock != Nobody then Blocked
          else Step(s.(pc := s.pc[p := BothLocks(i, alertable)], lock := By(p)))
    case BothLocks(i, alertable) =>
      if !a.DropSem? then Blocked else Step(Put(s, p, Handing(i, alertable), i, s.sems[i].(holder := Nobody)))
    case Handing(i, alertable) =>
      if !a.Sleep? then Blocked
      else
        var u := s.(pc := s.pc[p := Waiting(i, alertable)], lock := Nobody, refused := s.refused[p := s.t.killed[p]]);
        Scheduled(u, Switched(s.t, a.c, if alertable then SLEEPING else DEEPSLEEPING, a.panicking))
    case Waiting(i, _) => if a.Recheck? then Rechecked(s, p, i) else Blocked
  }

  ghost function Next(s: State, a: Action): Result
    requires Shape(s)
  {
    if a.c >= NCPU then Blocked
    else
      var p := s.t.cpu[a.c];
      match s.pc[p]
      case Free => OutsideStep(s, a, p)
      case Holding(i) => SemShape(s, i); LockedStep(s, a, p, i)
      case _ => StageStep(s, a, p)
  }

  lemma {:induction false} SemShape(s: State, i: nat)
    requires Shape(s) && i < |s.sems|
    ensures forall j: nat | j < |s.sems[i].list| :: s.sems[i].list[j] < |s.pc|
  {
    forall j: nat | j < |s.sems[i].list| ensures s.sems[i].list[j] < |s.pc| {
      assert s.sems[i].list[j] in s.sems[i].list;
    }
  }

  // ----- one process moves, one semaphore changes -----

  predicate OnlySem(pc: Pc, i: nat) {
    pc.Free? || pc.s == i
  }

  lemma {:induction false} LocksPut(pc: seq<Pc>, sems: seq<Sem>, lock: Holder, p: nat, x: Pc, i: nat, m: Sem)
    requires Locks(pc, sems, lock) && p < |pc| && i < |sems|
    requires OnlySem(pc[p], i) && OnlySem(x, i) && HoldsSched(x) == HoldsSched(pc[p])
    requires sems[i].holder == Nobody || sems[i].holder == By(p)
    requires m.holder == if HoldsSem(x, i) then By(p) else Nobody
    ensures Locks(pc[p := x], sems[i := m], lock)
  {
    var pc', sems' := pc[p := x], sems[i := m];
    forall j: nat, q: nat | j < |sems| && q < |pc| ensures HoldsSem(pc'[q], j) <==> sems'[j].holder == By(q) {
      assert HoldsSem(pc[q], j) <==> sems[j].holder == By(q);
    }
  }

  lemma {:induction false} RunningPut(state: seq<ProcState>, pc: seq<Pc>, p: nat, x: Pc)
    requires |pc| == |state| && p < |pc| && Running(state, pc) && state[p] == RUNNING
    requires x.Parking? || x.BothLocks? || x.Handing? || x.Waiting? ==> p >= NCPU
    ensures Running(state, pc[p := x])
  {
  }

  lemma {:induction false} QueueAt(pc: seq<Pc>, up: seq<bool>, sems: seq<Sem>, p: nat, i: nat)
    requires |up| == |pc| && p < |pc| && i < |sems| && Queues(pc, up, sems)
    ensures p in sems[i].list <==> Enqueued(pc[p], i) && !up[p]
  {
  }

  lemma {:induction false} QueuesPut(pc: seq<Pc>, up: seq<bool>, sems: seq<Sem>, p: nat, x: Pc, i: nat, m: Sem)
    requires |up| == |pc| && p < |pc| && i < |sems| && Queues(pc, up, sems)
    requires OnlySem(pc[p], i) && OnlySem(x, i) && (x.Parking? || x.BothLocks? ==> !up[p])
    requires forall q: nat | q < |pc| && q != p :: q in m.list <==> q in sems[i].list
    requires p in m.list <==> Enqueued(x, i) && !up[p]
    ensures Queues(pc[p := x], up, sems[i := m])
  {
    var pc', sems' := pc[p := x], sems[i := m];
    forall j: nat, q: nat | j < |sems| && q < |pc| ensures q in sems'[j].list <==> Enqueued(pc'[q], j) && !up[q] {
      assert q in sems[j].list <==> Enqueued(pc[q], j) && !up[q];
    }
  }

  lemma {:induction false} WakeupsPut(state: seq<ProcState>, pc: seq<Pc>, up: seq<bool>, sems: seq<Sem>, p: nat,
                                      x: Pc, i: nat, m: Sem)
    requires |up| == |pc| == |state| && p < |pc| && i < |sems| && Wakeups(state, pc, up, sems)
    requires !pc[p].Posting? && !x.Waiting? && (x.Handing? ==> !up[p])
    requires sems[i].holder == Nobody || sems[i].holder == By(p)
    ensures Wakeups(state, pc[p := x], up, sems[i := m])
  {
  }

  lemma {:induction false} PutKeeps(s: State, p: nat, x: Pc, i: nat, m: Sem)
    requires Inv(s) && p < |s.pc| && i < |s.sems| && s.t.state[p] == RUNNING
    requires OnlySem(s.pc[p], i) && OnlySem(x, i) && HoldsSched(x) == HoldsSched(s.pc[p]) && !s.pc[p].Posting?
             && !x.Posting? && !x.Waiting?
    requires s.sems[i].holder == Nobody || s.sems[i].holder == By(p)
    requires m.holder == if HoldsSem(x, i) then By(p) else Nobody
    requires x.Parking? || x.BothLocks? || x.Handing? ==> !s.up[p] && p >= NCPU
    requires forall q: nat :: q in m.list <==> q in s.sems[i].list && (q == p ==> Enqueued(x, i))
    requires Enqueued(x, i) ==> p in s.sems[i].list
    requires Counts(m) && Ordered(m.list, s.ticket, s.clock)
    ensures Inv(Put(s, p, x, i, m))
  {
    hide SchedInv, Locks, Running, Wakeups, Counts, Ordered, Granting;
    LocksPut(s.pc, s.sems, s.lock, p, x, i, m);
    RunningPut(s.t.state, s.pc, p, x);
    QueuesPut(s.pc, s.up, s.sems, p, x, i, m);
    WakeupsPut(s.t.state, s.pc, s.up, s.sems, p, x, i, m);
    hide Queues;
  }

  /** The running process of a CPU. */
  lemma {:induction false} Current(s: State, c: nat)
    requires Inv(s) && c < NCPU
    ensures |s.t.cpu| == NCPU && s.t.cpu[c] < |s.pc| == |s.t.state| && s.t.state[s.t.cpu[c]] == RUNNING
  {
  }

  lemma {:induction false} HolderIs(s: State, p: nat, i: nat)
    requires Inv(s) && p < |s.pc| && HoldsSem(s.pc[p], i)
    ensures i < |s.sems| && s.sems[i].holder == By(p)
  {
    hide SchedInv, Running, Queues, Wakeups, Counts, Ordered;
  }

  /** Get, GetAll, a post or a wait that meets no sleeper, and Unlock. */
  lemma {:induction false} LockedKeeps(s: State, a: Action, p: nat, i: nat)
    requires Inv(s) && p < |s.pc| && i < |s.sems| && s.t.state[p] == RUNNING && s.pc[p] == Holding(i)
    requires a.Unlock? || a.Get? || a.GetAll? || (a.Post? && s.sems[i].val >= 0) || (a.Wait? && s.sems[i].val > 0)
    requires forall j: nat | j < |s.sems[i].list| :: s.sems[i].list[j] < |s.pc|
    ensures var r := LockedStep(s, a, p, i); r.Step? && Inv(r.s)
  {
    HolderIs(s, p, i);
    NotQueued(s, p, i);
    assert Counts(s.sems[i]) && Ordered(s.sems[i].list, s.ticket, s.clock);
    var r := LockedStep(s, a, p, i);
    if r.s != s {
      PutKeeps(s, p, r.s.pc[p], i, r.s.sems[i]);
    }
  }

  lemma {:induction false} NotQueued(s: State, p: nat, i: nat)
    requires Inv(s) && p < |s.pc| && i < |s.sems| && !Enqueued(s.pc[p], i)
    ensures p !in s.sems[i].list
  {
  }

  // ----- sleeping and waking -----

  /** `_post_sem` on a semaphore with sleepers: there is one, and the oldest is granted. */
  lemma {:induction false} PostKeeps(s: State, p: nat, i: nat)
    requires Inv(s) && p < |s.pc| && i < |s.sems| && s.t.state[p] == RUNNING && s.pc[p] == Holding(i)
             && s.sems[i].val < 0
    requires forall j: nat | j < |s.sems[i].list| :: s.sems[i].list[j] < |s.pc|
    ensures s.sems[i].list != [] && Inv(PostWakes(s, p, i))
  {
    hide SchedInv, Wakeups, Granting, Running;
    HolderIs(s, p, i);
    assert Counts(s.sems[i]) && Ordered(s.sems[i].list, s.ticket, s.clock);
    var m := s.sems[i];
    var n := |m.list| - 1;
    var q := m.list[n];
    var s' := PostWakes(s, p, i);
    assert q in m.list;
    forall x: nat ensures x in m.list[..n] <==> x in m.list && x != q { LastOut(m.list, s.ticket, s.clock, x); }
    assert Enqueued(s.pc[q], i) && !HoldsSem(s.pc[q], i);
    PostPieces(s, p, i, q, s'.sems[i]);
    hide Locks, Queues;
  }

  lemma {:induction false} LastOut(list: seq<nat>, ticket: seq<nat>, clock: nat, x: nat)
    requires list != [] && Ordered(list, ticket, clock)
    ensures x in list[..|list| - 1] <==> x in list && x != list[|list| - 1]
  {
    var n := |list| - 1;
    if x in list[..n] {
      var j: nat :| j < n && list[j] == x;
      assert list[j] in list && ticket[list[j]] > ticket[list[n]];
    }
    if x in list && x != list[n] {
      var j: nat :| j < |list| && list[j] == x;
      assert list[..n][j] == x;
    }
  }

  lemma {:induction false} PostPieces(s: State, p: nat, i: nat, q: nat, m: Sem)
    requires Inv(s) && p < |s.pc| && q < |s.pc| && q != p && i < |s.sems| && s.t.state[p] == RUNNING
             && s.pc[p] == Holding(i) && s.sems[i].holder == By(p) == m.holder
    requires Enqueued(s.pc[q], i) && !HoldsSem(s.pc[q], i)
    requires forall x: nat :: x in m.list <==> x in s.sems[i].list && x != q
    ensures Locks(s.pc[p := Posting(i, q)], s.sems[i := m], s.lock) && Running(s.t.state, s.pc[p := Posting(i, q)])
    ensures Queues(s.pc[p := Posting(i, q)], s.up[q := true], s.sems[i := m])
    ensures Wakeups(s.t.state, s.pc[p := Posting(i, q)], s.up[q := true], s.sems[i := m])
  {
    hide SchedInv, Counts, Ordered;
    LocksPut(s.pc, s.sems, s.lock, p, Posting(i, q), i, m);
    RunningPut(s.t.state, s.pc, p, Posting(i, q));
    GrantQueues(s.pc, s.up, s.sems, p, i, q, m);
    GrantWakeups(s.t.state, s.pc, s.up, s.sems, p, i, q, m);
  }

  lemma {:induction false} GrantQueues(pc: seq<Pc>, up: seq<bool>, sems: seq<Sem>, p: nat, i: nat, q: nat, m: Sem)
    requires |up| == |pc| && p < |pc| && q < |pc| && q != p && i < |sems| && Queues(pc, up, sems)
    requires pc[p] == Holding(i) && Enqueued(pc[q], i) && !HoldsSem(pc[q], i)
    requires forall x: nat :: x in m.list <==> x in sems[i].list && x != q
    ensures Queues(pc[p := Posting(i, q)], up[q := true], sems[i := m])
  {
    var pc', up', sems' := pc[p := Posting(i, q)], up[q := true], sems[i := m];
    forall j: nat, x: nat | j < |sems| && x < |pc| ensures x in sems'[j].list <==> Enqueued(pc'[x], j) && !up'[x] {
      assert x in sems[j].list <==> Enqueued(pc[x], j) && !up[x];
    }
  }

  lemma {:induction false} GrantWakeups(state: seq<ProcState>, pc: seq<Pc>, up: seq<bool>, sems: seq<Sem>, p: nat,
                                        i: nat, q: nat, m: Sem)
    requires |up| == |pc| == |state| && p < |pc| && q < |pc| && q != p && i < |sems| && Wakeups(state, pc, up, sems)
    requires pc[p] == Holding(i) && sems[i].holder == By(p) == m.holder && Enqueued(pc[q], i)
    ensures Wakeups(state, pc[p := Posting(i, q)], up[q := true], sems[i := m])
  {
  }

  /** The activation that follows: afterwards nobody this semaphore has granted is asleep. */
  lemma {:induction false} WakeKeeps(s: State, p: nat, i: nat, q: nat)
    requires Inv(s) && p < |s.pc| && s.t.state[p] == RUNNING && s.pc[p] == Posting(i, q) && s.lock == Nobody
             && q < |s.t.state|
    ensures Inv(s.(pc := s.pc[p := Holding(i)], t := if Wakes(s.t, q, false) then Activated(s.t, q) else s.t))
  {
    hide SchedInv, Locks, Running, Wakeups, Granting, Queues, Counts, Ordered;
    HolderIs(s, p, i);
    if Wakes(s.t, q, false) { ActivateKeeps(s.t, q, false); }
    assert s.sems == s.sems[i := s.sems[i]];
    LocksPut(s.pc, s.sems, s.lock, p, Holding(i), i, s.sems[i]);
    RunningPut(s.t.state, s.pc, p, Holding(i));
    QueueAt(s.pc, s.up, s.sems, p, i);
    QueuesPut(s.pc, s.up, s.sems, p, Holding(i), i, s.sems[i]);
    RunningActivated(s.t, s.pc[p := Holding(i)], q);
    WokenUp(s, p, i, q);
  }

  lemma {:induction false} RunningActivated(t: Table, pc: seq<Pc>, q: nat)
    requires |pc| == |t.state| && Running(t.state, pc) && q < |pc|
    ensures Wakes(t, q, false) ==> Running(Activated(t, q).state, pc)
  {
  }

  lemma {:induction false} WokenUp(s: State, p: nat, i: nat, q: nat)
    requires Inv(s) && p < |s.pc| && s.pc[p] == Posting(i, q) && s.lock == Nobody && q < |s.t.state|
    ensures var t' := if Wakes(s.t, q, false) then Activated(s.t, q) else s.t;
            |t'.state| == |s.pc| && Wakeups(t'.state, s.pc[p := Holding(i)], s.up, s.sems)
  {
    hide SchedInv, Queues, Counts, Ordered;
    HolderIs(s, p, i);
    var t' := if Wakes(s.t, q, false) then Activated(s.t, q) else s.t;
    var pc' := s.pc[p := Holding(i)];
    forall x: nat | x < |pc'| && s.up[x] && (pc'[x].Handing? || (pc'[x].Waiting? && Asleep(t'.state[x])))
      ensures Granting(pc', s.sems, pc'[x].s, x)
    {
      assert !HoldsSched(s.pc[x]);
      assert x != q && Asleep(s.t.state[x]);
      assert Granting(s.pc, s.sems, s.pc[x].s, x);
    }
  }

  /** `_wait_sem` that has to wait: queued with the semaphore still locked. */
  lemma {:induction false} WaitKeeps(s: State, p: nat, i: nat, alertable: bool)
    requires Inv(s) && NCPU <= p < |s.pc| && i < |s.sems| && s.t.state[p] == RUNNING && s.pc[p] == Holding(i)
             && s.sems[i].val <= 0
    ensures Inv(WaitQueues(s, p, i, alertable))
  {
    HolderIs(s, p, i);
    NotQueued(s, p, i);
    var s' := WaitQueues(s, p, i, alertable);
    var m, x := s'.sems[i], Parking(i, alertable);
    LocksPut(s.pc, s.sems, s.lock, p, x, i, m);
    RunningPut(s.t.state, s.pc, p, x);
    QueuesLater(s.pc, s.up, s.sems, p);
    QueuesPut(s.pc, s.up[p := false], s.sems, p, x, i, m);
    WakeupsLater(s.t.state, s.pc, s.up, s.sems, p);
    WakeupsPut(s.t.state, s.pc, s.up[p := false], s.sems, p, x, i, m);
    TicketsLater(s, p, i);
    hide SchedInv, Locks, Running, Wakeups, Granting, Queues, Ordered;
  }

  lemma {:induction false} QueuesLater(pc: seq<Pc>, up: seq<bool>, sems: seq<Sem>, p: nat)
    requires |up| == |pc| && p < |pc| && Queues(pc, up, sems) && (pc[p].Holding? || pc[p].Free?)
    ensures Queues(pc, up[p := false], sems)
  {
    var up' := up[p := false];
    forall j: nat, x: nat | j < |sems| && x < |pc| ensures x in sems[j].list <==> Enqueued(pc[x], j) && !up'[x] {
      assert x in sems[j].list <==> Enqueued(pc[x], j) && !up[x];
    }
  }

  lemma {:induction false} WakeupsLater(state: seq<ProcState>, pc: seq<Pc>, up: seq<bool>, sems: seq<Sem>, p: nat)
    requires |up| == |pc| == |state| && p < |pc| && Wakeups(state, pc, up, sems)
    ensures Wakeups(state, pc, up[p := false], sems)
  {
  }

  lemma {:induction false} TicketsLater(s: State, p: nat, i: nat)
    requires Inv(s) && p < |s.pc| && i < |s.sems| && s.pc[p] == Holding(i)
    ensures forall j: nat | j < |s.sems| :: Ordered(s.sems[j].list, s.ticket[p := s.clock], s.clock + 1)
    ensures Ordered([p] + s.sems[i].list, s.ticket[p := s.clock], s.clock + 1)
  {
    hide SchedInv, Locks, Running, Wakeups, Counts;
    forall j: nat | j < |s.sems| ensures Ordered(s.sems[j].list, s.ticket[p := s.clock], s.clock + 1) {
      NotQueued(s, p, j);
      assert Ordered(s.sems[j].list, s.ticket, s.clock);
      TicketNew(s.sems[j].list, s.ticket, s.clock, p);
    }
    NotQueued(s, p, i);
    assert Ordered(s.sems[i].list, s.ticket, s.clock);
    TicketNew(s.sems[i].list, s.ticket, s.clock, p);
  }

  lemma {:induction false} TicketNew(list: seq<nat>, ticket: seq<nat>, clock: nat, p: nat)
    requires Ordered(list, ticket, clock) && p < |ticket| && p !in list
    ensures Ordered(list, ticket[p := clock], clock + 1) && Ordered([p] + list, ticket[p := clock], clock + 1)
  {
    var t' := ticket[p := clock];
    forall j: nat | j < |list| ensures list[j] < |t'| && t'[list[j]] == ticket[list[j]] { assert list[j] in list; }
  }

  lemma {:induction false} TakeSchedKeeps(s: State, p: nat, i: nat, alertable: bool)
    requires Inv(s) && p < |s.pc| && s.t.state[p] == RUNNING && s.pc[p] == Parking(i, alertable) && s.lock == Nobody
    ensures Inv(s.(pc := s.pc[p := BothLocks(i, alertable)], lock := By(p)))
  {
    HolderIs(s, p, i);
    var pc', x := s.pc[p := BothLocks(i, alertable)], BothLocks(i, alertable);
    assert s.sems == s.sems[i := s.sems[i]];
    assert p >= NCPU && !s.up[p];
    assert Locks(pc', s.sems, By(p)) by {
      forall j: nat, q: nat | j < |s.sems| && q < |pc'| ensures HoldsSem(pc'[q], j) <==> s.sems[j].holder == By(q) {
        assert HoldsSem(s.pc[q], j) <==> s.sems[j].holder == By(q);
      }
    }
    RunningPut(s.t.state, s.pc, p, x);
    QueuesPut(s.pc, s.up, s.sems, p, x, i, s.sems[i]);
    WakeupsPut(s.t.state, s.pc, s.up, s.sems, p, x, i, s.sems[i]);
    hide SchedInv, Locks, Running, Wakeups, Granting, Queues, Ordered, Counts;
  }

  lemma {:induction false} DropSemKeeps(s: State, p: nat, i: nat, alertable: bool)
    requires Inv(s) && p < |s.pc| && s.t.state[p] == RUNNING && s.pc[p] == BothLocks(i, alertable)
    ensures i < |s.sems| && Inv(Put(s, p, Handing(i, alertable), i, s.sems[i].(holder := Nobody)))
  {
    HolderIs(s, p, i);
    assert Counts(s.sems[i]) && Ordered(s.sems[i].list, s.ticket, s.clock);
    assert p >= NCPU && !s.up[p] && p in s.sems[i].list;
    PutKeeps(s, p, Handing(i, alertable), i, s.sems[i].(holder := Nobody));
  }

  /** A change of the process table that puts nobody to sleep and takes nobody off a CPU while inside a lock. */
  ghost predicate Harmless(s: State, t': Table) {
    && SchedInv(t') && |t'.state| == |s.pc| == |s.t.state| && Running(t'.state, s.pc)
    && forall q: nat | q < |s.pc| && Asleep(t'.state[q]) :: Asleep(s.t.state[q])
  }

  lemma {:induction false} HarmlessKeeps(s: State, t': Table)
    requires Inv(s) && Harmless(s, t')
    ensures Inv(s.(t := t'))
  {
    hide SchedInv, Locks, Running, Granting, Queues, Ordered, Counts;
  }

  /** A process outside all locks gives up its CPU. */
  lemma {:induction false} SwitchHarmless(s: State, c: nat, newState: ProcState, panicking: bool)
    requires Inv(s) && c < NCPU && s.pc[s.t.cpu[c]].Free?
             && (newState == RUNNABLE || (newState == ZOMBIE && s.t.cpu[c] >= NCPU))
    ensures var o := Switched(s.t, c, newState, panicking); o.Done? && Inv(s.(t := o.value))
  {
    hide Locks, Granting, Queues, Ordered, Counts, Switched;
    SwitchKeeps(s.t, c, newState, panicking);
    var t' := Switched(s.t, c, newState, panicking).value;
    if s.t.killed[s.t.cpu[c]] && newState != ZOMBIE {
      StayOn(s.t, c, newState, panicking);
    } else {
      SwitchEffect(s.t, c, newState, panicking);
      assert Harmless(s, t');
      HarmlessKeeps(s, t');
    }
  }

  lemma {:induction false} StayOn(t: Table, c: nat, newState: ProcState, panicking: bool)
    requires SchedInv(t) && c < NCPU && t.killed[t.cpu[c]] && newState != ZOMBIE
    ensures Switched(t, c, newState, panicking) == Done(t)
  {
  }

  /** The last stage of going to sleep; a killed process does not sleep. */
  lemma {:induction false} SleepKeeps(s: State, c: nat, i: nat, alertable: bool, panicking: bool)
    requires Inv(s) && c < NCPU && s.pc[s.t.cpu[c]] == Handing(i, alertable)
    ensures var p, o := s.t.cpu[c], Switched(s.t, c, if alertable then SLEEPING else DEEPSLEEPING, panicking);
            o.Done? && Inv(s.(pc := s.pc[p := Waiting(i, alertable)], lock := Nobody,
                refused := s.refused[p := s.t.killed[p]], t := o.value))
  {
    hide Switched, Locks, Queues, Wakeups, Ordered, Counts, CpusOk, IdleOk, QueueOk;
    var p, newState := s.t.cpu[c], if alertable then SLEEPING else DEEPSLEEPING;
    assert p >= NCPU && i < |s.sems|;
    SleepTable(s.t, c, newState, panicking);
    SleepLocks(s, p, i, alertable);
    SleepPieces(s, p, i, alertable, Switched(s.t, c, newState, panicking).value.state);
    hide SchedInv, Running;
  }

  lemma {:induction false} SleepTable(t: Table, c: nat, newState: ProcState, panicking: bool)
    requires SchedInv(t) && c < NCPU <= t.cpu[c] && Asleep(newState)
    ensures var o := Switched(t, c, newState, panicking);
            && o.Done? && SchedInv(o.value) && |o.value.state| == |t.state|
            && (forall q: nat | q < |t.state| && q != t.cpu[c] ::
                  o.value.state[q] == t.state[q] || (t.state[q] == RUNNABLE && o.value.state[q] == RUNNING))
            && (o.value.state[t.cpu[c]] == RUNNING || Asleep(o.value.state[t.cpu[c]]))
  {
    hide Switched, Distinct, QueueOk, IdleOk;
    SwitchKeeps(t, c, newState, panicking);
    if t.killed[t.cpu[c]] { StayOn(t, c, newState, panicking); } else { SwitchEffect(t, c, newState, panicking); }
  }

  lemma {:induction false} SleepLocks(s: State, p: nat, i: nat, alertable: bool)
    requires Inv(s) && p < |s.pc| && s.pc[p] == Handing(i, alertable)
    ensures Locks(s.pc[p := Waiting(i, alertable)], s.sems, Nobody)
            && Queues(s.pc[p := Waiting(i, alertable)], s.up, s.sems)
  {
    hide SchedInv, Running, Granting, Wakeups, Ordered, Counts;
    var pc' := s.pc[p := Waiting(i, alertable)];
    forall j: nat, q: nat | j < |s.sems| && q < |pc'| ensures HoldsSem(pc'[q], j) <==> s.sems[j].holder == By(q) {
      assert HoldsSem(s.pc[q], j) <==> s.sems[j].holder == By(q);
    }
    forall j: nat, q: nat | j < |s.sems| && q < |pc'| ensures q in s.sems[j].list <==> Enqueued(pc'[q], j) && !s.up[q] {
      assert q in s.sems[j].list <==> Enqueued(s.pc[q], j) && !s.up[q];
    }
    forall q: nat | q < |pc'| ensures !HoldsSched(pc'[q]) {
      assert HoldsSched(s.pc[q]) <==> s.lock == By(q);
      assert HoldsSched(s.pc[p]) <==> s.lock == By(p);
    }
  }

  lemma {:induction false} SleepPieces(s: State, p: nat, i: nat, alertable: bool, state': seq<ProcState>)
    requires Inv(s) && p < |s.pc| == |state'| && s.pc[p] == Handing(i, alertable)
    requires forall q: nat | q < |s.pc| && q != p ::
             state'[q] == s.t.state[q] || (s.t.state[q] == RUNNABLE && state'[q] == RUNNING)
    requires state'[p] == RUNNING || Asleep(state'[p])
    ensures Running(state', s.pc[p := Waiting(i, alertable)])
            && Wakeups(state', s.pc[p := Waiting(i, alertable)], s.up, s.sems)
  {
    hide SchedInv, Locks, Queues, Ordered, Counts;
    var pc' := s.pc[p := Waiting(i, alertable)];
    forall q: nat | q < |pc'| && s.up[q] && (pc'[q].Handing? || (pc'[q].Waiting? && Asleep(state'[q])))
      ensures Granting(pc', s.sems, pc'[q].s, q)
    {
      assert Granting(s.pc, s.sems, s.pc[q].s, q);
    }
  }

  /** Back from `sched`: a process that was not granted leaves the list, and the assertion there holds. */
  lemma {:induction false} RecheckKeeps(s: State, p: nat, i: nat)
    requires Inv(s) && p < |s.pc| && i < |s.sems| && s.t.state[p] == RUNNING && s.pc[p].Waiting? && s.pc[p].s == i
    ensures var r := Rechecked(s, p, i); !r.Fault? && (r.Step? ==> Inv(r.s))
  {
    var m := s.sems[i];
    assert Counts(m) && Ordered(m.list, s.ticket, s.clock);
    assert p in m.list <==> !s.up[p];
    if m.holder == Nobody {
      if s.up[p] {
        assert s.sems == s.sems[i := m];
        PutKeeps(s, p, Free, i, m);
      } else {
        assert |m.list| > 0;
        TicketsDistinct(m.list, s.ticket, s.clock);
        DetachedDistinct(m.list, p);
        DetachedOrdered(m.list, s.ticket, s.clock, p);
        PutKeeps(s, p, Free, i, m.(val := m.val + 1, list := Detached(m.list, p)));
      }
    }
  }

  lemma {:induction false} TicketsDistinct(list: seq<nat>, ticket: seq<nat>, clock: nat)
    requires Ordered(list, ticket, clock)
    ensures Distinct(list)
  {
  }

  lemma {:induction false} DetachedOrdered(list: seq<nat>, ticket: seq<nat>, clock: nat, p: nat)
    requires Ordered(list, ticket, clock)
    ensures Ordered(Detached(list, p), ticket, clock)
  {
    if list != [] {
      var rest := list[1..];
      OrderedTail(list, ticket, clock);
      DetachedOrdered(rest, ticket, clock, p);
      var d := Detached(rest, p);
      forall j: nat | j < |d| ensures d[j] < |ticket| && ticket[d[j]] < ticket[list[0]] {
        assert d[j] in rest;
        var k: nat :| k < |rest| && rest[k] == d[j];
        assert list[k + 1] == d[j];
      }
      OrderedCons(list[0], d, ticket, clock);
    }
  }

  lemma {:induction false} OrderedTail(list: seq<nat>, ticket: seq<nat>, clock: nat)
    requires list != [] && Ordered(list, ticket, clock)
    ensures Ordered(list[1..], ticket, clock)
  {
  }

  lemma {:induction false} OrderedCons(x: nat, d: seq<nat>, ticket: seq<nat>, clock: nat)
    requires Ordered(d, ticket, clock) && x < |ticket| && ticket[x] < clock
             && forall j: nat | j < |d| :: d[j] < |ticket| && ticket[d[j]] < ticket[x]
    ensures Ordered([x] + d, ticket, clock)
  {
  }

  lemma {:induction false} OutsideKeeps(s: State, a: Action, p: nat)
    requires Inv(s) && a.c < NCPU && p == s.t.cpu[a.c] && s.pc[p].Free? && s.t.state[p] == RUNNING
    ensures var r := OutsideStep(s, a, p); !r.Fault? && (r.Step? ==> Inv(r.s))
  {
    hide Switched, Activated, SchedInv, Locks, Running, Queues, Wakeups, Ordered, Counts;
    Current(s, a.c);
    match a
    case Lock(_, i) =>
      if i < |s.sems| && s.sems[i].holder == Nobody { LockKeeps(s, p, i); }
    case Yield(c, panicking) => SwitchHarmless(s, c, RUNNABLE, panicking);
    case Exit(c, panicking) => if p >= NCPU { SwitchHarmless(s, c, ZOMBIE, panicking); }
    case Activate(_, q, onalert) =>
      if q < |s.pc| && Wakes(s.t, q, onalert) { ActivateHarmless(s, q, onalert); }
    case Kill(_, q) => if NCPU <= q < |s.pc| { KillKeeps(s, q); }
    case _ =>
  }

  lemma {:induction false} LockKeeps(s: State, p: nat, i: nat)
    requires Inv(s) && p < |s.pc| && s.pc[p].Free? && s.t.state[p] == RUNNING && i < |s.sems|
             && s.sems[i].holder == Nobody
    ensures Inv(Put(s, p, Holding(i), i, s.sems[i].(holder := By(p))))
  {
    NotQueued(s, p, i);
    assert Counts(s.sems[i]) && Ordered(s.sems[i].list, s.ticket, s.clock);
    PutKeeps(s, p, Holding(i), i, s.sems[i].(holder := By(p)));
  }

  lemma {:induction false} KillKeeps(s: State, q: nat)
    requires Inv(s) && NCPU <= q < |s.pc|
    ensures |s.t.killed| == |s.pc| && Inv(s.(t := s.t.(killed := s.t.killed[q := true])))
  {
    HarmlessKeeps(s, s.t.(killed := s.t.killed[q := true]));
  }

  lemma {:induction false} ActivateHarmless(s: State, q: nat, onalert: bool)
    requires Inv(s) && q < |s.pc| && Wakes(s.t, q, onalert)
    ensures Inv(s.(t := Activated(s.t, q)))
  {
    ActivateKeeps(s.t, q, onalert);
    assert Harmless(s, Activated(s.t, q)) by {
      hide SchedInv;
    }
    HarmlessKeeps(s, Activated(s.t, q));
  }

  // ----- the main results -----

  /** No step fails an assertion, and every step keeps the invariant. */
  lemma {:induction false} NextKeeps(s: State, a: Action)
    requires Inv(s)
    ensures var r := Next(s, a); !r.Fault? && (r.Step? ==> Inv(r.s))
  {
    if a.c < NCPU {
      Current(s, a.c);
      var p := s.t.cpu[a.c];
      match s.pc[p]
      case Free => OutsideKeeps(s, a, p);
      case Holding(i) =>
        SemShape(s, i);
        HoldingKeeps(s, a, p, i);
      case _ => StageKeeps(s, a, p);
      hide Inv, OutsideStep, LockedStep, StageStep;
    }
  }

  lemma {:induction false} StageShape(s: State, p: nat)
    requires Inv(s) && p < |s.pc| && !s.pc[p].Free?
    ensures Shape(s) && s.pc[p].s < |s.sems| && (s.pc[p].Posting? ==> s.pc[p].q < |s.t.state|)
  {
    hide SchedInv, Locks, Running, Queues, Wakeups;
  }

  lemma {:induction false} StageKeeps(s: State, a: Action, p: nat)
    requires Inv(s) && a.c < NCPU && p == s.t.cpu[a.c] && s.t.state[p] == RUNNING && !s.pc[p].Free? && !s.pc[p].Holding?
    ensures var r := StageStep(s, a, p); !r.Fault? && (r.Step? ==> Inv(r.s))
  {
    hide Inv, Shape, Switched, Activated, Wakes, Rechecked;
    Current(s, a.c);
    StageShape(s, p);
    match s.pc[p]
    case Posting(i, q) => if s.lock == Nobody { WakeKeeps(s, p, i, q); }
    case Parking(i, alertable) => if s.lock == Nobody { TakeSchedKeeps(s, p, i, alertable); }
    case BothLocks(i, alertable) => DropSemKeeps(s, p, i, alertable);
    case Handing(i, alertable) => if a.Sleep? { SleepKeeps(s, a.c, i, alertable, a.panicking); }
    case Waiting(i, _) => RecheckKeeps(s, p, i);
  }

  lemma {:induction false} HoldingKeeps(s: State, a: Action, p: nat, i: nat)
    requires Inv(s) && p < |s.pc| && i < |s.sems| && s.t.state[p] == RUNNING && s.pc[p] == Holding(i)
    requires forall j: nat | j < |s.sems[i].list| :: s.sems[i].list[j] < |s.pc|
    ensures var r := LockedStep(s, a, p, i); !r.Fault? && (r.Step? ==> Inv(r.s))
  {
    if a.Unlock? || a.Get? || a.GetAll? || (a.Post? && s.sems[i].val >= 0) || (a.Wait? && s.sems[i].val > 0) {
      LockedKeeps(s, a, p, i);
    } else if a.Post? {
      PostKeeps(s, p, i);
    } else if a.Wait? && p >= NCPU {
      WaitKeeps(s, p, i, a.alertable);
    }
  }

  /** Nobody sleeps on a semaphore it has been granted once the poster has released that semaphore's lock. */
  lemma {:induction false} NoLostWakeup(s: State, q: nat, i: nat)
    requires Inv(s) && q < |s.pc| && i < |s.sems| && s.pc[q].Waiting? && s.pc[q].s == i && s.up[q]
    ensures s.sems[i].holder == Nobody ==> Scheduler.Queued(s.t.state[q])
    ensures Asleep(s.t.state[q]) ==> Granting(s.pc, s.sems, i, q)
  {
    hide SchedInv, Locks, Queues, Ordered, Counts;
  }

  /** Whose turn it is: q waits in the list, and everybody else there came later. */
  ghost predicate Oldest(list: seq<nat>, ticket: seq<nat>, q: nat) {
    && q in list && q < |ticket|
    && (forall x: nat | x in list && x != q :: x < |ticket| && ticket[q] < ticket[x])
  }

  /** A post with sleepers grants the one that arrived before all others, and the others keep their order. */
  lemma {:induction false} OldestFirst(s: State, c: nat)
    requires Inv(s) && c < NCPU && s.pc[s.t.cpu[c]].Holding? && s.sems[s.pc[s.t.cpu[c]].s].val < 0
    ensures var p := s.t.cpu[c];
            var i := s.pc[p].s;
            var r := Next(s, Post(c));
            && r.Step? && r.s.pc[p].Posting? && r.s.pc[p].s == i && r.s.ticket == s.ticket
            && Oldest(s.sems[i].list, s.ticket, r.s.pc[p].q) && r.s.up == s.up[r.s.pc[p].q := true]
            && s.sems[i].list == r.s.sems[i].list + [r.s.pc[p].q]
            && (forall j: nat | j < |s.sems| && j != i :: r.s.sems[j].list == s.sems[j].list)
  {
    hide Locks, Queues, Running, Wakeups;
    var i := s.pc[s.t.cpu[c]].s;
    assert Counts(s.sems[i]) && Ordered(s.sems[i].list, s.ticket, s.clock);
    var list := s.sems[i].list;
    forall x: nat | x in list && x != list[|list| - 1]
      ensures x < |s.ticket| && s.ticket[list[|list| - 1]] < s.ticket[x]
    {
      var j: nat :| j < |list| && list[j] == x;
    }
  }

  /** A wait that queues gets a ticket later than every sleeper's, whose tickets stay. */
  lemma {:induction false} LaterTicket(s: State, c: nat, alertable: bool)
    requires Inv(s) && c < NCPU && NCPU <= s.t.cpu[c] && s.pc[s.t.cpu[c]].Holding?
             && s.sems[s.pc[s.t.cpu[c]].s].val <= 0
    ensures var p := s.t.cpu[c];
            var i := s.pc[p].s;
            var r := Next(s, Wait(c, alertable));
            && r.Step? && p !in s.sems[i].list && p in r.s.sems[i].list && !r.s.up[p] && p < |r.s.ticket|
            && (forall x: nat | x in s.sems[i].list ::
                  x in r.s.sems[i].list && x < |s.ticket| && r.s.ticket[x] == s.ticket[x] < r.s.ticket[p])
  {
    hide Locks, Running, Wakeups;
    var p := s.t.cpu[c];
    var i := s.pc[p].s;
    assert Counts(s.sems[i]) && Ordered(s.sems[i].list, s.ticket, s.clock);
    QueueAt(s.pc, s.up, s.sems, p, i);
    var list := s.sems[i].list;
    forall x: nat | x in list ensures x < |s.ticket| && s.ticket[x] < s.clock {
      var j: nat :| j < |list| && list[j] == x;
    }
  }

  // ----- when an unalertable wait fails -----

  /**
    Whoever is being granted is still inside `_wait_sem`; who waits unalertably leaves its sleep only
    granted, unless `sched` refused to let it sleep, and then it does not sleep at all.
   */
  ghost predicate DeepPc(pc: seq<Pc>, up: seq<bool>, refused: seq<bool>, state: seq<ProcState>) {
    && |pc| == |up| == |refused| == |state|
    && (forall p: nat | p < |pc| && pc[p].Posting? :: pc[p].q < |pc| && up[pc[p].q] && Enqueued(pc[pc[p].q], pc[p].s))
    && (forall p: nat | p < |pc| && pc[p].Waiting? && !pc[p].alertable ::
          up[p] || refused[p] || state[p] == DEEPSLEEPING)
    && (forall p: nat | p < |pc| && pc[p].Waiting? && refused[p] :: !Asleep(state[p]))
  }

  ghost predicate Deep(s: State) {
    DeepPc(s.pc, s.up, s.refused, s.t.state)
  }

  lemma {:induction false} DeepTable(s: State, t': Table)
    requires Deep(s) && |t'.state| == |s.pc|
    requires forall p: nat | p < |s.pc| && s.t.state[p] == DEEPSLEEPING :: t'.state[p] == DEEPSLEEPING
    requires forall p: nat | p < |s.pc| && Asleep(t'.state[p]) && s.pc[p].Waiting? :: Asleep(s.t.state[p])
    ensures Deep(s.(t := t'))
  {
  }

  /** Process p moves to x. */
  lemma {:induction false} DeepMove(s: State, p: nat, x: Pc)
    requires Deep(s) && p < |s.pc|
    requires forall r: nat | r < |s.pc| && s.pc[r].Posting? && s.pc[r].q == p && r != p :: Enqueued(x, s.pc[r].s)
    requires x.Posting? ==> x.q < |s.pc| && x.q != p && s.up[x.q] && Enqueued(s.pc[x.q], x.s)
    requires x.Waiting? && !x.alertable ==> s.up[p] || s.refused[p] || s.t.state[p] == DEEPSLEEPING
    requires x.Waiting? && s.refused[p] ==> !Asleep(s.t.state[p])
    ensures Deep(s.(pc := s.pc[p := x]))
  {
  }

  lemma {:induction false} DeepSwitch(s: State, c: nat, newState: ProcState, panicking: bool)
    requires Shape(s) && Deep(s) && c < NCPU && newState != RUNNING && (s.t.cpu[c] == c ==> newState == RUNNABLE)
             && !s.pc[s.t.cpu[c]].Waiting?
    ensures var o := Switched(s.t, c, newState, panicking); o.Done? && Deep(s.(t := o.value))
  {
    hide Switched, DeepPc;
    SwitchKeeps(s.t, c, newState, panicking);
    if s.t.killed[s.t.cpu[c]] && newState != ZOMBIE {
      StayOn(s.t, c, newState, panicking);
    } else {
      SwitchEffect(s.t, c, newState, panicking);
      DeepTable(s, Switched(s.t, c, newState, panicking).value);
    }
  }

  lemma {:induction false} DeepOutside(s: State, a: Action, p: nat)
    requires Shape(s) && Deep(s) && a.c < NCPU && p == s.t.cpu[a.c] && s.pc[p].Free?
    ensures var r := OutsideStep(s, a, p); r.Step? ==> Deep(r.s)
  {
    hide Switched, QueueOk, IdleOk, CpusOk;
    var r := OutsideStep(s, a, p);
    match a
    case Lock(_, i) => DeepMove(s, p, Holding(i));
    case Yield(c, panicking) => DeepSwitch(s, c, RUNNABLE, panicking);
    case Exit(c, panicking) => if p >= NCPU { DeepSwitch(s, c, ZOMBIE, panicking); }
    case Activate(_, q, onalert) => if r.Step? { DeepTable(s, r.s.t); }
    case Kill(_, q) => if r.Step? { DeepTable(s, r.s.t); }
    case _ =>
  }

  lemma {:induction false} DeepLocked(s: State, a: Action, p: nat, i: nat)
    requires Deep(s) && p < |s.pc| == |s.ticket| && i < |s.sems| && s.pc[p] == Holding(i)
    requires forall j: nat | j < |s.sems[i].list| :: s.sems[i].list[j] < |s.pc| && Enqueued(s.pc[s.sems[i].list[j]], i)
    ensures var r := LockedStep(s, a, p, i); r.Step? ==> Deep(r.s)
  {
    var r := LockedStep(s, a, p, i);
    if a.Post? && r.Step? && s.sems[i].val < 0 {
      var q := s.sems[i].list[|s.sems[i].list| - 1];
      var u := s.(up := s.up[q := true]);
      assert Deep(u);
      DeepMove(u, p, Posting(i, q));
    }
  }

  lemma {:induction false} QueuedHere(s: State, i: nat)
    requires Inv(s) && i < |s.sems|
    ensures forall j: nat | j < |s.sems[i].list| :: s.sems[i].list[j] < |s.pc| && Enqueued(s.pc[s.sems[i].list[j]], i)
  {
    hide SchedInv, Locks, Wakeups, Ordered, Running, Counts;
    forall j: nat | j < |s.sems[i].list| ensures s.sems[i].list[j] < |s.pc| && Enqueued(s.pc[s.sems[i].list[j]], i) {
      assert s.sems[i].list[j] in s.sems[i].list;
    }
  }

  lemma {:induction false} DeepRecheck(s: State, p: nat, i: nat)
    requires Inv(s) && Deep(s) && p < |s.pc| && i < |s.sems| && s.pc[p].Waiting? && s.pc[p].s == i
    ensures var r := Rechecked(s, p, i); r.Step? ==> Deep(r.s)
  {
    hide SchedInv, Queues, Wakeups, Ordered, Running, Counts, Detached;
    if s.sems[i].holder == Nobody {
      forall x: nat | x < |s.pc| && s.pc[x].Posting? ensures s.pc[x].s != i {
        assert HoldsSem(s.pc[x], i) <==> s.sems[i].holder == By(x);
      }
      hide Locks;
      DeepMove(s, p, Free);
    }
  }

  lemma {:induction false} DeepWake(s: State, p: nat, i: nat, q: nat)
    requires Shape(s) && Deep(s) && p < |s.pc| && s.pc[p] == Posting(i, q)
    ensures var t' := if Wakes(s.t, q, false) then Activated(s.t, q) else s.t;
            Deep(s.(pc := s.pc[p := Holding(i)], t := t'))
  {
    hide SchedInv;
    assert p != q;
    DeepMove(s, p, Holding(i));
  }

  lemma {:induction false} DeepRecord(s: State, p: nat, b: bool)
    requires Deep(s) && p < |s.pc| && !s.pc[p].Waiting?
    ensures p < |s.refused| && Deep(s.(refused := s.refused[p := b]))
  {
  }

  lemma {:induction false} DeepSleep(s: State, c: nat, i: nat, alertable: bool, panicking: bool)
    requires Shape(s) && Deep(s) && c < NCPU <= s.t.cpu[c] && s.pc[s.t.cpu[c]] == Handing(i, alertable)
    ensures var p, o := s.t.cpu[c], Switched(s.t, c, if alertable then SLEEPING else DEEPSLEEPING, panicking);
            o.Done? && Deep(s.(pc := s.pc[p := Waiting(i, alertable)], lock := Nobody,
                refused := s.refused[p := s.t.killed[p]], t := o.value))
  {
    var p, newState := s.t.cpu[c], if alertable then SLEEPING else DEEPSLEEPING;
    DeepSwitch(s, c, newState, panicking);
    SleepTable(s.t, c, newState, panicking);
    assert s.t.state[p] == RUNNING;
    DeepTargets(s, p);
    if s.t.killed[p] { StayOn(s.t, c, newState, panicking); } else { SwitchEffect(s.t, c, newState, panicking); }
    hide Switched, SchedInv, DeepPc;
    var u := s.(t := Switched(s.t, c, newState, panicking).value);
    DeepRecord(u, p, s.t.killed[p]);
    DeepMove(u.(refused := u.refused[p := s.t.killed[p]]), p, Waiting(i, alertable));
  }

  /** Whoever posts to p does so on the semaphore that p waits for. */
  lemma {:induction false} DeepTargets(s: State, p: nat)
    requires Deep(s) && p < |s.pc|
    ensures forall r: nat | r < |s.pc| && s.pc[r].Posting? && s.pc[r].q == p :: Enqueued(s.pc[p], s.pc[r].s)
  {
  }

  lemma {:induction false} DeepHolding(s: State, a: Action, p: nat)
    requires Inv(s) && Deep(s) && a.c < NCPU && p == s.t.cpu[a.c] && s.pc[p].Holding?
    ensures var r := Next(s, a); r.Step? ==> Deep(r.s)
  {
    Current(s, a.c);
    assert s.pc[p].s < |s.sems| && |s.pc| == |s.ticket|;
    hide Inv, Shape, LockedStep, DeepPc, Enqueued;
    QueuedHere(s, s.pc[p].s);
    DeepLocked(s, a, p, s.pc[p].s);
  }

  lemma {:induction false} DeepPosting(s: State, a: Action, p: nat)
    requires Inv(s) && Deep(s) && a.c < NCPU && p == s.t.cpu[a.c] && s.pc[p].Posting?
    ensures var r := Next(s, a); r.Step? ==> Deep(r.s)
  {
    Current(s, a.c);
    hide Inv, Shape, Activated, Wakes, DeepPc, OutsideStep, LockedStep, Rechecked, Switched;
    DeepWake(s, p, s.pc[p].s, s.pc[p].q);
  }

  lemma {:induction false} DeepWaiting(s: State, a: Action, p: nat)
    requires Inv(s) && Deep(s) && a.c < NCPU && p == s.t.cpu[a.c] && s.pc[p].Waiting?
    ensures var r := Next(s, a); r.Step? ==> Deep(r.s)
  {
    Current(s, a.c);
    assert s.pc[p].s < |s.sems|;
    hide Inv, Shape, Activated, Wakes, DeepPc, OutsideStep, LockedStep, Rechecked, Switched;
    DeepRecheck(s, p, s.pc[p].s);
  }

  /** The stages of going to sleep. */
  lemma {:induction false} DeepGoing(s: State, a: Action, p: nat)
    requires Inv(s) && Deep(s) && a.c < NCPU && p == s.t.cpu[a.c] && (s.pc[p].Parking? || s.pc[p].BothLocks?)
    ensures var r := Next(s, a); r.Step? ==> Deep(r.s)
  {
    hide Inv, Shape, DeepPc;
    Current(s, a.c);
    DeepTargets(s, p);
    StageShape(s, p);
    match s.pc[p]
    case Parking(i, alertable) => DeepMove(s, p, BothLocks(i, alertable));
    case BothLocks(i, alertable) => DeepMove(s, p, Handing(i, alertable));
  }

  lemma {:induction false} DeepHanding(s: State, a: Action, p: nat)
    requires Inv(s) && Deep(s) && a.c < NCPU && p == s.t.cpu[a.c] && s.pc[p].Handing?
    ensures var r := Next(s, a); r.Step? ==> Deep(r.s)
  {
    Current(s, a.c);
    assert p >= NCPU;
    hide SchedInv, Locks, Running, Wakeups, Queues, Ordered, Counts, Switched, DeepPc;
    if a.Sleep? { DeepSleep(s, a.c, s.pc[p].s, s.pc[p].alertable, a.panicking); }
  }

  lemma {:induction false} DeepKeeps(s: State, a: Action)
    requires Inv(s) && Deep(s)
    ensures var r := Next(s, a); r.Step? ==> Deep(r.s)
  {
    if a.c < NCPU {
      Current(s, a.c);
      var p := s.t.cpu[a.c];
      match s.pc[p]
      case Free => DeepOutside(s, a, p);
      case Holding(_) => DeepHolding(s, a, p);
      case Posting(_, _) => DeepPosting(s, a, p);
      case Waiting(_, _) => DeepWaiting(s, a, p);
      case Parking(_, _) => DeepGoing(s, a, p);
      case BothLocks(_, _) => DeepGoing(s, a, p);
      case Handing(_, _) => DeepHanding(s, a, p);
    }
  }

  /** A run of any schedule; an action that is blocked leaves the state as it is. */
  ghost function Run(s: State, acts: seq<Action>): Result
    decreases |acts|
  {
    if acts == [] then Step(s)
    else if !Shape(s) then Fault
    else match Next(s, acts[0])
      case Step(u) => Run(u, acts[1..])
      case Blocked => Run(s, acts[1..])
      case Fault => Fault
  }

  /**
    Under every interleaving of the four CPUs no assertion of `sem.c` or `sched.c` fails and the
    invariant holds throughout.
   */
  lemma {:induction false} RunKeeps(s: State, acts: seq<Action>)
    requires Inv(s) && Deep(s)
    ensures Run(s, acts).Step? && Inv(Run(s, acts).s) && Deep(Run(s, acts).s)
    decreases |acts|
  {
    hide Next;
    if acts != [] {
      NextKeeps(s, acts[0]);
      DeepKeeps(s, acts[0]);
      hide Inv, Deep;
      match Next(s, acts[0])
      case Step(u) => RunKeeps(u, acts[1..]);
      case Blocked => RunKeeps(s, acts[1..]);
    }
  }

  // ----- what is available is given, and nobody is stuck -----

  /** What a process inside a lock does next; each of these steps brings it closer to the end. */
  function Onward(pc: Pc, c: nat): Action {
    match pc
    case Posting(_, _) => Action.Wake(c)
    case Parking(_, _) => TakeSched(c)
    case BothLocks(_, _) => DropSem(c)
    case Handing(_, _) => Sleep(c, false)
    case _ => Unlock(c)
  }

  function Weight(pc: Pc): nat {
    match pc
    case Free => 0
    case Waiting(_, _) => 0
    case Parking(_, _) => 3
    case Posting(_, _) => 2
    case BothLocks(_, _) => 2
    case _ => 1
  }

  function Weights(pc: seq<Pc>): nat {
    if pc == [] then 0 else Weight(pc[0]) + Weights(pc[1..])
  }

  lemma {:induction false} WeightsPut(pc: seq<Pc>, p: nat, x: Pc)
    requires p < |pc|
    ensures Weights(pc[p := x]) == Weights(pc) - Weight(pc[p]) + Weight(x)
  {
    if p == 0 {
      assert pc[p := x][1..] == pc[1..];
    } else {
      assert pc[p := x][1..] == pc[1..][p - 1 := x];
      WeightsPut(pc[1..], p - 1, x);
    }
  }

  lemma {:induction false} HolderMoves(s: State, c: nat)
    requires Inv(s) && Deep(s) && c < NCPU && Weight(s.pc[s.t.cpu[c]]) > 0
             && (s.lock == Nobody || s.lock == By(s.t.cpu[c]))
    ensures var p := s.t.cpu[c];
            var r := Next(s, Onward(s.pc[p], c));
            r.Step? && Inv(r.s) && Deep(r.s) && Weights(r.s.pc) < Weights(s.pc)
  {
    var p := s.t.cpu[c];
    var a := Onward(s.pc[p], c);
    NextKeeps(s, a);
    DeepKeeps(s, a);
    HolderTakes(s, c);
    var u := Next(s, a).s;
    assert u.pc == s.pc[p := u.pc[p]];
    WeightsPut(s.pc, p, u.pc[p]);
  }

  lemma {:induction false} HolderTakes(s: State, c: nat)
    requires Inv(s) && c < NCPU && Weight(s.pc[s.t.cpu[c]]) > 0 && (s.lock == Nobody || s.lock == By(s.t.cpu[c]))
    requires !Next(s, Onward(s.pc[s.t.cpu[c]], c)).Fault?
    ensures var p := s.t.cpu[c];
            var r := Next(s, Onward(s.pc[p], c));
            r.Step? && p < |r.s.pc| && Weight(r.s.pc[p]) < Weight(s.pc[p]) && r.s.pc == s.pc[p := r.s.pc[p]]
  {
    hide IdleOk, QueueOk, Running, Counts, Queues, Wakeups, Ordered, Switched, Activated;
  }

  /** Some process is inside a lock: then one of those can go on. */
  lemma {:induction false} SomeHolder(s: State) returns (c: nat)
    requires Inv(s) && exists p: nat :: p < |s.pc| && Weight(s.pc[p]) > 0
    ensures c < NCPU && Weight(s.pc[s.t.cpu[c]]) > 0 && (s.lock == Nobody || s.lock == By(s.t.cpu[c]))
  {
    hide IdleOk, QueueOk, Counts, Queues, Wakeups, Ordered;
    var p: nat :| p < |s.pc| && Weight(s.pc[p]) > 0;
    if s.lock.By? { p := s.lock.p; }
    assert s.t.state[p] == RUNNING;
    c :| c < NCPU && s.t.cpu[c] == p;
  }

  /** From every reachable state those inside locks can go on until all are free. */
  lemma {:induction false} LocksFreed(s: State) returns (acts: seq<Action>)
    requires Inv(s) && Deep(s)
    ensures Run(s, acts).Step?
    ensures var u := Run(s, acts).s;
            && Inv(u) && Deep(u) && u.lock == Nobody && (forall i: nat | i < |u.sems| :: u.sems[i].holder == Nobody)
            && (forall p: nat | p < |u.pc| :: u.pc[p].Free? || u.pc[p].Waiting?)
    decreases Weights(s.pc)
  {
    hide CpusOk, IdleOk, QueueOk, Locks, Running, Counts, Queues, Wakeups, Ordered, Next, Weights, DeepPc, Onward,
        Granting;
    if exists p: nat :: p < |s.pc| && Weight(s.pc[p]) > 0 {
      var c := SomeHolder(s);
      HolderMoves(s, c);
      var a := Onward(s.pc[s.t.cpu[c]], c);
      var rest := LocksFreed(Next(s, a).s);
      acts := [a] + rest;
      assert acts[1..] == rest;
    } else {
      acts := [];
      NoHolders(s);
    }
  }

  lemma {:induction false} NoHolders(s: State)
    requires Inv(s) && forall p: nat | p < |s.pc| :: Weight(s.pc[p]) == 0
    ensures s.lock == Nobody && (forall i: nat | i < |s.sems| :: s.sems[i].holder == Nobody)
            && (forall p: nat | p < |s.pc| :: s.pc[p].Free? || s.pc[p].Waiting?)
  {
    hide SchedInv, Running, Counts, Queues, Wakeups, Ordered;
    forall p: nat | p < |s.pc| ensures s.pc[p].Free? || s.pc[p].Waiting? { assert Weight(s.pc[p]) == 0; }
  }

  /** And then every CPU's process can go on: it returns from its wait, or locks whatever it likes. */
  lemma {:induction false} EverybodyMoves(s: State, c: nat, i: nat)
    requires Inv(s) && Deep(s) && c < NCPU && i < |s.sems|
             && (forall j: nat | j < |s.sems| :: s.sems[j].holder == Nobody)
             && (s.pc[s.t.cpu[c]].Free? || s.pc[s.t.cpu[c]].Waiting?)
    ensures if s.pc[s.t.cpu[c]].Free? then Next(s, Lock(c, i)).Step? else Next(s, Recheck(c)).Step?
  {
    if s.pc[s.t.cpu[c]].Waiting? { NextKeeps(s, Recheck(c)); }
    hide Running, Counts, Queues, Wakeups, Ordered, Locks;
  }

  /** Units are neither made nor lost, and none is left while somebody sleeps. */
  lemma {:induction false} NoUnitIdle(s: State, i: nat)
    requires Inv(s) && i < |s.sems|
    ensures var m := s.sems[i];
            m.grants <= m.initial + m.posts && (m.list != [] ==> m.grants == m.initial + m.posts)
  {
    hide SchedInv, Locks, Running, Queues, Wakeups, Ordered;
    assert Counts(s.sems[i]);
  }

  /**
    What the holder of a semaphore gets, in units: one if one is left, all that are left, one more for
    the others; and a wait that finds none queues.
   */
  lemma {:induction false} HolderServed(s: State, c: nat, alertable: bool)
    requires Inv(s) && c < NCPU && s.pc[s.t.cpu[c]].Holding?
    ensures var p := s.t.cpu[c];
            var i := s.pc[p].s;
            var m := s.sems[i];
            var left := m.initial + m.posts - m.grants;
            && Gives(Next(s, Get(c)), i, m.posts, m.grants + Min(left, 1), m.list)
            && Gives(Next(s, GetAll(c)), i, m.posts, m.grants + left, m.list)
            && Gives(Next(s, Post(c)), i, m.posts + 1, m.grants + Min(|m.list|, 1),
                  m.list[..|m.list| - Min(|m.list|, 1)])
            && (p >= NCPU ==>
                  Gives(Next(s, Wait(c, alertable)), i, m.posts, m.grants + Min(left, 1),
                      if left > 0 then m.list else [p] + m.list))
  {
    hide Locks, Running, Queues, Wakeups, Ordered;
    assert Counts(s.sems[s.pc[s.t.cpu[c]].s]);
  }

  predicate Gives(r: Result, i: nat, posts: nat, grants: int, list: seq<nat>) {
    r.Step? && i < |r.s.sems| && r.s.sems[i].posts == posts && r.s.sems[i].grants == grants && r.s.sems[i].list == list
  }

  // ----- nobody overtakes -----

  /** Over a step, x begins no wait, and it is granted only as the oldest of a list. */
  ghost predicate Stays(s: State, u: State, x: nat)
    requires x < |s.pc| == |s.up| == |s.ticket| && |u.pc| == |u.up| == |u.ticket| == |s.pc| && |u.sems| == |s.sems|
  {
    && u.ticket[x] == s.ticket[x]
    && (forall j: nat | Enqueued(u.pc[x], j) :: Enqueued(s.pc[x], j))
    && (forall j: nat | j < |s.sems| && x in u.sems[j].list :: x in s.sems[j].list)
    && (u.up[x] && !s.up[x] ==> exists j: nat :: j < |s.sems| && Oldest(s.sems[j].list, s.ticket, x))
  }

  /** Each step gives x the next ticket or leaves it the wait that it has. */
  ghost predicate Follows(s: State, u: State, x: nat) {
    && |u.pc| == |u.up| == |u.ticket| == |s.pc| && |u.sems| == |s.sems| && u.clock >= s.clock
    && x < |s.pc| == |s.up| == |s.ticket|
    && (Stays(s, u, x) || u.ticket[x] == s.clock < u.clock)
  }

  lemma {:induction false} LockedFollows(s: State, a: Action, p: nat, i: nat, x: nat)
    requires Inv(s) && a.c < NCPU && p == s.t.cpu[a.c] && s.pc[p] == Holding(i) && x < |s.pc|
    requires Next(s, a).Step?
    ensures Follows(s, Next(s, a).s, x)
  {
    hide Locks, Queues, Running, Wakeups, Ordered;
    var u := Next(s, a).s;
    if a.Post? && s.sems[i].val < 0 {
      OldestFirst(s, a.c);
      assert u.up[x] && !s.up[x] ==> Oldest(s.sems[i].list, s.ticket, x);
    }
  }

  lemma {:induction false} StageFollows(s: State, a: Action, p: nat, x: nat)
    requires Inv(s) && a.c < NCPU && p == s.t.cpu[a.c] && !s.pc[p].Free? && !s.pc[p].Holding? && x < |s.pc|
    requires Next(s, a).Step?
    ensures Follows(s, Next(s, a).s, x)
  {
    hide IdleOk, QueueOk, Counts, Granting, Locks, Queues, Running, Wakeups, Ordered, Oldest, Switched, Activated,
        Detached;
  }

  lemma {:induction false} OutsideFollows(s: State, a: Action, p: nat, x: nat)
    requires Inv(s) && a.c < NCPU && p == s.t.cpu[a.c] && s.pc[p].Free? && x < |s.pc|
    requires Next(s, a).Step?
    ensures Follows(s, Next(s, a).s, x)
  {
    hide Locks, Queues, Running, Wakeups, Ordered, Oldest, Switched, Activated;
  }

  lemma {:induction false} NextFollows(s: State, a: Action, x: nat)
    requires Inv(s) && Next(s, a).Step? && x < |s.pc|
    ensures Follows(s, Next(s, a).s, x)
  {
    hide Follows, Stays, Locks, Queues, Running, Wakeups, Ordered, Switched, Activated;
    var p := s.t.cpu[a.c];
    match s.pc[p]
    case Free => OutsideFollows(s, a, p, x);
    case Holding(i) => LockedFollows(s, a, p, i, x);
    case _ => StageFollows(s, a, p, x);
  }

  /** While q is in its wait tq and r in its wait tr, both of semaphore i, r is not granted before q. */
  ghost predicate Behind(s: State, i: nat, q: nat, r: nat, tq: nat, tr: nat) {
    && q < |s.pc| && r < |s.pc| == |s.up| == |s.ticket| && i < |s.sems| && tq < tr < s.clock
    && (s.ticket[r] == tr ==> forall j: nat | Enqueued(s.pc[r], j) :: j == i)
    && (s.ticket[q] == tq && s.ticket[r] == tr && q in s.sems[i].list ==> !s.up[r])
  }

  lemma {:induction false} BehindStep(s: State, u: State, i: nat, q: nat, r: nat, tq: nat, tr: nat)
    requires Inv(s) && Behind(s, i, q, r, tq, tr) && Follows(s, u, q) && Follows(s, u, r)
    ensures Behind(u, i, q, r, tq, tr)
  {
    hide SchedInv, Locks, Running, Wakeups, Ordered, Counts;
    if u.ticket[q] == tq && u.ticket[r] == tr && q in u.sems[i].list && u.up[r] {
      assert false;
    }
  }

  /**
    First come, first served, under every schedule: of two sleepers of a semaphore the later one is
    not granted as long as the earlier one still waits.
   */
  lemma {:induction false} NoOvertaking(s: State, acts: seq<Action>, i: nat, q: nat, r: nat)
    requires Inv(s) && Deep(s) && i < |s.sems| && q in s.sems[i].list && r in s.sems[i].list
             && q < |s.ticket| && r < |s.ticket| && s.ticket[q] < s.ticket[r]
    ensures Run(s, acts).Step?
    ensures var u := Run(s, acts).s;
            && |u.ticket| == |s.ticket| == |u.up| && |u.sems| == |s.sems|
            && (u.ticket[q] == s.ticket[q] && u.ticket[r] == s.ticket[r] && q in u.sems[i].list ==> !u.up[r])
  {
    assert Ordered(s.sems[i].list, s.ticket, s.clock);
    hide SchedInv, Locks, Running, Wakeups, Counts, Run;
    var k: nat :| k < |s.sems[i].list| && s.sems[i].list[k] == r;
    assert Enqueued(s.pc[r], i) && !s.up[r];
    BehindRun(s, acts, i, q, r, s.ticket[q], s.ticket[r]);
  }

  lemma {:induction false} BehindRun(s: State, acts: seq<Action>, i: nat, q: nat, r: nat, tq: nat, tr: nat)
    requires Inv(s) && Deep(s) && Behind(s, i, q, r, tq, tr)
    ensures Run(s, acts).Step? && Behind(Run(s, acts).s, i, q, r, tq, tr)
    ensures |Run(s, acts).s.pc| == |s.pc| && |Run(s, acts).s.sems| == |s.sems|
    decreases |acts|
  {
    if acts != [] {
      NextKeeps(s, acts[0]);
      DeepKeeps(s, acts[0]);
      var n := Next(s, acts[0]);
      if n.Step? {
        NextFollows(s, acts[0], q);
        NextFollows(s, acts[0], r);
        BehindStep(s, n.s, i, q, r, tq, tr);
        BehindRun(n.s, acts[1..], i, q, r, tq, tr);
      } else {
        BehindRun(s, acts[1..], i, q, r, tq, tr);
      }
    }
  }

  ghost predicate Boot(s: State) {
    && SchedInv(s.t) && |s.pc| == |s.up| == |s.refused| == |s.ticket| == |s.t.state| && s.lock == Nobody
    && (forall p: nat | p < |s.pc| :: s.pc[p] == Free && !Asleep(s.t.state[p]))
    && (forall i: nat | i < |s.sems| ::
          s.sems[i] == Sem(s.sems[i].initial, [], Nobody, s.sems[i].initial, 0, 0) && s.sems[i].initial >= 0)
  }

  lemma {:induction false} BootInv(s: State)
    requires Boot(s)
    ensures Inv(s) && Deep(s)
  {
    hide CpusOk, IdleOk, QueueOk;
  }

  // ----- exactly when `unalertable_wait_sem` panics -----

  /** This step is the return of an unalertable wait that had to queue. */
  ghost predicate Returns(s: State, a: Action)
    requires Shape(s)
  {
    && a.Recheck? && a.c < NCPU && s.pc[s.t.cpu[a.c]].Waiting? && !s.pc[s.t.cpu[a.c]].alertable
    && s.sems[s.pc[s.t.cpu[a.c]].s].holder == Nobody
  }

  /** Its answer, `wait->up`, which `unalertable_wait_sem` asserts. */
  ghost predicate Answer(s: State, a: Action)
    requires Shape(s) && Returns(s, a)
  {
    s.up[s.t.cpu[a.c]]
  }

  /** What has happened to a process since it last queued on a semaphore. */
  datatype Note = Note(granted: bool, refused: bool)

  /**
    The events that matter, read off the schedule: queueing, being the one a post picks, and calling
    `sched` to sleep.
   */
  ghost function Noted(s: State, a: Action, notes: seq<Note>): (r: seq<Note>)
    requires Shape(s) && |notes| == |s.pc|
    ensures |r| == |notes|
  {
    if a.c >= NCPU then notes
    else
      var p := s.t.cpu[a.c];
      match s.pc[p]
      case Holding(i) =>
        if a.Wait? && s.sems[i].val <= 0 && p >= NCPU then notes[p := notes[p].(granted := false)]
        else if a.Post? && s.sems[i].val < 0 && s.sems[i].list != [] then
          SemShape(s, i);
          var q := s.sems[i].list[|s.sems[i].list| - 1];
          notes[q := notes[q].(granted := true)]
        else notes
      case Handing(_, _) => if a.Sleep? then notes[p := notes[p].(refused := s.t.killed[p])] else notes
      case _ => notes
  }

  ghost function History(s: State, acts: seq<Action>, notes: seq<Note>): seq<Note>
    requires |notes| == |s.pc|
    decreases |acts|
  {
    if acts == [] || !Shape(s) then notes
    else match Next(s, acts[0])
      case Step(u) => if |u.pc| == |s.pc| then History(u, acts[1..], Noted(s, acts[0], notes)) else notes
      case Blocked => History(s, acts[1..], notes)
      case Fault => notes
  }

  /** The notes of a state: the flag in the WaitData and what `sched` said. */
  ghost predicate Agrees(s: State, notes: seq<Note>) {
    |notes| == |s.pc| == |s.up| == |s.refused| && forall p: nat | p < |notes| :: notes[p] == Note(s.up[p], s.refused[p])
  }

  /** Outside the locks neither flag changes. */
  lemma {:induction false} OutsideNotes(s: State, a: Action, p: nat)
    requires Shape(s) && a.c < NCPU && p == s.t.cpu[a.c] && p < |s.pc| && s.pc[p].Free? && OutsideStep(s, a, p).Step?
    ensures var u := OutsideStep(s, a, p).s; u.up == s.up && u.refused == s.refused && |u.pc| == |s.pc|
  {
    hide SchedInv, Switched, Activated, Wakes;
  }

  lemma {:induction false} LockedNotes(s: State, a: Action, p: nat, i: nat)
    requires Shape(s) && p < |s.pc| && i < |s.sems| && LockedPre(s, i) && LockedStep(s, a, p, i).Step?
    ensures var u := LockedStep(s, a, p, i).s;
            && u.refused == s.refused && |u.pc| == |s.pc|
            && u.up == (if a.Wait? && s.sems[i].val <= 0 then s.up[p := false]
                        else if a.Post? && s.sems[i].val < 0 then s.up[s.sems[i].list[|s.sems[i].list| - 1] := true]
                        else s.up)
  {
    hide SchedInv;
  }

  ghost predicate LockedPre(s: State, i: nat)
    requires i < |s.sems|
  {
    (s.sems[i].val < 0 ==> s.sems[i].list != []) && forall j: nat | j < |s.sems[i].list| :: s.sems[i].list[j] < |s.pc|
  }

  lemma {:induction false} StageNotes(s: State, a: Action, p: nat)
    requires Shape(s) && a.c < NCPU && p == s.t.cpu[a.c] && p < |s.pc| && !s.pc[p].Free? && !s.pc[p].Holding?
             && StageStep(s, a, p).Step?
    ensures var u := StageStep(s, a, p).s;
            && u.up == s.up && |u.pc| == |s.pc|
            && u.refused == if s.pc[p].Handing? then s.refused[p := s.t.killed[p]] else s.refused
  {
    hide SchedInv, Switched, Activated, Wakes, Detached;
  }

  lemma {:induction false} OutsideAgrees(s: State, a: Action, p: nat, notes: seq<Note>)
    requires Shape(s) && a.c < NCPU && p == s.t.cpu[a.c] && p < |s.pc| && s.pc[p].Free?
    requires Agrees(s, notes) && Next(s, a).Step?
    ensures Agrees(Next(s, a).s, Noted(s, a, notes))
  {
    hide SchedInv, OutsideStep;
    OutsideNotes(s, a, p);
  }

  lemma {:induction false} LockedAgrees(s: State, a: Action, p: nat, i: nat, notes: seq<Note>)
    requires Shape(s) && a.c < NCPU && p == s.t.cpu[a.c] && p < |s.pc| && s.pc[p] == Holding(i)
    requires Agrees(s, notes) && Next(s, a).Step? && Counts(s.sems[i])
    ensures Agrees(Next(s, a).s, Noted(s, a, notes))
  {
    hide SchedInv, OutsideStep, StageStep, Switched, Activated;
    SemShape(s, i);
    LockedNotes(s, a, p, i);
  }

  lemma {:induction false} StageAgrees(s: State, a: Action, p: nat, notes: seq<Note>)
    requires Shape(s) && a.c < NCPU && p == s.t.cpu[a.c] && p < |s.pc| && !s.pc[p].Free? && !s.pc[p].Holding?
    requires Agrees(s, notes) && Next(s, a).Step?
    ensures Agrees(Next(s, a).s, Noted(s, a, notes))
  {
    hide SchedInv, OutsideStep, LockedStep, Switched, Activated, Wakes;
    StageNotes(s, a, p);
  }

  lemma {:induction false} NotedAgrees(s: State, a: Action, notes: seq<Note>)
    requires Inv(s) && Agrees(s, notes) && Next(s, a).Step?
    ensures Agrees(Next(s, a).s, Noted(s, a, notes))
  {
    hide SchedInv, Locks, Running, Counts, Ordered, Queues, Wakeups, OutsideStep, LockedStep, StageStep, Noted, Agrees;
    Current(s, a.c);
    var p := s.t.cpu[a.c];
    if s.pc[p].Free? {
      OutsideAgrees(s, a, p, notes);
    } else if s.pc[p].Holding? {
      LockedAgrees(s, a, p, s.pc[p].s, notes);
    } else {
      StageAgrees(s, a, p, notes);
    }
  }

  lemma {:induction false} HistoryAgrees(s: State, acts: seq<Action>, notes: seq<Note>)
    requires Inv(s) && Agrees(s, notes)
    ensures Run(s, acts).Step? && Agrees(Run(s, acts).s, History(s, acts, notes))
    decreases |acts|
  {
    hide Next;
    if acts != [] {
      NextKeeps(s, acts[0]);
      if Next(s, acts[0]).Step? { NotedAgrees(s, acts[0], notes); }
      hide Inv, Noted;
      match Next(s, acts[0])
      case Step(u) => HistoryAgrees(u, acts[1..], Noted(s, acts[0], notes));
      case Blocked => HistoryAgrees(s, acts[1..], notes);
    }
  }

  /**
    After any run from boot: an unalertable wait that had to queue fails if and only if the process was
    killed when it called `sched`, which then refuses to let it sleep, and no post picked it before it
    looked again.  A process killed later sleeps on until a post picks it, so its wait succeeds.
   */
  lemma {:induction false} UnalertableFails(s: State, acts: seq<Action>, notes: seq<Note>, a: Action)
    requires Boot(s) && Agrees(s, notes)
    ensures Run(s, acts).Step? && Shape(Run(s, acts).s) && |History(s, acts, notes)| == |Run(s, acts).s.pc|
    ensures var u := Run(s, acts).s;
            Returns(u, a) ==>
              var note := History(s, acts, notes)[u.t.cpu[a.c]];
              !Answer(u, a) <==> note.refused && !note.granted
  {
    BootInv(s);
    RunKeeps(s, acts);
    HistoryAgrees(s, acts, notes);
    var u := Run(s, acts).s;
    if Returns(u, a) {
      Current(u, a.c);
      hide Inv, Run, History;
    }
  }

  /** Process 4 runs on CPU 0, is killed, and semaphore 0 has nothing to give. */
  function KilledCaller(): State {
    State(Table([RUNNABLE, RUNNING, RUNNING, RUNNING, RUNNING], [false, false, false, false, true], [4], [4, 1, 2, 3]),
          [Free, Free, Free, Free, Free], [false, false, false, false, false], [false, false, false, false, false],
              [0, 0, 0, 0, 0], 0,
          [Sem(0, [], Nobody, 0, 0, 0)], Nobody)
  }

  /** The wait, step by step, by the process on CPU 0. */
  function UnalertableWait(): seq<Action> {
    [Lock(0, 0), Wait(0, false), TakeSched(0), DropSem(0), Sleep(0, false)]
  }

  /** A table in which the process p, not an idle one, runs on CPU 0 and every other CPU is idle. */
  lemma {:induction false} OneRunning(t: Table, p: nat)
    requires Shaped(t) && NCPU <= p < |t.state| && t.rq == [p]
    requires t.cpu[0] == p && t.cpu[1] == 1 && t.cpu[2] == 2 && t.cpu[3] == 3
    requires t.state[0] == RUNNABLE && t.state[1] == RUNNING && t.state[2] == RUNNING && t.state[3] == RUNNING
             && t.state[p] == RUNNING
    requires forall q: nat | NCPU <= q < |t.state| && q != p :: t.state[q] == UNUSED
    requires forall q: nat | q < NCPU :: !t.killed[q]
    ensures SchedInv(t)
  {
    forall q: nat | q < |t.state| && t.state[q] == RUNNING ensures q in t.cpu {
      assert q == p || t.cpu[q] == q;
    }
  }

  lemma {:induction false} KilledCallerBoots()
    ensures Boot(KilledCaller())
  {
    hide SchedInv;
    var t := KilledCaller().t;
    assert Shaped(t);
    OneRunning(t, 4);
  }

  /**
    The input on which it fails: a killed process waits for a semaphore that nobody posts, and the
    assertion of `unalertable_wait_sem` does not hold.
   */
  lemma {:induction false} UnalertablePanics()
    ensures Boot(KilledCaller())
    ensures var r := Run(KilledCaller(), UnalertableWait());
            r.Step? && Shape(r.s) && Returns(r.s, Recheck(0)) && !Answer(r.s, Recheck(0))
  {
    KilledCallerBoots();
    FailingRun(KilledCaller());
  }

  /** The states on the way, from any boot state with a killed process on CPU 0 and nothing in semaphore 0. */
  ghost predicate OnTheWay(s: State, s1: State, s2: State, s3: State, s4: State) {
    && Boot(s) && |s.sems| > 0 && s.sems[0].initial == 0 && NCPU <= s.t.cpu[0] < |s.pc| && s.t.killed[s.t.cpu[0]]
    && var p := s.t.cpu[0];
    && s1 == Put(s, p, Holding(0), 0, s.sems[0].(holder := By(p)))
    && s2 == WaitQueues(s1, p, 0, false)
    && s3 == s2.(pc := s2.pc[p := BothLocks(0, false)], lock := By(p))
    && s4 == Put(s3, p, Handing(0, false), 0, s3.sems[0].(holder := Nobody))
  }

  lemma {:induction false} WayKept(s: State, s1: State, s2: State, s3: State, s4: State)
    requires OnTheWay(s, s1, s2, s3, s4)
    ensures Inv(s) && Inv(s1) && Inv(s2) && Inv(s3) && Inv(s4)
  {
    BootInv(s);
    Current(s, 0);
    assert s.sems[0] == Sem(0, [], Nobody, 0, 0, 0);
    hide Inv, Boot, Deep;
    var p := s.t.cpu[0];
    LockKeeps(s, p, 0);
    WaitKeeps(s1, p, 0, false);
    TakeSchedKeeps(s2, p, 0, false);
    DropSemKeeps(s3, p, 0, false);
  }

  lemma {:induction false} WayTaken(s: State, s1: State, s2: State, s3: State, s4: State)
    requires OnTheWay(s, s1, s2, s3, s4) && Shape(s) && Shape(s1) && Shape(s2) && Shape(s3)
    ensures Next(s, Lock(0, 0)) == Step(s1) && Next(s1, Wait(0, false)) == Step(s2)
    ensures Next(s2, TakeSched(0)) == Step(s3) && Next(s3, DropSem(0)) == Step(s4)
  {
    assert s.sems[0] == Sem(0, [], Nobody, 0, 0, 0) && |s.t.cpu| == NCPU;
    hide SchedInv, Switched, Wakes, Activated, Detached;
  }

  /** A killed process that hands over to `sched` is refused and comes back at once. */
  lemma {:induction false} RefusedSleep(s: State, p: nat)
    requires Inv(s) && p == s.t.cpu[0] && NCPU <= p < |s.pc| && s.t.killed[p]
    requires s.pc[p] == Handing(0, false) && |s.sems| > 0 && s.sems[0].holder == Nobody && !s.up[p]
    ensures var r := Next(s, Sleep(0, false));
            r.Step? && Shape(r.s) && Returns(r.s, Recheck(0)) && !Answer(r.s, Recheck(0))
  {
    hide SchedInv, Locks, Running, Wakeups, Queues, Ordered, Counts, OutsideStep, LockedStep;
    Current(s, 0);
    StayOn(s.t, 0, DEEPSLEEPING, false);
    SleepKeeps(s, 0, 0, false, false);
  }

  lemma {:induction false} FailingRun(s: State)
    requires Boot(s) && |s.sems| > 0 && s.sems[0].initial == 0 && NCPU <= s.t.cpu[0] && s.t.killed[s.t.cpu[0]]
    ensures var r := Run(s, UnalertableWait());
            r.Step? && Shape(r.s) && Returns(r.s, Recheck(0)) && !Answer(r.s, Recheck(0))
  {
    hide SchedInv, Locks, Running, Wakeups, Queues, Ordered, Counts, Run, Next, Deep, Returns, Answer;
    BootInv(s);
    Current(s, 0);
    var p := s.t.cpu[0];
    var s1 := Put(s, p, Holding(0), 0, s.sems[0].(holder := By(p)));
    var s2 := WaitQueues(s1, p, 0, false);
    var s3 := s2.(pc := s2.pc[p := BothLocks(0, false)], lock := By(p));
    var s4 := Put(s3, p, Handing(0, false), 0, s3.sems[0].(holder := Nobody));
    WayKept(s, s1, s2, s3, s4);
    WayTaken(s, s1, s2, s3, s4);
    RefusedSleep(s4, p);
    FailingSteps(s, s1, s2, s3, s4);
  }

  lemma {:induction false} RunCons(s: State, a: Action, rest: seq<Action>, u: State)
    requires Shape(s) && Next(s, a) == Step(u)
    ensures Run(s, [a] + rest) == Run(u, rest)
  {
    var acts := [a] + rest;
    assert acts[0] == a && acts[1..] == rest;
  }

  /** The five steps, one by one. */
  lemma {:induction false} FailingSteps(s: State, s1: State, s2: State, s3: State, s4: State)
    requires Shape(s) && Shape(s1) && Shape(s2) && Shape(s3) && Shape(s4)
    requires Next(s, Lock(0, 0)) == Step(s1) && Next(s1, Wait(0, false)) == Step(s2)
             && Next(s2, TakeSched(0)) == Step(s3) && Next(s3, DropSem(0)) == Step(s4)
    requires Next(s4, Sleep(0, false)).Step?
    ensures Run(s, UnalertableWait()) == Next(s4, Sleep(0, false))
  {
    hide Next, Shape;
    var s5 := Next(s4, Sleep(0, false)).s;
    RunCons(s4, Sleep(0, false), [], s5);
    RunCons(s3, DropSem(0), [Sleep(0, false)], s4);
    RunCons(s2, TakeSched(0), [DropSem(0)] + [Sleep(0, false)], s3);
    RunCons(s1, Wait(0, false), [TakeSched(0)] + ([DropSem(0)] + [Sleep(0, false)]), s2);
    RunCons(s, Lock(0, 0), [Wait(0, false)] + ([TakeSched(0)] + ([DropSem(0)] + [Sleep(0, false)])), s1);
    assert UnalertableWait() ==
      [Lock(0, 0)] + ([Wait(0, false)] + ([TakeSched(0)] + ([DropSem(0)] + [Sleep(0, false)])));
    assert [Sleep(0, false)] + [] == [Sleep(0, false)];
  }

  // ----- the operations under the lock, as `sem.c` writes them -----

  function Reversed(q: seq<nat>): (r: seq<nat>)
    ensures |r| == |q| && forall j: nat | j < |q| :: r[j] == q[|q| - 1 - j]
  {
    seq(|q|, j requires 0 <= j < |q| => q[|q| - 1 - j])
  }

  /** A semaphore whose lock is held throughout; `woken` is who has been activated, in order. */
  class Semaphore {
    var val: int
    const sleepers: Queue
    ghost var woken: seq<nat>

    ghost predicate Valid()
      reads this, sleepers, sleepers.ring
    {
      sleepers.Valid() && |sleepers.items| == Max(0, -val)
    }

    constructor (val: int, head: nat)
      requires val >= 0 && head != 0
      ensures Valid() && this.val == val && sleepers.items == [] == woken && sleepers.head == head
    {
      this.val, woken := val, [];
      sleepers := new Queue(head);
    }

    method GetSem() returns (ret: bool)
      requires Valid()
      modifies `val
      ensures Valid() && ret == (old(val) > 0) && val == old(val) - (if ret then 1 else 0)
    {
      ret := false;
      if val > 0 {
        val := val - 1;
        ret := true;
      }
    }

    /** `_wait_sem` up to `sched`: p takes a unit, or queues in front. */
    method StartWait(p: nat) returns (taken: bool)
      requires Valid() && p != 0 && p != sleepers.head && p !in sleepers.items
      modifies `val, sleepers`items, sleepers.ring
      ensures Valid() && val == old(val) - 1 && taken == (old(val) > 0)
      ensures sleepers.items == if taken then old(sleepers.items) else [p] + old(sleepers.items)
    {
      val := val - 1;
      if val >= 0 { return true; }
      sleepers.PushFront(p);
      taken := false;
    }

    /** `_wait_sem` behind `sched`: a process that no post has picked takes its place in the list back. */
    method StopWait(p: nat, up: bool)
      requires Valid() && (!up ==> p in sleepers.items)
      modifies `val, sleepers`items, sleepers.ring
      ensures Valid()
      ensures if up then val == old(val) && sleepers.items == old(sleepers.items)
              else val == old(val) + 1 && sleepers.items == Detached(old(sleepers.items), p)
    {
      if !up {
        ItemsDistinct(sleepers);
        DetachedDistinct(sleepers.items, p);
        val := val + 1;
        assert val <= 0;
        sleepers.Remove(p);
      }
    }

    method PostSem()
      requires Valid()
      modifies this, sleepers, sleepers.ring
      ensures Valid() && val == old(val) + 1
      ensures if old(sleepers.items) == [] then sleepers.items == [] && woken == old(woken)
              else
                && old(sleepers.items) == sleepers.items + [old(sleepers.items)[|old(sleepers.items)| - 1]]
                && woken == old(woken) + [old(sleepers.items)[|old(sleepers.items)| - 1]]
    {
      val := val + 1;
      if val <= 0 {
        assert sleepers.items != [];
        var wait := sleepers.TakeLast();
        woken := woken + [wait];
      }
    }

    method GetAllSem() returns (ret: int)
      requires Valid()
      modifies `val
      ensures Valid() && ret == Max(0, old(val)) && val == old(val) - ret
    {
      ret := 0;
      if val > 0 {
        ret := val;
        val := 0;
      }
    }

    /** `post_all_sem` wakes every sleeper, oldest first, and nobody else; what was available stays available. */
    method PostAllSem() returns (ret: int)
      requires Valid()
      modifies this, sleepers, sleepers.ring
      ensures Valid() && val == Max(0, old(val)) && sleepers.items == []
      ensures woken == old(woken) + Reversed(old(sleepers.items)) && ret == |old(sleepers.items)|
    {
      ghost var all, n := sleepers.items, |sleepers.items|;
      ret := -1;
      PostSem();
      ret := ret + 1;
      var got := GetSem();
      while !got
        invariant Valid() && 0 <= ret <= n
        invariant !got ==>
                  ret < n && val == old(val) + ret + 1 <= 0 && sleepers.items == all[..n - ret - 1]
                  && woken == old(woken) + Reversed(all)[..ret + 1]
        invariant got ==>
                  ret == n && val == Max(0, old(val)) && sleepers.items == [] && woken == old(woken) + Reversed(all)
        decreases !got, n - ret
      {
        PostSem();
        ret := ret + 1;
        got := GetSem();
      }
    }
  }
}
