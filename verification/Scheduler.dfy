/**
  The scheduler of `src/kernel/sched.c`: one run queue shared by four CPUs.  Process c < NCPU is the
  idle process of CPU c; the others are numbered from NCPU on.
 */
module Scheduler {
  import opened Common
  import opened Lists
  import opened LinkedQueues

  datatype ProcState = UNUSED | RUNNABLE | RUNNING | SLEEPING | DEEPSLEEPING | ZOMBIE

  datatype Table = Table(state: seq<ProcState>, killed: seq<bool>, rq: seq<nat>, cpu: seq<nat>)

  predicate Queued(s: ProcState) {
    s == RUNNABLE || s == RUNNING
  }

  // ----- the invariant -----

  ghost predicate Shaped(t: Table) {
    && |t.cpu| == NCPU <= |t.state| == |t.killed|
    && (forall c: nat | c < NCPU :: t.cpu[c] < |t.state|)
    && (forall i: nat | i < |t.rq| :: t.rq[i] < |t.state|)
  }

  /** Each CPU runs a RUNNING process, a different one each, and nothing else is RUNNING. */
  ghost predicate CpusOk(t: Table)
    requires Shaped(t)
  {
    && (forall c: nat | c < NCPU :: t.state[t.cpu[c]] == RUNNING)
    && (forall c: nat, d: nat | c < NCPU && d < NCPU && t.cpu[c] == t.cpu[d] :: c == d)
    && (forall p: nat | p < |t.state| && t.state[p] == RUNNING :: p in t.cpu)
  }

  /** Idle processes stay on their CPU, never sleep and are never killed. */
  ghost predicate IdleOk(t: Table)
    requires Shaped(t)
  {
    && (forall p: nat | p < NCPU :: Queued(t.state[p]) && !t.killed[p])
    && (forall c: nat | c < NCPU && t.cpu[c] < NCPU :: t.cpu[c] == c)
  }

  /** The run queue holds each RUNNABLE or RUNNING process that is not idle exactly once, and nothing else. */
  ghost predicate QueueOk(t: Table)
    requires Shaped(t)
  {
    Distinct(t.rq) && forall p: nat | p < |t.state| :: p in t.rq <==> p >= NCPU && Queued(t.state[p])
  }

  ghost predicate SchedInv(t: Table) {
    Shaped(t) && CpusOk(t) && IdleOk(t) && QueueOk(t)
  }

  // ----- the operations -----

  datatype Outcome<T> = Panic | Done(value: T)

  function Activated(t: Table, p: nat): Table
    requires p < |t.state|
  {
    t.(state := t.state[p := RUNNABLE], rq := [p] + t.rq)
  }

  predicate Wakes(t: Table, p: nat, onalert: bool)
    requires p < |t.state|
  {
    t.state[p] == SLEEPING || t.state[p] == UNUSED || (t.state[p] == DEEPSLEEPING && !onalert)
  }

  function Updated(t: Table, c: nat, newState: ProcState): Table
    requires Shaped(t) && c < NCPU
  {
    var p := t.cpu[c];
    var q := if p != c && Queued(t.state[p]) then Detached(t.rq, p) else t.rq;
    t.(state := t.state[p := newState], rq := if p != c && Queued(newState) then q + [p] else q)
  }

  /** The first RUNNABLE process of the queue, or the idle process. */
  function PickNext(t: Table, c: nat, q: seq<nat>): (p: nat)
    requires Shaped(t) && c < NCPU && forall i: nat | i < |q| :: q[i] < |t.state|
    ensures p < |t.state|
    ensures p != c ==> p in q && t.state[p] == RUNNABLE
    ensures p == c ==> c in q || forall i: nat | i < |q| :: t.state[q[i]] != RUNNABLE
  {
    if q == [] then c else if t.state[q[0]] == RUNNABLE then q[0] else PickNext(t, c, q[1..])
  }

  function Dispatched(t: Table, c: nat, p: nat): Outcome<Table>
    requires Shaped(t) && c < NCPU && p < |t.state|
  {
    if t.state[p] != RUNNABLE then Panic else Done(t.(state := t.state[p := RUNNING], cpu := t.cpu[c := p]))
  }

  /** `sched` on CPU c, with the lock held; `panicking` is the kernel's panic flag. */
  function Switched(t: Table, c: nat, newState: ProcState, panicking: bool): Outcome<Table>
    requires Shaped(t) && c < NCPU
  {
    if t.state[t.cpu[c]] != RUNNING then Panic
    else if t.killed[t.cpu[c]] && newState != ZOMBIE then Done(t)
    else
      var u := Updated(t, c, newState);
      ShapedUpdate(t, c, newState);
      Dispatched(u, c, if panicking then c else PickNext(u, c, u.rq))
  }

  lemma {:induction false} ShapedUpdate(t: Table, c: nat, newState: ProcState)
    requires Shaped(t) && c < NCPU
    ensures Shaped(Updated(t, c, newState))
  {
    var p := t.cpu[c];
    var q := Detached(t.rq, p);
    forall i: nat | i < |q| ensures q[i] < |t.state| { assert q[i] in t.rq; }
  }

  // ----- they keep the invariant and never panic -----

  lemma {:induction false} ActivateKeeps(t: Table, p: nat, onalert: bool)
    requires SchedInv(t) && p < |t.state| && Wakes(t, p, onalert)
    ensures SchedInv(Activated(t, p))
  {
    assert p !in t.rq;
    AddedDistinct(t.rq, p);
  }

  /** Between `update_this_state` and `update_this_proc`: the CPU's process is not RUNNING any more. */
  ghost predicate Between(t: Table, c: nat, newState: ProcState) {
    && Shaped(t) && c < NCPU && IdleOk(t) && QueueOk(t)
    && t.state[t.cpu[c]] == newState != RUNNING
    && (forall d: nat | d < NCPU && d != c :: t.state[t.cpu[d]] == RUNNING)
    && (forall d: nat, e: nat | d < NCPU && e < NCPU && t.cpu[d] == t.cpu[e] :: d == e)
    && (forall p: nat | p < |t.state| && t.state[p] == RUNNING :: exists d: nat :: d < NCPU && d != c && t.cpu[d] == p)
  }

  lemma {:induction false} UpdateQueue(t: Table, c: nat, newState: ProcState)
    requires SchedInv(t) && c < NCPU && (t.cpu[c] == c ==> newState == RUNNABLE)
    ensures Shaped(Updated(t, c, newState)) && QueueOk(Updated(t, c, newState))
  {
    ShapedUpdate(t, c, newState);
    var p := t.cpu[c];
    DetachedDistinct(t.rq, p);
    AddedDistinct(Detached(t.rq, p), p);
  }

  lemma {:induction false} UpdateKeeps(t: Table, c: nat, newState: ProcState)
    requires SchedInv(t) && c < NCPU && newState != RUNNING && (t.cpu[c] == c ==> newState == RUNNABLE)
    ensures Between(Updated(t, c, newState), c, newState)
  {
    hide Detached;
    UpdateQueue(t, c, newState);
    var u := Updated(t, c, newState);
    forall p: nat | p < |u.state| && u.state[p] == RUNNING
      ensures exists d: nat :: d < NCPU && d != c && u.cpu[d] == p
    {
      assert p in t.cpu;
    }
  }

  lemma {:induction false} DispatchKeeps(t: Table, c: nat, newState: ProcState, p: nat)
    requires Between(t, c, newState) && p < |t.state| && t.state[p] == RUNNABLE && (p == c || p >= NCPU)
    ensures Dispatched(t, c, p).Done? && SchedInv(Dispatched(t, c, p).value)
  {
    DispatchCpus(t, c, newState, p);
    DispatchIdle(t, c, newState, p);
    hide CpusOk, Between, QueueOk, IdleOk;
  }

  lemma {:induction false} DispatchIdle(t: Table, c: nat, newState: ProcState, p: nat)
    requires Between(t, c, newState) && p < |t.state| && t.state[p] == RUNNABLE && (p == c || p >= NCPU)
    ensures var u := t.(state := t.state[p := RUNNING], cpu := t.cpu[c := p]); Shaped(u) && IdleOk(u) && QueueOk(u)
  {
    hide Distinct;
  }

  lemma {:induction false} DispatchCpus(t: Table, c: nat, newState: ProcState, p: nat)
    requires Between(t, c, newState) && p < |t.state| && t.state[p] == RUNNABLE && (p == c || p >= NCPU)
    ensures var u := t.(state := t.state[p := RUNNING], cpu := t.cpu[c := p]); Shaped(u) && CpusOk(u)
  {
    hide IdleOk, QueueOk;
    var u := t.(state := t.state[p := RUNNING], cpu := t.cpu[c := p]);
    assert u.cpu[c] == p;
    forall d: nat | d < NCPU && d != c ensures u.cpu[d] == t.cpu[d] && u.state[u.cpu[d]] == RUNNING && u.cpu[d] != p {}
    forall q: nat | q < |u.state| && u.state[q] == RUNNING ensures q in u.cpu {
      if q != p {
        var d: nat :| d < NCPU && d != c && t.cpu[d] == q;
        assert u.cpu[d] == q;
      }
    }
  }

  /**
    Both assertions of `sched` hold and the invariant is kept, for every CPU and every new state a
    process may ask for.
   */
  lemma {:induction false} SwitchKeeps(t: Table, c: nat, newState: ProcState, panicking: bool)
    requires SchedInv(t) && c < NCPU && newState != RUNNING && (t.cpu[c] == c ==> newState == RUNNABLE)
    ensures Switched(t, c, newState, panicking).Done? && SchedInv(Switched(t, c, newState, panicking).value)
  {
    hide Detached, Updated;
    if !(t.killed[t.cpu[c]] && newState != ZOMBIE) {
      UpdateKeeps(t, c, newState);
      var u := Updated(t, c, newState);
      var p := if panicking then c else PickNext(u, c, u.rq);
      IdleWaits(u, c, newState);
      DispatchKeeps(u, c, newState, p);
    }
  }

  /** Before the next process is chosen, the CPU's idle process is RUNNABLE. */
  lemma {:induction false} IdleWaits(t: Table, c: nat, newState: ProcState)
    requires Between(t, c, newState)
    ensures t.state[c] == RUNNABLE && forall p: nat | p < |t.state| && p in t.rq :: p >= NCPU
  {
  }

  /** The two writes a switch makes to the states. */
  lemma {:induction false} SwitchIs(t: Table, c: nat, newState: ProcState, panicking: bool)
    requires SchedInv(t) && c < NCPU && newState != RUNNING && (t.cpu[c] == c ==> newState == RUNNABLE)
    requires !(t.killed[t.cpu[c]] && newState != ZOMBIE)
    ensures var o := Switched(t, c, newState, panicking);
            && o.Done? && |o.value.cpu| == |t.cpu| && o.value.killed == t.killed && o.value.cpu[c] < |t.state|
            && var left, next := t.state[t.cpu[c] := newState], o.value.cpu[c];
               left[next] == RUNNABLE && o.value.state == left[next := RUNNING]
  {
    hide Detached, PickNext, CpusOk, IdleOk, QueueOk;
    SwitchKeeps(t, c, newState, panicking);
  }

  /** One process gives up its CPU and one starts to run: who else may have changed. */
  ghost predicate HandsOver(a: seq<ProcState>, b: seq<ProcState>, p: nat) {
    && |a| == |b|
    && (forall q: nat | q < |a| && q != p && b[q] != a[q] :: a[q] == RUNNABLE && b[q] == RUNNING)
    && (forall q: nat, r: nat | q < |a| && r < |a| && q != p && r != p && b[q] != a[q] && b[r] != a[r] :: q == r)
  }

  lemma {:induction false} HandOver(a: seq<ProcState>, p: nat, x: ProcState, q: nat)
    requires p < |a| && q < |a| && a[p := x][q] == RUNNABLE
    ensures HandsOver(a, a[p := x][q := RUNNING], p)
  {
  }

  /** What a switch does to processes: the caller gets its new state, at most one other process starts to run. */
  lemma {:induction false} SwitchEffect(t: Table, c: nat, newState: ProcState, panicking: bool)
    requires SchedInv(t) && c < NCPU && newState != RUNNING && (t.cpu[c] == c ==> newState == RUNNABLE)
    requires !(t.killed[t.cpu[c]] && newState != ZOMBIE)
    ensures var o := Switched(t, c, newState, panicking);
            && o.Done? && o.value.killed == t.killed && HandsOver(t.state, o.value.state, t.cpu[c])
            && (o.value.state[t.cpu[c]] == newState || (newState == RUNNABLE && o.value.state[t.cpu[c]] == RUNNING))
  {
    hide Switched, HandsOver, CpusOk, IdleOk, QueueOk;
    SwitchIs(t, c, newState, panicking);
    HandOver(t.state, t.cpu[c], newState, Switched(t, c, newState, panicking).value.cpu[c]);
  }

  // ----- round robin -----

  /**
    A process that gives up CPU c goes behind everybody if it may run on, and everybody else keeps
    their order; the RUNNABLE process that nobody RUNNABLE stands before runs next, and the idle
    process only if there is none.
   */
  ghost predicate RoundRobin(t: Table, u: Table, c: nat, newState: ProcState, panicking: bool)
    requires Shaped(t) && Shaped(u) && c < NCPU && |u.state| == |t.state|
  {
    var p, next := t.cpu[c], u.cpu[c];
    var left := t.state[p := newState];
    && (forall x, y | x != p && y != p :: Before(u.rq, x, y) <==> Before(t.rq, x, y))
    && (p >= NCPU && newState == RUNNABLE ==> forall x | x in u.rq && x != p :: Before(u.rq, x, p))
    && (panicking ==> next == c)
    && (!panicking && next == c ==> forall x: nat | x in u.rq && x < |left| :: left[x] != RUNNABLE)
    && (!panicking && next != c ==>
          next in u.rq && left[next] == RUNNABLE
          && forall x: nat | Before(u.rq, x, next) && x < |left| :: left[x] != RUNNABLE)
    && u.cpu == t.cpu[c := next]
  }

  /** What `pick_next` finds is the first. */
  lemma {:induction false} PickFirst(t: Table, c: nat, q: seq<nat>)
    requires Shaped(t) && c < NCPU && Distinct(q) && c !in q && forall i: nat | i < |q| :: q[i] < |t.state|
    ensures var p := PickNext(t, c, q);
            && (p == c ==> forall x: nat | x in q && x < |t.state| :: t.state[x] != RUNNABLE)
            && (p != c ==> p in q && forall x: nat | Before(q, x, p) && x < |t.state| :: t.state[x] != RUNNABLE)
  {
    if q != [] {
      TailDistinct(q);
      if t.state[q[0]] != RUNNABLE { PickFirst(t, c, q[1..]); }
      var p := PickNext(t, c, q);
      forall x: nat | Before(q, x, p) && x < |t.state| && p != c ensures t.state[x] != RUNNABLE {
        BeforeTail(q, x, p);
        if p == q[0] { NotTwice(q, x); }
      }
    }
  }

  lemma {:induction false} UpdatedOrder(t: Table, c: nat, newState: ProcState)
    requires SchedInv(t) && c < NCPU && (t.cpu[c] == c ==> newState == RUNNABLE)
    ensures var p, u := t.cpu[c], Updated(t, c, newState);
            && (forall x, y | x != p && y != p :: Before(u.rq, x, y) <==> Before(t.rq, x, y))
            && (p >= NCPU && newState == RUNNABLE ==> forall x | x in u.rq && x != p :: Before(u.rq, x, p))
  {
    hide Before, Detached, CpusOk;
    StateOfRunning(t, c);
    var p, u := t.cpu[c], Updated(t, c, newState);
    forall x, y | x != p && y != p ensures Before(u.rq, x, y) <==> Before(t.rq, x, y) {
      DetachedOrder(t.rq, p, x, y);
      AppendedOrder(Detached(t.rq, p), p, x, y);
    }
    if p >= NCPU && newState == RUNNABLE {
      forall x | x in u.rq && x != p ensures Before(u.rq, x, p) { AppendedOrder(Detached(t.rq, p), p, x, p); }
    }
  }

  lemma {:induction false} StateOfRunning(t: Table, c: nat)
    requires SchedInv(t) && c < NCPU
    ensures t.state[t.cpu[c]] == RUNNING
  {
  }

  /** Every switch that is not refused is round robin. */
  lemma {:induction false} SwitchRobin(t: Table, c: nat, newState: ProcState, panicking: bool)
    requires SchedInv(t) && c < NCPU && newState != RUNNING && (t.cpu[c] == c ==> newState == RUNNABLE)
    requires !(t.killed[t.cpu[c]] && newState != ZOMBIE)
    ensures var o := Switched(t, c, newState, panicking);
            && o.Done? && |o.value.state| == |t.state| && Shaped(o.value)
            && RoundRobin(t, o.value, c, newState, panicking)
  {
    hide Before, Detached, CpusOk, IdleOk, PickNext;
    SwitchKeeps(t, c, newState, panicking);
    UpdatedOrder(t, c, newState);
    UpdateQueue(t, c, newState);
    var u := Updated(t, c, newState);
    ShapedUpdate(t, c, newState);
    IdleApart(u, c);
    PickFirst(u, c, u.rq);
  }

  lemma {:induction false} IdleApart(t: Table, c: nat)
    requires Shaped(t) && QueueOk(t) && c < NCPU
    ensures c !in t.rq && Distinct(t.rq)
  {
  }

  // ----- how long a RUNNABLE process waits -----

  /** How many RUNNABLE processes stand before q. */
  ghost function Ahead(state: seq<ProcState>, rq: seq<nat>, q: nat): nat
    requires forall i: nat | i < |rq| :: rq[i] < |state|
  {
    if rq == [] || rq[0] == q then 0
    else (if state[rq[0]] == RUNNABLE then 1 else 0) + Ahead(state, rq[1..], q)
  }

  lemma {:induction false} AheadDetached(state: seq<ProcState>, rq: seq<nat>, p: nat, x: ProcState, q: nat)
    requires (forall i: nat | i < |rq| :: rq[i] < |state|) && p < |state| && p != q && state[p] != RUNNABLE
    ensures forall i: nat | i < |Detached(rq, p)| :: Detached(rq, p)[i] < |state|
    ensures Ahead(state[p := x], Detached(rq, p), q) == Ahead(state, rq, q)
  {
    forall i: nat | i < |Detached(rq, p)| ensures Detached(rq, p)[i] < |state| { assert Detached(rq, p)[i] in rq; }
    if rq != [] {
      AheadDetached(state, rq[1..], p, x, q);
      if rq[0] != p { assert Detached(rq, p)[1..] == Detached(rq[1..], p); }
    }
  }

  lemma {:induction false} AheadAppended(state: seq<ProcState>, rq: seq<nat>, p: nat, q: nat)
    requires (forall i: nat | i < |rq| :: rq[i] < |state|) && p < |state| && q in rq
    ensures forall i: nat | i < |rq + [p]| :: (rq + [p])[i] < |state|
    ensures Ahead(state, rq + [p], q) == Ahead(state, rq, q)
  {
    if rq[0] != q {
      AheadAppended(state, rq[1..], p, q);
      assert (rq + [p])[1..] == rq[1..] + [p];
    }
  }

  /** The first RUNNABLE process of a queue in which q is RUNNABLE is q, or one less stands before q once it runs. */
  lemma {:induction false} AheadDispatched(t: Table, c: nat, rq: seq<nat>, q: nat)
    requires Shaped(t) && c < NCPU && (forall i: nat | i < |rq| :: rq[i] < |t.state|) && Distinct(rq)
    requires q in rq && q < |t.state| && t.state[q] == RUNNABLE
    ensures var r := PickNext(t, c, rq);
            r != q ==> Ahead(t.state, rq, q) > 0 && Ahead(t.state[r := RUNNING], rq, q) == Ahead(t.state, rq, q) - 1
  {
    TailDistinct(rq);
    if rq[0] != q {
      var r := PickNext(t, c, rq);
      if t.state[rq[0]] == RUNNABLE {
        AheadElsewhere(t.state, rq[1..], r, q);
      } else {
        AheadDispatched(t, c, rq[1..], q);
        assert r != rq[0] by { PickedRunnable(t, c, rq[1..], q); }
      }
    }
  }

  lemma {:induction false} PickedRunnable(t: Table, c: nat, rq: seq<nat>, q: nat)
    requires Shaped(t) && c < NCPU && (forall i: nat | i < |rq| :: rq[i] < |t.state|)
    requires q in rq && t.state[q] == RUNNABLE
    ensures t.state[PickNext(t, c, rq)] == RUNNABLE
  {
    if t.state[rq[0]] != RUNNABLE { PickedRunnable(t, c, rq[1..], q); }
  }

  lemma {:induction false} AheadElsewhere(state: seq<ProcState>, rq: seq<nat>, r: nat, q: nat)
    requires (forall i: nat | i < |rq| :: rq[i] < |state|) && r < |state| && r !in rq
    ensures Ahead(state[r := RUNNING], rq, q) == Ahead(state, rq, q)
  {
    if rq != [] && rq[0] != q { AheadElsewhere(state, rq[1..], r, q); }
  }

  /** A process that waits its turn. */
  ghost predicate Waits(t: Table, q: nat) {
    NCPU <= q < |t.state| && t.state[q] == RUNNABLE
  }

  ghost function Turn(t: Table, q: nat): nat
    requires Shaped(t)
  {
    Ahead(t.state, t.rq, q)
  }

  /** A switch lets q run or brings it one place nearer. */
  lemma {:induction false} SwitchNearer(t: Table, c: nat, newState: ProcState, q: nat)
    requires SchedInv(t) && c < NCPU && newState != RUNNING && (t.cpu[c] == c ==> newState == RUNNABLE)
    requires !(t.killed[t.cpu[c]] && newState != ZOMBIE) && Waits(t, q)
    ensures var o := Switched(t, c, newState, false);
            && o.Done? && SchedInv(o.value)
            && (o.value.cpu[c] != q ==> Waits(o.value, q) && Turn(t, q) > 0 && Turn(o.value, q) == Turn(t, q) - 1)
  {
    hide Detached, PickNext, CpusOk, IdleOk, Ahead;
    SwitchKeeps(t, c, newState, false);
    UpdateQueue(t, c, newState);
    UpdatedTurn(t, c, newState, q);
    var u := Updated(t, c, newState);
    IdleApart(u, c);
    AheadDispatched(u, c, u.rq, q);
  }

  /** The caller's own move changes nobody else's turn. */
  lemma {:induction false} UpdatedTurn(t: Table, c: nat, newState: ProcState, q: nat)
    requires SchedInv(t) && c < NCPU && (t.cpu[c] == c ==> newState == RUNNABLE) && Waits(t, q)
    ensures var u := Updated(t, c, newState); Shaped(u) && Waits(u, q) && q in u.rq && Turn(u, q) == Turn(t, q)
  {
    hide Detached, Ahead, CpusOk;
    StateOfRunning(t, c);
    ShapedUpdate(t, c, newState);
    var p := t.cpu[c];
    if p != c {
      AheadDetached(t.state, t.rq, p, newState, q);
      AheadAppended(t.state[p := newState], Detached(t.rq, p), p, q);
    } else {
      IdleApart(t, c);
      AheadOther(t.state, t.rq, p, newState, q);
    }
  }

  lemma {:induction false} AheadOther(state: seq<ProcState>, rq: seq<nat>, p: nat, x: ProcState, q: nat)
    requires (forall i: nat | i < |rq| :: rq[i] < |state|) && p < |state| && p !in rq
    ensures Ahead(state[p := x], rq, q) == Ahead(state, rq, q)
  {
    if rq != [] && rq[0] != q { AheadOther(state, rq[1..], p, x, q); }
  }

  /** Only an activation, which goes to the head, pushes q back, by one place. */
  lemma {:induction false} ActivationPushes(t: Table, p: nat, onalert: bool, q: nat)
    requires SchedInv(t) && p < |t.state| && Wakes(t, p, onalert) && Waits(t, q)
    ensures SchedInv(Activated(t, p)) && Waits(Activated(t, p), q) && Turn(Activated(t, p), q) == Turn(t, q) + 1
  {
    ActivateKeeps(t, p, onalert);
    assert p !in t.rq;
    assert ([p] + t.rq)[1..] == t.rq;
    AheadOther(t.state, t.rq, p, RUNNABLE, q);
  }

  // ----- over runs -----

  datatype Move = Switch(c: nat, newState: ProcState) | Wake(p: nat, onalert: bool) | Kill(p: nat)

  /** A switch that `sched` does not refuse, on a CPU that is not panicking. */
  ghost predicate Switches(t: Table, m: Move)
    requires Shaped(t)
  {
    && m.Switch? && m.c < NCPU && m.newState != RUNNING && (t.cpu[m.c] == m.c ==> m.newState == RUNNABLE)
    && !(t.killed[t.cpu[m.c]] && m.newState != ZOMBIE)
  }

  ghost predicate Activates(t: Table, m: Move) {
    m.Wake? && m.p < |t.state| && Wakes(t, m.p, m.onalert)
  }

  /** One step; what is refused or does not apply changes nothing. */
  ghost function Moved(t: Table, m: Move): (u: Table)
    requires SchedInv(t)
    ensures SchedInv(u)
  {
    if Switches(t, m) then
      SwitchKeeps(t, m.c, m.newState, false);
      Switched(t, m.c, m.newState, false).value
    else if Activates(t, m) then
      ActivateKeeps(t, m.p, m.onalert);
      Activated(t, m.p)
    else if m.Kill? && NCPU <= m.p < |t.state| then
      KilledKeeps(t, m.p);
      t.(killed := t.killed[m.p := true])
    else t
  }

  lemma {:induction false} KilledKeeps(t: Table, p: nat)
    requires SchedInv(t) && NCPU <= p < |t.state|
    ensures SchedInv(t.(killed := t.killed[p := true]))
  {
  }

  ghost function RunMoves(t: Table, ms: seq<Move>): Table
    requires SchedInv(t)
    decreases |ms|
  {
    if ms == [] then t else RunMoves(Moved(t, ms[0]), ms[1..])
  }

  ghost function SwitchCount(t: Table, ms: seq<Move>): nat
    requires SchedInv(t)
    decreases |ms|
  {
    if ms == [] then 0
    else (if Switches(t, ms[0]) then 1 else 0) + SwitchCount(Moved(t, ms[0]), ms[1..])
  }

  ghost function ActivationCount(t: Table, ms: seq<Move>): nat
    requires SchedInv(t)
    decreases |ms|
  {
    if ms == [] then 0
    else (if Activates(t, ms[0]) then 1 else 0) + ActivationCount(Moved(t, ms[0]), ms[1..])
  }

  /** q stays RUNNABLE: no CPU has run it. */
  ghost predicate NeverRuns(t: Table, ms: seq<Move>, q: nat)
    requires SchedInv(t)
    decreases |ms|
  {
    Waits(t, q) && (ms != [] ==> NeverRuns(Moved(t, ms[0]), ms[1..], q))
  }

  /**
    Over any run, for a process that has not run: its turn has come nearer by the number of switches
    and been pushed back by the number of activations, exactly.
   */
  lemma {:induction false} TurnExact(t: Table, ms: seq<Move>, q: nat)
    requires SchedInv(t) && NeverRuns(t, ms, q)
    ensures SchedInv(RunMoves(t, ms))
    ensures Turn(RunMoves(t, ms), q) + SwitchCount(t, ms) == Turn(t, q) + ActivationCount(t, ms)
    decreases |ms|
  {
    hide SchedInv, Moved, Ahead, Waits;
    if ms != [] {
      TurnMoves(t, ms[0], q, Moved(t, ms[0]));
      TurnExact(Moved(t, ms[0]), ms[1..], q);
    }
  }

  lemma {:induction false} TurnMoves(t: Table, m: Move, q: nat, u: Table)
    requires SchedInv(t) && Waits(t, q) && u == Moved(t, m) && Waits(u, q)
    ensures SchedInv(u)
    ensures Turn(u, q) + (if Switches(t, m) then 1 else 0) == Turn(t, q) + (if Activates(t, m) then 1 else 0)
  {
    hide Switched, Ahead, CpusOk, IdleOk, QueueOk;
    if Switches(t, m) {
      SwitchNearer(t, m.c, m.newState, q);
      DispatchedRuns(u, m.c);
    } else if Activates(t, m) {
      ActivationPushes(t, m.p, m.onalert, q);
    }
  }

  lemma {:induction false} DispatchedRuns(t: Table, c: nat)
    requires SchedInv(t) && c < NCPU
    ensures t.state[t.cpu[c]] == RUNNING
  {
  }

  /** So it has run after as many switches as there were RUNNABLE processes before it and activations, and one more. */
  lemma {:induction false} WaitBounded(t: Table, ms: seq<Move>, q: nat)
    requires SchedInv(t) && Waits(t, q) && SwitchCount(t, ms) > Turn(t, q) + ActivationCount(t, ms)
    ensures !NeverRuns(t, ms, q)
  {
    if NeverRuns(t, ms, q) { TurnExact(t, ms, q); }
  }

  // ----- and how long it may wait -----

  /** Process a runs on CPU 0, process 5 waits and process b sleeps, one of them 4 and the other 6. */
  function Crowd(a: nat, b: nat): (t: Table)
    requires (a == 4 && b == 6) || (a == 6 && b == 4)
    ensures |t.state| == 7
  {
    Table([RUNNABLE, RUNNING, RUNNING, RUNNING, if a == 4 then RUNNING else SLEEPING, RUNNABLE,
           if a == 6 then RUNNING else SLEEPING],
        [false, false, false, false, false, false, false], [a, 5], [a, 1, 2, 3])
  }

  /** 4 and 6 wake each other before they sleep. */
  function PingPong(a: nat, b: nat, n: nat): seq<Move>
    decreases n
  {
    if n == 0 then [] else [Wake(b, false), Switch(0, SLEEPING)] + PingPong(b, a, n - 1)
  }

  /**
    Switches alone promise nothing: while two processes wake each other, a third never runs, however
    many there are.
   */
  lemma {:induction false} Starves(a: nat, b: nat, n: nat)
    requires (a == 4 && b == 6) || (a == 6 && b == 4)
    ensures SchedInv(Crowd(a, b)) && NeverRuns(Crowd(a, b), PingPong(a, b, n), 5)
    ensures SwitchCount(Crowd(a, b), PingPong(a, b, n)) == n
    decreases n
  {
    hide SchedInv, Moved, Crowd;
    Pinged(a, b);
    if n > 0 {
      Starves(b, a, n - 1);
      var ms := PingPong(a, b, n);
      assert ms[0] == Wake(b, false) && ms[1..][0] == Switch(0, SLEEPING) && ms[1..][1..] == PingPong(b, a, n - 1);
      var u := Moved(Crowd(a, b), ms[0]);
      assert NeverRuns(u, ms[1..], 5) && SwitchCount(u, ms[1..]) == n;
    }
  }

  lemma {:induction false} CrowdOk(a: nat, b: nat)
    requires (a == 4 && b == 6) || (a == 6 && b == 4)
    ensures SchedInv(Crowd(a, b))
  {
    var t := Crowd(a, b);
    assert t.cpu[0] == a && t.cpu[1] == 1 && t.cpu[2] == 2 && t.cpu[3] == 3 && t.rq[0] == a && t.rq[1] == 5;
    forall c: nat | c < NCPU ensures t.cpu[c] < 7 && t.state[t.cpu[c]] == RUNNING && (c > 0 ==> t.cpu[c] == c) {
      assert c == 0 || c == 1 || c == 2 || c == 3;
    }
    CrowdCpus(a, b);
    CrowdQueue(a, b);
    hide CpusOk, QueueOk;
  }

  lemma {:induction false} CrowdCpus(a: nat, b: nat)
    requires ((a == 4 && b == 6) || (a == 6 && b == 4)) && Shaped(Crowd(a, b))
    requires var t := Crowd(a, b);
             forall c: nat | c < NCPU :: t.state[t.cpu[c]] == RUNNING && t.cpu[c] == if c == 0 then a else c
    ensures CpusOk(Crowd(a, b))
  {
    var t := Crowd(a, b);
    forall p: nat | p < |t.state| && t.state[p] == RUNNING ensures p in t.cpu {
      assert p == a || p == 1 || p == 2 || p == 3;
      assert t.cpu[if p == a then 0 else p] == p;
    }
  }

  lemma {:induction false} CrowdQueue(a: nat, b: nat)
    requires ((a == 4 && b == 6) || (a == 6 && b == 4)) && Shaped(Crowd(a, b))
    ensures QueueOk(Crowd(a, b))
  {
    var t := Crowd(a, b);
    forall p: nat | p < |t.state| ensures p in t.rq <==> p >= NCPU && Queued(t.state[p]) {
      assert p in t.rq <==> p == a || p == 5;
    }
  }

  lemma {:induction false} Pinged(a: nat, b: nat)
    requires (a == 4 && b == 6) || (a == 6 && b == 4)
    ensures SchedInv(Crowd(a, b)) && SchedInv(Crowd(b, a)) && Waits(Crowd(a, b), 5)
    ensures var t := Crowd(a, b);
            && !Switches(t, Wake(b, false))
            && var u := Moved(t, Wake(b, false));
               Waits(u, 5) && Switches(u, Switch(0, SLEEPING)) && Moved(u, Switch(0, SLEEPING)) == Crowd(b, a)
  {
    hide SchedInv, Moved, Crowd;
    CrowdOk(a, b);
    CrowdOk(b, a);
    Woken(a, b);
    Slept(a, b);
  }

  lemma {:induction false} Woken(a: nat, b: nat)
    requires ((a == 4 && b == 6) || (a == 6 && b == 4)) && SchedInv(Crowd(a, b))
    ensures var t := Crowd(a, b);
            !Switches(t, Wake(b, false)) && Waits(t, 5) && Moved(t, Wake(b, false)) == Activated(t, b)
  {
    hide SchedInv;
  }

  lemma {:induction false} Slept(a: nat, b: nat)
    requires ((a == 4 && b == 6) || (a == 6 && b == 4)) && SchedInv(Activated(Crowd(a, b), b))
    ensures var u := Activated(Crowd(a, b), b);
            Waits(u, 5) && Switches(u, Switch(0, SLEEPING)) && Moved(u, Switch(0, SLEEPING)) == Crowd(b, a)
  {
    hide SchedInv;
    MiddleDetached(b, a);
    var u := Activated(Crowd(a, b), b);
    assert u.rq == [b, a, 5];
    var w := Updated(u, 0, SLEEPING);
    assert w.rq == [b, 5] && PickNext(w, 0, w.rq) == b;
    assert Moved(u, Switch(0, SLEEPING)).state == Crowd(b, a).state;
    assert Moved(u, Switch(0, SLEEPING)).cpu == Crowd(b, a).cpu;
  }

  lemma {:induction false} MiddleDetached(x: nat, y: nat)
    requires x != y && y != 5
    ensures Detached([x, y, 5], y) == [x, 5]
  {
    assert [x, y, 5][1..] == [y, 5] && [y, 5][1..] == [5] && [5][1..] == [];
    assert Detached([5], y) == [5] && Detached([y, 5], y) == [5];
  }

  lemma {:induction false} BootTable(t: Table)
    requires |t.state| == |t.killed| >= NCPU && t.rq == [] && t.cpu == [0, 1, 2, 3]
    requires forall p: nat | p < |t.state| :: t.state[p] == (if p < NCPU then RUNNING else UNUSED) && !t.killed[p]
    ensures SchedInv(t)
  {
    assert t.cpu[0] == 0 && t.cpu[1] == 1 && t.cpu[2] == 2 && t.cpu[3] == 3;
    forall c: nat | c < NCPU ensures t.cpu[c] == c {}
    assert Shaped(t);
    assert CpusOk(t) by {
      forall p: nat | p < |t.state| && t.state[p] == RUNNING ensures p in t.cpu { assert t.cpu[p] == p; }
    }
  }

  /** The shared scheduler state; `sched_lock` is held in every method. */
  /**
    The run queue is a list of `list.c`: process p's node is p, the head's is the first number
    behind the processes.
   */
  class Cpus {
    var state: seq<ProcState>
    var killed: seq<bool>
    var cpu: seq<nat>
    var panicking: bool
    const rq: Queue

    ghost function T(): Table
      reads this, rq
    {
      Table(state, killed, rq.items, cpu)
    }

    ghost predicate Valid()
      reads this, rq, rq.ring
    {
      SchedInv(T()) && rq.Valid() && rq.head == |state|
    }

    /** `init_sched`: every CPU runs its idle process and the queue is empty. */
    constructor (procs: nat)
      ensures Valid() && |state| == NCPU + procs && !panicking && fresh(rq) && fresh(rq.ring)
      ensures forall p: nat | NCPU <= p < |state| :: state[p] == UNUSED
    {
      state := seq(NCPU + procs, i => if i < NCPU then RUNNING else UNUSED);
      killed := seq(NCPU + procs, i => false);
      rq := new Queue(NCPU + procs);
      cpu := [0, 1, 2, 3];
      panicking := false;
      new;
      hide CpusOk, IdleOk, QueueOk;
      BootTable(T());
    }

    /** `_activate_proc` */
    method Activate(p: nat, onalert: bool) returns (woken: bool)
      requires Valid() && p < |state|
      modifies `state, rq`items, rq.ring
      ensures Valid() && woken == old(Wakes(T(), p, onalert))
      ensures T() == if woken then Activated(old(T()), p) else old(T())
      ensures woken <==>
              old(state)[p] == UNUSED || old(state)[p] == SLEEPING || (old(state)[p] == DEEPSLEEPING && !onalert)
      ensures woken ==> state == old(state)[p := RUNNABLE] && rq.items == [p] + old(rq.items)
    {
      hide CpusOk;
      if state[p] == RUNNING || state[p] == RUNNABLE || state[p] == ZOMBIE || (state[p] == DEEPSLEEPING && onalert) {
        return false;
      }
      if state[p] == SLEEPING || state[p] == UNUSED || (state[p] == DEEPSLEEPING && !onalert) {
        ActivateKeeps(T(), p, onalert);
        state := state[p := RUNNABLE];
        rq.PushFront(p);
      }
      woken := true;
    }

    method UpdateThisState(c: nat, newState: ProcState)
      requires Valid() && c < NCPU
      modifies `state, rq`items, rq.ring
      ensures T() == Updated(old(T()), c, newState) && rq.Valid()
    {
      hide CpusOk, Detached;
      var p := cpu[c];
      if p != c && (state[p] == RUNNING || state[p] == RUNNABLE) { rq.Remove(p); }
      state := state[p := newState];
      if p != c && (state[p] == RUNNING || state[p] == RUNNABLE) { rq.PushBack(p); }
    }

    /** `pick_next`, along the links of the queue. */
    method Pick(c: nat) returns (p: nat)
      requires rq.Valid() && Shaped(T()) && c < NCPU && rq.head == |state|
      ensures p == if panicking then c else PickNext(T(), c, rq.items)
    {
      if panicking { return c; }
      p := rq.After(rq.head, 0);
      ghost var i := 0;
      while p != rq.head
        invariant i <= |rq.items| && p == if i < |rq.items| then rq.items[i] else rq.head
        invariant PickNext(T(), c, rq.items) == PickNext(T(), c, rq.items[i..])
        decreases |rq.items| - i
      {
        if state[p] == RUNNABLE { return; }
        p := rq.After(p, i + 1);
        i := i + 1;
      }
      p := c;
    }

    /** `sched`: the assertions it makes are proved here, not assumed. */
    method Sched(c: nat, newState: ProcState)
      requires Valid() && c < NCPU && newState != RUNNING && (cpu[c] == c ==> newState == RUNNABLE)
      modifies `state, `cpu, rq`items, rq.ring
      ensures Switched(old(T()), c, newState, panicking) == Done(T()) && Valid()
      ensures old(T()).killed[old(T()).cpu[c]] && newState != ZOMBIE ==> T() == old(T())
      ensures !(old(T()).killed[old(T()).cpu[c]] && newState != ZOMBIE) ==>
              |state| == |old(state)| && RoundRobin(old(T()), T(), c, newState, panicking)
    {
      hide Detached, Updated, PickNext, IdleOk, QueueOk, RoundRobin;
      SwitchKeeps(T(), c, newState, panicking);
      if !(killed[cpu[c]] && newState != ZOMBIE) { SwitchRobin(T(), c, newState, panicking); }
      var current := cpu[c];
      assert state[current] == RUNNING;
      if killed[current] && newState != ZOMBIE { return; }
      ShapedUpdate(T(), c, newState);
      UpdateThisState(c, newState);
      var next := Pick(c);
      cpu := cpu[c := next];
      assert state[next] == RUNNABLE;
      state := state[next := RUNNING];
    }
  }
}
