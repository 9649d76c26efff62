/**
  The process tree of `src/kernel/proc.c`: creation, exit, wait, reparenting and PID reuse, as
  steps between lock operations.  Processes are named in order of creation; 0 is `root_proc`.
  The `childexit` semaphore is its number of tokens.
 */
module ProcTree {
  import opened Common
  import opened Lists
  import opened SpinLocks

  datatype Life = UNUSED | ACTIVE | ZOMBIE

  /**
    Where a process is: in its body; making child q, which is not in the tree yet; having placed q,
    not started yet; in `wait` with a token taken; or in `exit`: holding `plock`, owing k tokens to
    the root after handing its children over, having told its parent, with only the scheduler lock,
    and gone.
   */
  datatype Pc = Body | Making(q: nat) | Placed(q: nat) | Claimed | Leaving | Owing(k: nat) | Told | Dying | Gone

  datatype Parent = NoParent | Of(p: nat)

  datatype Proc = Proc(life: Life, parent: Parent, children: seq<nat>, tokens: nat, pid: nat, pc: Pc)

  datatype Sys = Sys(procs: map<nat, Proc>, next: nat, plock: Holder, slock: Holder, maxPid: nat, free: seq<nat>)

  // ----- the invariant -----

  predicate Posted(pc: Pc) {
    pc.Told? || pc.Dying? || pc.Gone?
  }

  /** Past handing its children over. */
  predicate Left(pc: Pc) {
    pc.Owing? || Posted(pc)
  }

  predicate HoldsPlock(pc: Pc) {
    pc.Leaving? || pc.Owing? || pc.Told?
  }

  /** Parent pointers and child lists agree; a parent is older than its child and has not left. */
  ghost predicate TreeAt(procs: map<nat, Proc>, next: nat, p: nat)
    requires p in procs
  {
    && p < next && Distinct(procs[p].children)
    && (forall c | c in procs[p].children :: c in procs && c != 0 && procs[c].parent == Of(p))
    && (p != 0 && procs[p].parent.Of? ==> ParentOk(procs, p, procs[p].parent.p))
  }

  ghost predicate ParentOk(procs: map<nat, Proc>, c: nat, p: nat) {
    p < c && p in procs && c in procs[p].children && !Left(procs[p].pc)
  }

  predicate RootOk(r: Proc) {
    r.parent == Of(0) && r.life == ACTIVE && !Left(r.pc) && !r.pc.Leaving?
  }

  ghost predicate TreeOk(procs: map<nat, Proc>, next: nat) {
    0 in procs && RootOk(procs[0]) && forall p {:trigger TreeAt(procs, next, p)} | p in procs :: TreeAt(procs, next, p)
  }

  /** Who holds the two locks, who is a zombie, who is not started yet. */
  ghost predicate StageAt(s: Sys, p: nat)
    requires p in s.procs
  {
    var x := s.procs[p];
    && (HoldsPlock(x.pc) <==> s.plock == By(p))
    && (x.pc.Dying? <==> s.slock == By(p))
    && (x.life == ZOMBIE <==> x.pc.Gone?)
    && (x.life == UNUSED ==> x.pc.Body? && x.children == [] && x.tokens == 0)
    && (x.parent.NoParent? ==> x.life == UNUSED)
    && (Makes(x.pc) != -1 ==> MakesOk(s.procs, p, x.pc.q, x.pc.Making?))
  }

  ghost predicate MakesOk(procs: map<nat, Proc>, p: nat, q: nat, unplaced: bool) {
    q in procs && p < q && procs[q].life == UNUSED && procs[q].parent.NoParent? == unplaced
  }

  ghost predicate Rivals(s: Sys, p: nat, r: nat)
    requires p in s.procs && r in s.procs
  {
    Makes(s.procs[p].pc) == Makes(s.procs[r].pc) != -1 ==> p == r
  }

  ghost predicate StagesOk(s: Sys) {
    && (forall p {:trigger StageAt(s, p)} | p in s.procs :: StageAt(s, p))
    && (forall p, r {:trigger Rivals(s, p, r)} | p in s.procs && r in s.procs :: Rivals(s, p, r))
    && (s.plock.By? ==> s.plock.p in s.procs)
    && (s.slock.By? ==> s.slock.p in s.procs)
  }

  function Makes(pc: Pc): int {
    if pc.Making? || pc.Placed? then pc.q else -1
  }

  /** The children that have told p, whether zombies already or about to be. */
  ghost function Tellers(procs: map<nat, Proc>, p: nat): set<nat> {
    set c | c in procs && c != 0 && procs[c].parent == Of(p) && Posted(procs[c].pc)
  }

  /** Tokens still owed to the root by a process that is handing its children over. */
  ghost function Owed(s: Sys): nat {
    if s.plock.By? && s.plock.p in s.procs && s.procs[s.plock.p].pc.Owing? then s.procs[s.plock.p].pc.k else 0
  }

  ghost predicate Balanced(s: Sys, p: nat)
    requires p in s.procs
  {
    s.procs[p].tokens + (if s.procs[p].pc.Claimed? then 1 else 0) + (if p == 0 then Owed(s) else 0) ==
        |Tellers(s.procs, p)|
  }

  ghost predicate TokensOk(s: Sys) {
    forall p {:trigger Balanced(s, p)} | p in s.procs && !Left(s.procs[p].pc) :: Balanced(s, p)
  }

  /** {1..maxPid} is the disjoint union of the PIDs in use and the free ones. */
  ghost predicate PidsOk(s: Sys) {
    && Distinct(s.free)
    && (forall n | n in s.free :: 1 <= n <= s.maxPid)
    && (forall p {:trigger PidAt(s, p)} | p in s.procs :: PidAt(s, p))
    && (forall p, r {:trigger PidRivals(s, p, r)} | p in s.procs && r in s.procs :: PidRivals(s, p, r))
    && (forall n: nat {:trigger InUse(s, n)} | 1 <= n <= s.maxPid :: n in s.free || InUse(s, n))
  }

  ghost predicate PidAt(s: Sys, p: nat)
    requires p in s.procs
  {
    1 <= s.procs[p].pid <= s.maxPid && s.procs[p].pid !in s.free
  }

  ghost predicate PidRivals(s: Sys, p: nat, r: nat)
    requires p in s.procs && r in s.procs
  {
    s.procs[p].pid == s.procs[r].pid ==> p == r
  }

  ghost predicate InUse(s: Sys, n: nat) {
    exists p :: p in s.procs && s.procs[p].pid == n
  }

  ghost predicate Inv(s: Sys) {
    TreeOk(s.procs, s.next) && StagesOk(s) && TokensOk(s) && PidsOk(s)
  }

  // ----- the steps -----

  datatype Action = Create | Place | PlaceAtRoot | Start | Claim | Reap | Leave | HandOver | PostRoot | PostParent
    | Commit | Die

  /** `wait`'s scan: the first zombie of the list. */
  function FirstZombie(procs: map<nat, Proc>, list: seq<nat>): (r: Parent)
    requires forall c | c in list :: c in procs
    ensures r.Of? ==> r.p in list && procs[r.p].life == ZOMBIE
    ensures r.Of? ==> exists k: nat :: FirstAt(procs, list, k) && list[k] == r.p
    ensures r.NoParent? ==> forall c | c in list :: procs[c].life != ZOMBIE
  {
    if list == [] then NoParent
    else if procs[list[0]].life == ZOMBIE then assert FirstAt(procs, list, 0); Of(list[0])
    else FirstLater(procs, list); FirstZombie(procs, list[1..])
  }

  /** Position k holds a zombie, and no position before it does. */
  predicate FirstAt(procs: map<nat, Proc>, list: seq<nat>, k: nat) {
    && k < |list| && list[k] in procs && procs[list[k]].life == ZOMBIE
    && (forall j: nat | j < k :: list[j] in procs && procs[list[j]].life != ZOMBIE)
  }

  lemma {:induction false} FirstLater(procs: map<nat, Proc>, list: seq<nat>)
    requires list != [] && list[0] in procs && procs[list[0]].life != ZOMBIE
    ensures forall k: nat | FirstAt(procs, list[1..], k) :: FirstAt(procs, list, k + 1)
  {
    forall k: nat | FirstAt(procs, list[1..], k) ensures FirstAt(procs, list, k + 1) {
      forall j: nat | j < k + 1 ensures list[j] in procs && procs[list[j]].life != ZOMBIE {
        if j > 0 { assert list[1..][j - 1] == list[j]; }
      }
    }
  }

  /** `exit`'s scan: how many zombies the list holds. */
  function Zombies(procs: map<nat, Proc>, list: seq<nat>): nat
    requires forall c | c in list :: c in procs
  {
    if list == [] then 0 else (if procs[list[0]].life == ZOMBIE then 1 else 0) + Zombies(procs, list[1..])
  }

  function Reparented(procs: map<nat, Proc>, list: seq<nat>): (r: map<nat, Proc>)
    ensures r.Keys == procs.Keys
    ensures forall c | c in procs :: r[c] == if c in list then procs[c].(parent := Of(0)) else procs[c]
  {
    map c | c in procs :: if c in list then procs[c].(parent := Of(0)) else procs[c]
  }

  function GetPid(s: Sys): (nat, Sys) {
    if s.free == [] then (s.maxPid + 1, s.(maxPid := s.maxPid + 1)) else (s.free[0], s.(free := s.free[1..]))
  }

  function Adopt(procs: map<nat, Proc>, p: nat, q: nat): map<nat, Proc>
    requires p in procs && q in procs && p != q
  {
    procs[p := procs[p].(children := [q] + procs[p].children)][q := procs[q].(parent := Of(p))]
  }

  /** Process p takes a step; None when the step does not apply or a lock is taken. */
  datatype Result = Blocked | Lost | Step(s: Sys)

  predicate Wellformed(s: Sys) {
    && 0 in s.procs
    && (forall p, c | p in s.procs && c in s.procs[p].children :: c in s.procs)
    && (forall p | p in s.procs && (s.procs[p].pc.Making? || s.procs[p].pc.Placed?) ::
          s.procs[p].pc.q in s.procs && s.procs[p].pc.q != p && s.procs[p].pc.q != 0)
    && (forall p | p in s.procs && s.procs[p].pc.Owing? ::
          p != 0 && s.procs[p].parent.Of? && s.procs[p].parent.p in s.procs && s.procs[p].parent.p != p)
  }

  /** Process p, seen as itself, moves. */
  function Move(s: Sys, p: nat, pc: Pc): map<nat, Proc>
    requires p in s.procs
  {
    s.procs[p := s.procs[p].(pc := pc)]
  }

  function Created(s: Sys, p: nat): Sys
    requires p in s.procs
  {
    var (pid, u) := GetPid(s);
    u.(procs := Move(s, p, Making(s.next))[s.next := Proc(UNUSED, NoParent, [], 0, pid, Body)], next := s.next + 1)
  }

  function PlacedUnder(s: Sys, p: nat, q: nat, r: nat): Sys
    requires p in s.procs && q in s.procs && r in s.procs && q != r
  {
    s.(procs := Adopt(Move(s, p, Placed(q)), r, q))
  }

  function Started(s: Sys, p: nat, q: nat): Sys
    requires p in s.procs && q in s.procs
  {
    s.(procs := Move(s, p, Body)[q := s.procs[q].(life := ACTIVE)])
  }

  function TokenTaken(s: Sys, p: nat): Sys
    requires p in s.procs && s.procs[p].tokens > 0
  {
    s.(procs := s.procs[p := s.procs[p].(tokens := s.procs[p].tokens - 1, pc := Claimed)])
  }

  function Reaped(s: Sys, p: nat, z: nat): Sys
    requires p in s.procs && z in s.procs
  {
    s.(procs := s.procs[p := s.procs[p].(pc := Body, children := Detached(s.procs[p].children, z))] - {z},
        free := [s.procs[z].pid] + s.free)
  }

  function HandedOver(s: Sys, p: nat): Sys
    requires 0 in s.procs && p in s.procs && forall c | c in s.procs[p].children :: c in s.procs
  {
    var mine := s.procs[p].children;
    var r := Reparented(s.procs, mine);
    s.(procs := r[0 := r[0].(children := mine + r[0].children)][p :=
        r[p].(children := [], pc := Owing(Zombies(s.procs, mine)))])
  }

  function TokenPosted(s: Sys, p: nat, q: nat, pc: Pc): Sys
    requires p in s.procs && q in s.procs
  {
    s.(procs := s.procs[q := s.procs[q].(tokens := s.procs[q].tokens + 1)][p := s.procs[p].(pc := pc)])
  }

  function Next(s: Sys, p: nat, a: Action): Result
    requires Wellformed(s) && p in s.procs
  {
    var x := s.procs[p];
    if x.life != ACTIVE then Blocked
    else match a
      case Create => if !x.pc.Body? || s.plock != Nobody then Blocked else Step(Created(s, p))
      case Place => if !x.pc.Making? || s.plock != Nobody then Blocked else Step(PlacedUnder(s, p, x.pc.q, p))
      case PlaceAtRoot => if !x.pc.Making? || s.plock != Nobody then Blocked else Step(PlacedUnder(s, p, x.pc.q, 0))
      case Start => if !x.pc.Placed? || s.slock != Nobody then Blocked else Step(Started(s, p, x.pc.q))
      case Claim => if !x.pc.Body? || x.tokens == 0 then Blocked else Step(TokenTaken(s, p))
      case Reap =>
        if !x.pc.Claimed? || s.plock != Nobody || s.slock != Nobody then Blocked
        else var z := FirstZombie(s.procs, x.children);
          if z.Of? then Step(Reaped(s, p, z.p)) else Lost
      case Leave => if !x.pc.Body? || s.plock != Nobody || p == 0 then Blocked
          else Step(s.(procs := Move(s, p, Leaving), plock := By(p)))
      case HandOver => if !x.pc.Leaving? || s.slock != Nobody then Blocked else Step(HandedOver(s, p))
      case PostRoot => if !x.pc.Owing? || x.pc.k == 0 then Blocked else Step(TokenPosted(s, p, 0, Owing(x.pc.k - 1)))
      case PostParent => if !x.pc.Owing? || x.pc.k > 0 then Blocked else Step(TokenPosted(s, p, x.parent.p, Told))
      case Commit => if !x.pc.Told? || s.slock != Nobody then Blocked
          else Step(s.(procs := Move(s, p, Dying), plock := Nobody, slock := By(p)))
      case Die => if !x.pc.Dying? then Blocked
          else Step(s.(procs := s.procs[p := x.(pc := Gone, life := ZOMBIE)], slock := Nobody))
  }

  lemma {:induction false} InvWellformed(s: Sys)
    requires Inv(s)
    ensures Wellformed(s)
  {
    hide TokensOk, PidsOk;
    forall p, c | p in s.procs && c in s.procs[p].children ensures c in s.procs { assert TreeAt(s.procs, s.next, p); }
    forall p | p in s.procs && (s.procs[p].pc.Making? || s.procs[p].pc.Placed?)
      ensures s.procs[p].pc.q in s.procs && s.procs[p].pc.q != p && s.procs[p].pc.q != 0
    {
      assert StageAt(s, p);
    }
    forall p | p in s.procs && s.procs[p].pc.Owing?
      ensures p != 0 && s.procs[p].parent.Of? && s.procs[p].parent.p in s.procs && s.procs[p].parent.p != p
    {
      assert StageAt(s, p);
      assert TreeAt(s.procs, s.next, p);
    }
  }

  // ----- steps that leave the tree or the PIDs alone -----

  ghost predicate SameLinks(a: map<nat, Proc>, b: map<nat, Proc>) {
    && a.Keys == b.Keys
    && forall x | x in a :: b[x].parent == a[x].parent && b[x].children == a[x].children && b[x].pid == a[x].pid
  }

  lemma {:induction false} TreeRead(procs: map<nat, Proc>, next: nat, p: nat)
    requires TreeOk(procs, next) && p in procs
    ensures TreeAt(procs, next, p) && 0 in procs && RootOk(procs[0])
  {
  }

  lemma {:induction false} StageRead(s: Sys, p: nat)
    requires StagesOk(s) && p in s.procs
    ensures StageAt(s, p) && (s.plock.By? ==> s.plock.p in s.procs) && (s.slock.By? ==> s.slock.p in s.procs)
  {
  }

  lemma {:induction false} TreeSame(a: map<nat, Proc>, b: map<nat, Proc>, next: nat)
    requires TreeOk(a, next) && SameLinks(a, b) && RootOk(b[0])
    requires forall x | x in a && Left(b[x].pc) :: Left(a[x].pc)
    ensures TreeOk(b, next)
  {
    forall x | x in b ensures TreeAt(b, next, x) { assert TreeAt(a, next, x); }
  }

  lemma {:induction false} PidsSame(s: Sys, s': Sys)
    requires PidsOk(s) && s'.free == s.free && s'.maxPid == s.maxPid && SameIds(s, s')
    ensures PidsOk(s')
  {
    forall x | x in s'.procs ensures PidAt(s', x) { assert PidAt(s, x); }
    forall x, y | x in s'.procs && y in s'.procs ensures PidRivals(s', x, y) { assert PidRivals(s, x, y); }
    forall n: nat | 1 <= n <= s.maxPid ensures n in s'.free || InUse(s', n) {
      if InUse(s, n) {
        var x :| x in s.procs && s.procs[x].pid == n;
        assert x in s'.procs && s'.procs[x].pid == n;
      }
    }
  }

  ghost predicate SameIds(s: Sys, s': Sys) {
    s'.procs.Keys == s.procs.Keys && forall x | x in s.procs :: s'.procs[x].pid == s.procs[x].pid
  }

  /** Process p moves to another stage and perhaps takes or releases a lock. */
  lemma {:induction false} StagesMove(s: Sys, s': Sys, p: nat)
    requires StagesOk(s) && p in s.procs && SameIds(s, s')
    requires forall x | x in s.procs && x != p :: s'.procs[x].pc == s.procs[x].pc
    requires forall x | x in s.procs && x != p ::
             s'.procs[x].life == s.procs[x].life && s'.procs[x].parent.NoParent? == s.procs[x].parent.NoParent?
    requires forall x | x in s.procs && x != p && s.procs[x].life == UNUSED ::
             s'.procs[x].children == [] && s'.procs[x].tokens == 0
    requires s.procs[p].life != UNUSED && s'.procs[p].life != UNUSED && s'.procs[p].parent.Of?
    requires forall x | x in s.procs && x != p ::
             (s'.plock == By(x) <==> s.plock == By(x)) && (s'.slock == By(x) <==> s.slock == By(x))
    requires s'.plock.By? ==> s'.plock.p in s.procs
    requires s'.slock.By? ==> s'.slock.p in s.procs
    requires Makes(s'.procs[p].pc) == -1 && Makes(s.procs[p].pc) == -1
    requires StageAt(s', p)
    ensures StagesOk(s')
  {
    forall x | x in s'.procs ensures StageAt(s', x) { assert StageAt(s, x); }
    forall x, y | x in s'.procs && y in s'.procs ensures Rivals(s', x, y) { assert Rivals(s, x, y); }
  }

  lemma {:induction false} TellersSame(a: map<nat, Proc>, b: map<nat, Proc>, p: nat)
    requires a.Keys == b.Keys && forall x | x in a :: b[x].parent == a[x].parent && Posted(b[x].pc) == Posted(a[x].pc)
    ensures Tellers(b, p) == Tellers(a, p)
  {
  }

  function Claims(pc: Pc): int {
    if pc.Claimed? then 1 else 0
  }

  lemma {:induction false} TokensSame(s: Sys, s': Sys)
    requires TokensOk(s) && s'.procs.Keys == s.procs.Keys
    requires forall x | x in s.procs ::
             s'.procs[x].parent == s.procs[x].parent && Posted(s'.procs[x].pc) == Posted(s.procs[x].pc)
    requires forall x | x in s.procs && x != 0 ::
             s'.procs[x].tokens + Claims(s'.procs[x].pc) == s.procs[x].tokens + Claims(s.procs[x].pc)
    requires 0 in s.procs ==>
             s'.procs[0].tokens + Claims(s'.procs[0].pc) + Owed(s') ==
             s.procs[0].tokens + Claims(s.procs[0].pc) + Owed(s)
    requires forall x | x in s.procs && Left(s.procs[x].pc) :: Left(s'.procs[x].pc)
    ensures TokensOk(s')
  {
    forall x | x in s'.procs && !Left(s'.procs[x].pc) ensures Balanced(s', x) {
      assert Balanced(s, x);
      TellersSame(s.procs, s'.procs, x);
    }
  }

  // ----- claiming, leaving, committing, dying -----

  lemma {:induction false} ClaimStages(s: Sys, p: nat)
    requires Inv(s) && p in s.procs && s.procs[p].life == ACTIVE && s.procs[p].pc.Body? && s.procs[p].tokens > 0
    ensures StagesOk(TokenTaken(s, p)) && RootOk(TokenTaken(s, p).procs[0])
  {
    hide TokensOk, PidsOk;
    assert StageAt(s, p) && TreeAt(s.procs, s.next, p) && RootOk(s.procs[0]);
    hide TreeOk;
    UnusedStays(s);
    StagesMove(s, TokenTaken(s, p), p);
  }

  lemma {:induction false} ClaimKeeps(s: Sys, p: nat)
    requires Inv(s) && p in s.procs && s.procs[p].life == ACTIVE && s.procs[p].pc.Body? && s.procs[p].tokens > 0
    ensures Inv(TokenTaken(s, p))
  {
    ClaimStages(s, p);
    var s' := TokenTaken(s, p);
    assert StageAt(s, p);
    hide TreeOk, StagesOk, TokensOk, PidsOk;
    TreeSame(s.procs, s'.procs, s.next);
    PidsSame(s, s');
    TokensSame(s, s');
  }

  lemma {:induction false} UnusedStays(s: Sys)
    requires StagesOk(s)
    ensures forall x | x in s.procs && s.procs[x].life == UNUSED :: s.procs[x].children == [] && s.procs[x].tokens == 0
  {
    forall x | x in s.procs && s.procs[x].life == UNUSED ensures s.procs[x].children == [] && s.procs[x].tokens == 0 {
      assert StageAt(s, x);
    }
  }

  lemma {:induction false} LeaveKeeps(s: Sys, p: nat)
    requires Inv(s) && p in s.procs && p != 0 && s.procs[p].life == ACTIVE && s.procs[p].pc.Body? && s.plock == Nobody
    ensures Inv(s.(procs := Move(s, p, Leaving), plock := By(p)))
  {
    var s' := s.(procs := Move(s, p, Leaving), plock := By(p));
    hide TreeOk, StagesOk, TokensOk, PidsOk;
    TreeRead(s.procs, s.next, p);
    StageRead(s, p);
    TreeSame(s.procs, s'.procs, s.next);
    PidsSame(s, s');
    UnusedStays(s);
    StagesMove(s, s', p);
    TokensSame(s, s');
  }

  lemma {:induction false} CommitKeeps(s: Sys, p: nat)
    requires Inv(s) && p in s.procs && s.procs[p].life == ACTIVE && s.procs[p].pc.Told? && s.slock == Nobody
    ensures Inv(s.(procs := Move(s, p, Dying), plock := Nobody, slock := By(p)))
  {
    var s' := s.(procs := Move(s, p, Dying), plock := Nobody, slock := By(p));
    hide TreeOk, StagesOk, TokensOk, PidsOk;
    TreeRead(s.procs, s.next, p);
    StageRead(s, p);
    TreeSame(s.procs, s'.procs, s.next);
    PidsSame(s, s');
    UnusedStays(s);
    StagesMove(s, s', p);
    TokensSame(s, s');
  }

  lemma {:induction false} DieKeeps(s: Sys, p: nat)
    requires Inv(s) && p in s.procs && s.procs[p].life == ACTIVE && s.procs[p].pc.Dying?
    ensures Inv(s.(procs := s.procs[p := s.procs[p].(pc := Gone, life := ZOMBIE)], slock := Nobody))
  {
    var s' := s.(procs := s.procs[p := s.procs[p].(pc := Gone, life := ZOMBIE)], slock := Nobody);
    hide TreeOk, StagesOk, TokensOk, PidsOk;
    TreeRead(s.procs, s.next, p);
    StageRead(s, p);
    TreeSame(s.procs, s'.procs, s.next);
    PidsSame(s, s');
    DiedStages(s, p);
    TokensSame(s, s');
  }

  lemma {:induction false} DiedStages(s: Sys, p: nat)
    requires StagesOk(s) && p in s.procs && s.procs[p].life == ACTIVE && s.procs[p].pc.Dying?
    ensures StagesOk(s.(procs := s.procs[p := s.procs[p].(pc := Gone, life := ZOMBIE)], slock := Nobody))
  {
    var s' := s.(procs := s.procs[p := s.procs[p].(pc := Gone, life := ZOMBIE)], slock := Nobody);
    hide StagesOk;
    StageRead(s, p);
    UnusedStays(s);
    StagesMove(s, s', p);
  }

  // ----- posting -----

  /** A token moves and nothing else that the tree and the PIDs depend on. */
  lemma {:induction false} PostedLinks(s: Sys, p: nat, q: nat, pc: Pc)
    requires TreeOk(s.procs, s.next) && PidsOk(s) && p in s.procs && q in s.procs && p != 0 && p != q
             && Left(s.procs[p].pc)
    ensures TreeOk(TokenPosted(s, p, q, pc).procs, s.next) && PidsOk(TokenPosted(s, p, q, pc))
  {
    var s' := TokenPosted(s, p, q, pc);
    hide TreeOk, PidsOk;
    TreeRead(s.procs, s.next, p);
    TreeSame(s.procs, s'.procs, s.next);
    PidsSame(s, s');
  }

  lemma {:induction false} PostedStages(s: Sys, p: nat, q: nat, pc: Pc)
    requires StagesOk(s) && p in s.procs && q in s.procs && p != 0 && p != q && s.procs[q].life != UNUSED
    requires s.procs[p].life == ACTIVE && s.procs[p].pc.Owing? && (pc.Owing? || pc.Told?)
    ensures StagesOk(TokenPosted(s, p, q, pc))
  {
    var s' := TokenPosted(s, p, q, pc);
    hide StagesOk;
    StageRead(s, p);
    UnusedStays(s);
    StagesMove(s, s', p);
  }

  lemma {:induction false} PostRootKeeps(s: Sys, p: nat)
    requires Inv(s) && p in s.procs && s.procs[p].life == ACTIVE && s.procs[p].pc.Owing? && s.procs[p].pc.k > 0
    ensures 0 in s.procs && Inv(TokenPosted(s, p, 0, Owing(s.procs[p].pc.k - 1)))
  {
    var s' := TokenPosted(s, p, 0, Owing(s.procs[p].pc.k - 1));
    hide TreeOk, StagesOk, TokensOk, PidsOk;
    TreeRead(s.procs, s.next, p);
    StageRead(s, p);
    PostedLinks(s, p, 0, s'.procs[p].pc);
    PostedStages(s, p, 0, s'.procs[p].pc);
    TokensSame(s, s');
  }

  /** The parent is alive and not leaving, because whoever is leaving holds the lock p holds. */
  lemma {:induction false} PostParentKeeps(s: Sys, p: nat)
    requires Inv(s) && p in s.procs && s.procs[p].life == ACTIVE && s.procs[p].pc.Owing? && s.procs[p].pc.k == 0
    ensures s.procs[p].parent.Of? && s.procs[p].parent.p in s.procs && Inv(TokenPosted(s, p, s.procs[p].parent.p, Told))
  {
    hide TreeOk, StagesOk, TokensOk, PidsOk;
    TreeRead(s.procs, s.next, p);
    StageRead(s, p);
    var q := s.procs[p].parent.p;
    StageRead(s, q);
    PostedLinks(s, p, q, Told);
    PostedStages(s, p, q, Told);
    PostParentTokens(s, p, q);
  }

  lemma {:induction false} PostParentTokens(s: Sys, p: nat, q: nat)
    requires Inv(s) && p in s.procs && q in s.procs && q != p && p != 0 && s.procs[p].parent == Of(q)
             && s.procs[p].pc == Owing(0)
    ensures TokensOk(TokenPosted(s, p, q, Told))
  {
    var s' := TokenPosted(s, p, q, Told);
    assert StageAt(s, p);
    forall x | x in s'.procs && !Left(s'.procs[x].pc) ensures Balanced(s', x) {
      assert Balanced(s, x);
      if x == q {
        assert Tellers(s'.procs, x) == Tellers(s.procs, x) + {p};
        assert p !in Tellers(s.procs, x);
      } else {
        assert Tellers(s'.procs, x) == Tellers(s.procs, x);
      }
    }
  }

  // ----- creating -----

  lemma {:induction false} CreatedTree(s: Sys, p: nat)
    requires Inv(s) && p in s.procs && s.procs[p].life == ACTIVE && s.procs[p].pc.Body?
    ensures s.next !in s.procs && TreeOk(Created(s, p).procs, s.next + 1)
  {
    hide StagesOk, TokensOk, PidsOk;
    forall x | x in s.procs ensures x < s.next { assert TreeAt(s.procs, s.next, x); }
    var b := Created(s, p).procs;
    assert TreeAt(s.procs, s.next, p);
    forall x | x in b ensures TreeAt(b, s.next + 1, x) {
      if x != s.next { assert TreeAt(s.procs, s.next, x); }
    }
  }

  lemma {:induction false} CreatedStages(s: Sys, p: nat)
    requires Inv(s) && p in s.procs && s.procs[p].life == ACTIVE && s.procs[p].pc.Body? && s.next !in s.procs
             && s.plock == Nobody
    ensures StagesOk(Created(s, p))
  {
    hide TokensOk, PidsOk;
    var s' := Created(s, p);
    assert StageAt(s, p) && TreeAt(s.procs, s.next, p);
    hide TreeOk;
    forall x | x in s'.procs ensures StageAt(s', x) {
      if x != s.next { assert StageAt(s, x); }
    }
    forall x, y | x in s'.procs && y in s'.procs ensures Rivals(s', x, y) {
      if x != s.next && y != s.next {
        assert Rivals(s, x, y);
        assert StageAt(s, x) && StageAt(s, y);
      }
    }
  }

  lemma {:induction false} CreatedTokens(s: Sys, p: nat)
    requires Inv(s) && p in s.procs && s.procs[p].life == ACTIVE && s.procs[p].pc.Body? && s.next !in s.procs
             && s.plock == Nobody
    ensures TokensOk(Created(s, p))
  {
    hide PidsOk, StagesOk;
    var s' := Created(s, p);
    forall x | x in s'.procs && !Left(s'.procs[x].pc) ensures Balanced(s', x) {
      if x == s.next {
        forall c | c in s.procs && c != 0 ensures s.procs[c].parent != Of(x) { assert TreeAt(s.procs, s.next, c); }
        assert Tellers(s'.procs, x) == {};
        assert x != 0;
      } else {
        assert Balanced(s, x);
        assert Tellers(s'.procs, x) == Tellers(s.procs, x);
      }
    }
  }

  lemma {:induction false} CreatedPids(s: Sys, p: nat)
    requires Inv(s) && p in s.procs && s.next !in s.procs
    ensures PidsOk(Created(s, p))
  {
    hide TreeOk, StagesOk, TokensOk;
    var s' := Created(s, p);
    var pid := GetPid(s).0;
    assert s'.procs[s.next].pid == pid;
    if s.free != [] { TailDistinct(s.free); }
    forall n | n in s'.free ensures n in s.free {
      var i: nat :| i < |s'.free| && s'.free[i] == n;
      assert s.free[i + 1] == n;
    }
    assert pid in s.free || pid == s.maxPid + 1;
    forall x | x in s.procs ensures s.procs[x].pid != pid { assert PidAt(s, x); }
    forall x | x in s'.procs ensures PidAt(s', x) { if x != s.next { assert PidAt(s, x); } }
    forall x, y | x in s'.procs && y in s'.procs ensures PidRivals(s', x, y) {
      if x != s.next && y != s.next { assert PidRivals(s, x, y); }
    }
    forall n: nat | 1 <= n <= s'.maxPid ensures n in s'.free || InUse(s', n) {
      if n == pid {
        assert s.next in s'.procs && s'.procs[s.next].pid == n;
      } else if n in s.free {
        var i: nat :| i < |s.free| && s.free[i] == n;
        assert s.free[1..][i - 1] == n;
      } else {
        assert InUse(s, n);
        var x :| x in s.procs && s.procs[x].pid == n;
        assert x in s'.procs && s'.procs[x].pid == n;
      }
    }
  }

  lemma {:induction false} CreateKeeps(s: Sys, p: nat)
    requires Inv(s) && p in s.procs && s.procs[p].life == ACTIVE && s.procs[p].pc.Body? && s.plock == Nobody
    ensures Inv(Created(s, p))
  {
    CreatedTree(s, p);
    CreatedStages(s, p);
    CreatedTokens(s, p);
    CreatedPids(s, p);
    hide TreeOk, StagesOk, TokensOk, PidsOk;
  }

  /** The child enters the tree, under its maker or under the root. */
  lemma {:induction false} PlacedTree(s: Sys, p: nat, q: nat, r: nat)
    requires Inv(s) && p in s.procs && s.procs[p].pc == Making(q) && (r == p || r == 0)
    ensures q in s.procs && r in s.procs && q != r && q != p && TreeOk(PlacedUnder(s, p, q, r).procs, s.next)
  {
    hide TokensOk, PidsOk;
    assert StageAt(s, p);
    hide StagesOk;
    var b := PlacedUnder(s, p, q, r).procs;
    assert TreeAt(s.procs, s.next, r) && TreeAt(s.procs, s.next, q);
    AddedDistinct(s.procs[r].children, q);
    forall x | x in b ensures TreeAt(b, s.next, x) { PlacedAt(s.procs, b, s.next, p, q, r, x); }
  }

  lemma {:induction false} PlacedAt(a: map<nat, Proc>, b: map<nat, Proc>, next: nat, p: nat, q: nat, r: nat, x: nat)
    requires TreeOk(a, next) && p in a && q in a && r in a && p < q && r < q && a[p].pc == Making(q)
             && a[q].parent.NoParent? && (r == p || r == 0)
    requires b == Adopt(a[p := a[p].(pc := Placed(q))], r, q) && Distinct([q] + a[r].children) && x in a
    ensures TreeAt(b, next, x)
  {
    hide TreeOk, Distinct;
    TreeRead(a, next, x);
    TreeRead(a, next, r);
    PlacedBelow(a, b, next, p, q, r, x);
    if x != 0 && b[x].parent.Of? { PlacedAbove(a, b, next, p, q, r, x); }
  }

  lemma {:induction false} PlacedBelow(a: map<nat, Proc>, b: map<nat, Proc>, next: nat, p: nat, q: nat, r: nat, x: nat)
    requires p in a && q in a && r in a && x in a && p != q && r < q && a[q].parent.NoParent? && TreeAt(a, next, x)
    requires b == Adopt(a[p := a[p].(pc := Placed(q))], r, q)
    ensures forall c | c in b[x].children :: c in b && c != 0 && b[c].parent == Of(x)
  {
    hide ParentOk, Distinct;
  }

  lemma {:induction false} PlacedAbove(a: map<nat, Proc>, b: map<nat, Proc>, next: nat, p: nat, q: nat, r: nat, x: nat)
    requires p in a && q in a && r in a && x in a && p != q && r < q && a[p].pc == Making(q)
             && (r == p || (r == 0 && RootOk(a[0])))
    requires TreeAt(a, next, x) && b == Adopt(a[p := a[p].(pc := Placed(q))], r, q) && x != 0 && b[x].parent.Of?
    ensures ParentOk(b, x, b[x].parent.p)
  {
    hide Distinct;
  }

  lemma {:induction false} PlacedStages(s: Sys, p: nat, q: nat, r: nat)
    requires Inv(s) && p in s.procs && s.procs[p].pc == Making(q) && (r == p || r == 0) && s.plock == Nobody
             && s.procs[p].life == ACTIVE
    ensures q in s.procs && r in s.procs && q != r && StagesOk(PlacedUnder(s, p, q, r))
  {
    hide TokensOk, PidsOk;
    assert StageAt(s, p) && StageAt(s, r) && s.procs[r].life == ACTIVE;
    hide TreeOk;
    var s' := PlacedUnder(s, p, q, r);
    forall x | x in s'.procs ensures StageAt(s', x) {
      assert StageAt(s, x) && Rivals(s, x, p);
    }
    forall x, y | x in s'.procs && y in s'.procs ensures Rivals(s', x, y) { assert Rivals(s, x, y); }
  }

  lemma {:induction false} PlacedTokens(s: Sys, p: nat, q: nat, r: nat)
    requires Inv(s) && p in s.procs && s.procs[p].pc == Making(q) && (r == p || r == 0) && s.plock == Nobody
    ensures q in s.procs && r in s.procs && q != r && TokensOk(PlacedUnder(s, p, q, r))
  {
    hide PidsOk;
    assert StageAt(s, p) && StageAt(s, q);
    hide TreeOk, StagesOk;
    var s' := PlacedUnder(s, p, q, r);
    forall x | x in s'.procs && !Left(s'.procs[x].pc) ensures Balanced(s', x) {
      assert Balanced(s, x);
      assert Tellers(s'.procs, x) == Tellers(s.procs, x);
    }
  }

  lemma {:induction false} PlaceKeeps(s: Sys, p: nat, q: nat, r: nat)
    requires Inv(s) && p in s.procs && s.procs[p].pc == Making(q) && (r == p || r == 0) && s.plock == Nobody
             && s.procs[p].life == ACTIVE
    ensures q in s.procs && r in s.procs && q != r && Inv(PlacedUnder(s, p, q, r))
  {
    PlacedTree(s, p, q, r);
    PlacedStages(s, p, q, r);
    PlacedTokens(s, p, q, r);
    PidsSame(s, PlacedUnder(s, p, q, r));
    hide TreeOk, StagesOk, TokensOk, PidsOk;
  }

  lemma {:induction false} StartedStages(s: Sys, p: nat, q: nat)
    requires Inv(s) && p in s.procs && s.procs[p].pc == Placed(q) && s.procs[p].life == ACTIVE
    ensures q in s.procs && q != p && StagesOk(Started(s, p, q))
  {
    hide TokensOk, PidsOk, TreeOk;
    assert StageAt(s, p) && StageAt(s, q);
    var s' := Started(s, p, q);
    forall x | x in s'.procs ensures StageAt(s', x) { assert StageAt(s, x) && Rivals(s, x, p); }
    forall x, y | x in s'.procs && y in s'.procs ensures Rivals(s', x, y) { assert Rivals(s, x, y); }
  }

  lemma {:induction false} StartKeeps(s: Sys, p: nat, q: nat)
    requires Inv(s) && p in s.procs && s.procs[p].pc == Placed(q) && s.procs[p].life == ACTIVE
    ensures q in s.procs && Inv(Started(s, p, q))
  {
    hide TreeOk, StagesOk, TokensOk, PidsOk;
    TreeRead(s.procs, s.next, p);
    StageRead(s, p);
    StageRead(s, q);
    StartedStages(s, p, q);
    StartedLinks(s, p, q);
    TokensSame(s, Started(s, p, q));
  }

  lemma {:induction false} StartedLinks(s: Sys, p: nat, q: nat)
    requires TreeOk(s.procs, s.next) && PidsOk(s) && p in s.procs && q in s.procs && s.procs[p].pc == Placed(q)
    requires q != 0 && q != p && !Left(s.procs[q].pc)
    ensures TreeOk(Started(s, p, q).procs, s.next) && PidsOk(Started(s, p, q))
  {
    hide TreeOk, PidsOk;
    var s' := Started(s, p, q);
    TreeRead(s.procs, s.next, p);
    TreeSame(s.procs, s'.procs, s.next);
    PidsSame(s, s');
  }

  // ----- reaping -----

  /** With both locks free, whoever has told its parent is a zombie already. */
  lemma {:induction false} TellersAreZombies(s: Sys, p: nat)
    requires Inv(s) && s.plock == Nobody && s.slock == Nobody
    ensures forall c | c in Tellers(s.procs, p) :: s.procs[c].life == ZOMBIE
    ensures Tellers(s.procs, p) == set c | c in s.procs && c != 0 && s.procs[c].parent == Of(p)
            && s.procs[c].life == ZOMBIE
  {
    hide TreeOk, TokensOk, PidsOk;
    forall c | c in s.procs ensures Posted(s.procs[c].pc) <==> s.procs[c].life == ZOMBIE { assert StageAt(s, c); }
  }

  /** `wait` always finds a zombie once it has taken a token. */
  lemma {:induction false} WaitFinds(s: Sys, p: nat)
    requires Inv(s) && p in s.procs && s.procs[p].pc.Claimed? && s.plock == Nobody && s.slock == Nobody
    ensures (forall c | c in s.procs[p].children :: c in s.procs) && FirstZombie(s.procs, s.procs[p].children).Of?
  {
    assert TreeAt(s.procs, s.next, p) && Balanced(s, p);
    assert |Tellers(s.procs, p)| > 0;
    var c :| c in Tellers(s.procs, p);
    TellersAreZombies(s, p);
    assert TreeAt(s.procs, s.next, c);
    assert c in s.procs[p].children && s.procs[c].life == ZOMBIE;
  }

  lemma {:induction false} ReapedTree(s: Sys, p: nat, z: nat)
    requires Inv(s) && p in s.procs && z in s.procs[p].children && z in s.procs && s.procs[z].life == ZOMBIE
             && s.procs[p].pc.Claimed?
    ensures z != p && z != 0 && TreeOk(Reaped(s, p, z).procs, s.next)
  {
    hide TokensOk, PidsOk;
    assert TreeAt(s.procs, s.next, p) && StageAt(s, p) && StageAt(s, z) && TreeAt(s.procs, s.next, z);
    hide StagesOk, Detached;
    DetachedDistinct(s.procs[p].children, z);
    var b := Reaped(s, p, z).procs;
    forall x | x in b ensures TreeAt(b, s.next, x) {
      assert TreeAt(s.procs, s.next, x);
      ReapedAt(s.procs, b, s.next, p, z, x);
    }
  }

  lemma {:induction false} ReapedAt(a: map<nat, Proc>, b: map<nat, Proc>, next: nat, p: nat, z: nat, x: nat)
    requires p in a && z in a && x in a && x != z && z != p && Left(a[z].pc) && a[z].parent == Of(p)
    requires TreeAt(a, next, x) && TreeAt(a, next, p) && Distinct(Detached(a[p].children, z))
    requires b == a[p := a[p].(pc := Body, children := Detached(a[p].children, z))] - {z}
    ensures TreeAt(b, next, x)
  {
    hide Distinct, Detached;
  }

  lemma {:induction false} ReapedStages(s: Sys, p: nat, z: nat)
    requires Inv(s) && p in s.procs && z in s.procs && s.procs[z].life == ZOMBIE && s.procs[p].pc.Claimed?
             && s.plock == Nobody && s.slock == Nobody
    ensures StagesOk(Reaped(s, p, z))
  {
    hide TokensOk, PidsOk, TreeOk;
    var s' := Reaped(s, p, z);
    assert StageAt(s, p) && StageAt(s, z);
    forall x | x in s'.procs ensures StageAt(s', x) { assert StageAt(s, x); }
    forall x, y | x in s'.procs && y in s'.procs ensures Rivals(s', x, y) { assert Rivals(s, x, y); }
  }

  lemma {:induction false} ReapedTokens(s: Sys, p: nat, z: nat)
    requires Inv(s) && p in s.procs && z in s.procs[p].children && z in s.procs && s.procs[z].life == ZOMBIE
             && s.procs[p].pc.Claimed? && s.plock == Nobody && z != p && z != 0
    ensures TokensOk(Reaped(s, p, z))
  {
    hide PidsOk;
    var s' := Reaped(s, p, z);
    assert StageAt(s, z) && TreeAt(s.procs, s.next, p);
    hide TreeOk, StagesOk, Detached;
    forall x ensures Tellers(s'.procs, x) == Tellers(s.procs, x) - {z} && (z in Tellers(s.procs, x) <==> x == p) {
      TellersReaped(s.procs, s'.procs, z, x);
    }
    hide Tellers;
    forall x | x in s'.procs && !Left(s'.procs[x].pc) ensures Balanced(s', x) {
      assert Balanced(s, x);
    }
  }

  lemma {:induction false} TellersReaped(a: map<nat, Proc>, b: map<nat, Proc>, z: nat, x: nat)
    requires z in a && b.Keys == a.Keys - {z} && Posted(a[z].pc) && z != 0
    requires forall c | c in b :: b[c].parent == a[c].parent && Posted(b[c].pc) == Posted(a[c].pc)
    ensures Tellers(b, x) == Tellers(a, x) - {z} && (z in Tellers(a, x) <==> a[z].parent == Of(x))
  {
  }

  lemma {:induction false} ReapedPids(s: Sys, p: nat, z: nat)
    requires Inv(s) && p in s.procs && z in s.procs && z != p
    ensures PidsOk(Reaped(s, p, z))
  {
    hide TreeOk, StagesOk, TokensOk;
    var s' := Reaped(s, p, z);
    var pid := s.procs[z].pid;
    assert PidAt(s, z);
    forall x | x in s'.procs ensures PidAt(s', x) { assert PidAt(s, x) && PidRivals(s, x, z); }
    forall x, y | x in s'.procs && y in s'.procs ensures PidRivals(s', x, y) { assert PidRivals(s, x, y); }
    forall n: nat | 1 <= n <= s'.maxPid ensures n in s'.free || InUse(s', n) {
      if n != pid && n !in s.free {
        assert InUse(s, n);
        var x :| x in s.procs && s.procs[x].pid == n;
        assert x in s'.procs && s'.procs[x].pid == n;
      }
    }
  }

  lemma {:induction false} ReapKeeps(s: Sys, p: nat, z: nat)
    requires Inv(s) && p in s.procs && z in s.procs[p].children && z in s.procs && s.procs[z].life == ZOMBIE
             && s.procs[p].pc.Claimed?
    requires s.plock == Nobody && s.slock == Nobody
    ensures Inv(Reaped(s, p, z))
  {
    ReapedTree(s, p, z);
    ReapedStages(s, p, z);
    ReapedTokens(s, p, z);
    ReapedPids(s, p, z);
    hide TreeOk, StagesOk, TokensOk, PidsOk;
  }

  // ----- handing children over -----

  ghost function ZombieSet(procs: map<nat, Proc>, list: seq<nat>): set<nat>
    requires forall c | c in list :: c in procs
  {
    set c | c in list && procs[c].life == ZOMBIE
  }

  lemma {:induction false} ZombiesCounts(procs: map<nat, Proc>, list: seq<nat>)
    requires Distinct(list) && forall c | c in list :: c in procs
    ensures Zombies(procs, list) == |ZombieSet(procs, list)|
  {
    if list != [] {
      TailDistinct(list);
      ZombiesCounts(procs, list[1..]);
      ZombiesFirst(procs, list);
    }
  }

  lemma {:induction false} ZombiesFirst(procs: map<nat, Proc>, list: seq<nat>)
    requires list != [] && list[0] !in list[1..] && forall c | c in list :: c in procs
    ensures |ZombieSet(procs, list)| == |ZombieSet(procs, list[1..])| + (if procs[list[0]].life == ZOMBIE then 1 else 0)
  {
    var all, rest := ZombieSet(procs, list), ZombieSet(procs, list[1..]);
    assert list == [list[0]] + list[1..];
    assert all == if procs[list[0]].life == ZOMBIE then rest + {list[0]} else rest;
  }

  lemma {:induction false} HandedOverAt(s: Sys, b: map<nat, Proc>, p: nat, x: nat)
    requires TreeOk(s.procs, s.next) && p in s.procs && p != 0 && x in s.procs && s.procs[p].parent.Of?
    requires forall c | c in s.procs[p].children :: c in s.procs
    requires b == HandedOver(s, p).procs
    ensures TreeAt(b, s.next, x)
  {
    var a := s.procs;
    assert TreeAt(a, s.next, x) && TreeAt(a, s.next, 0) && TreeAt(a, s.next, p);
    JoinedDistinct(a[p].children, a[0].children);
    hide TreeOk, Distinct, Zombies;
    if x != 0 && a[x].parent.Of? {
      assert ParentOk(b, x, b[x].parent.p);
    }
  }

  lemma {:induction false} HandedOverTokens(s: Sys, p: nat)
    requires Inv(s) && p in s.procs && s.procs[p].life == ACTIVE && s.procs[p].pc.Leaving? && s.slock == Nobody
             && p != 0
    requires forall c | c in s.procs[p].children :: c in s.procs
    ensures TokensOk(HandedOver(s, p))
  {
    hide PidsOk;
    var s' := HandedOver(s, p);
    assert StageAt(s, p) && Owed(s) == 0;
    ZombieTellers(s, p);
    hide TreeOk, StagesOk, Zombies;
    TellersMoved(s, p);
    hide Tellers;
    forall x | x in s'.procs && !Left(s'.procs[x].pc) ensures Balanced(s', x) { assert Balanced(s, x); }
  }

  /** With both locks held, the children to be handed over that count are exactly the zombies among them. */
  lemma {:induction false} ZombieTellers(s: Sys, p: nat)
    requires Inv(s) && p in s.procs && s.procs[p].pc.Leaving? && s.slock == Nobody
    requires forall c | c in s.procs[p].children :: c in s.procs
    ensures |Tellers(s.procs, p)| == Zombies(s.procs, s.procs[p].children)
    ensures forall c | c in s.procs :: c in s.procs[p].children <==> c != 0 && s.procs[c].parent == Of(p)
  {
    hide PidsOk, TokensOk;
    var a := s.procs;
    assert StageAt(s, p) && TreeAt(a, s.next, p);
    forall c | c in a
      ensures (c in a[p].children <==> c != 0 && a[c].parent == Of(p))
              && (c in Tellers(a, p) <==> c in a[p].children && a[c].life == ZOMBIE)
    {
      assert TreeAt(a, s.next, c) && StageAt(s, c);
    }
    hide TreeOk, StagesOk;
    ZombiesCounts(a, a[p].children);
    assert Tellers(a, p) == ZombieSet(a, a[p].children);
  }

  lemma {:induction false} TellersMoved(s: Sys, p: nat)
    requires 0 in s.procs && p in s.procs && p != 0 && forall c | c in s.procs[p].children :: c in s.procs
    requires !Posted(s.procs[p].pc)
             && forall c | c in s.procs :: c in s.procs[p].children <==> c != 0 && s.procs[c].parent == Of(p)
    ensures var b := HandedOver(s, p).procs;
            |Tellers(b, 0)| == |Tellers(s.procs, 0)| + |Tellers(s.procs, p)|
                && forall x | x != 0 && x != p :: Tellers(b, x) == Tellers(s.procs, x)
  {
    hide Zombies;
    var a, b := s.procs, HandedOver(s, p).procs;
    assert Tellers(b, 0) == Tellers(a, 0) + Tellers(a, p) && Tellers(a, 0) !! Tellers(a, p);
    forall x | x != 0 && x != p ensures Tellers(b, x) == Tellers(a, x) {}
  }

  lemma {:induction false} HandOverKeeps(s: Sys, p: nat)
    requires Inv(s) && p in s.procs && s.procs[p].life == ACTIVE && s.procs[p].pc.Leaving? && s.slock == Nobody
    ensures (forall c | c in s.procs[p].children :: c in s.procs) && 0 in s.procs && Inv(HandedOver(s, p))
  {
    assert StageAt(s, p) && TreeAt(s.procs, s.next, p) && p != 0;
    var s' := HandedOver(s, p);
    forall x | x in s'.procs ensures TreeAt(s'.procs, s.next, x) { HandedOverAt(s, s'.procs, p, x); }
    HandedOverTokens(s, p);
    PidsSame(s, s');
    HandedOverStages(s, p);
    hide StagesOk, TokensOk, PidsOk, Zombies;
  }

  lemma {:induction false} HandedOverStages(s: Sys, p: nat)
    requires Inv(s) && p in s.procs && s.procs[p].life == ACTIVE && s.procs[p].pc.Leaving? && s.slock == Nobody
             && p != 0
    requires forall c | c in s.procs[p].children :: c in s.procs
    ensures StagesOk(HandedOver(s, p))
  {
    hide TokensOk, PidsOk, Zombies;
    var s' := HandedOver(s, p);
    UnusedStays(s);
    forall c | c in s.procs[p].children ensures s.procs[c].parent.Of? { assert TreeAt(s.procs, s.next, p); }
    assert StageAt(s, p);
    StagesMove(s, s', p);
  }

  // ----- the main results -----

  /**
    Every step of every process keeps the invariant, and `wait` never comes back without the child
    it was told about.
   */
  lemma {:induction false} NextKeeps(s: Sys, p: nat, a: Action)
    requires Inv(s) && p in s.procs
    ensures Wellformed(s)
    ensures var r := Next(s, p, a); !r.Lost? && (r.Step? ==> Inv(r.s))
  {
    InvWellformed(s);
    hide TreeOk, StagesOk, TokensOk, PidsOk, Created, PlacedUnder, Started, TokenTaken, Reaped, HandedOver, TokenPosted,
        Move, Inv;
    var x := s.procs[p];
    if x.life == ACTIVE {
      match a
      case Create => if x.pc.Body? && s.plock == Nobody { CreateKeeps(s, p); }
      case Place => if x.pc.Making? && s.plock == Nobody { PlaceKeeps(s, p, x.pc.q, p); }
      case PlaceAtRoot => if x.pc.Making? && s.plock == Nobody { PlaceKeeps(s, p, x.pc.q, 0); }
      case Start => if x.pc.Placed? { StartKeeps(s, p, x.pc.q); }
      case Claim => if x.pc.Body? && x.tokens > 0 { ClaimKeeps(s, p); }
      case Reap =>
        if x.pc.Claimed? && s.plock == Nobody && s.slock == Nobody {
          WaitFinds(s, p);
          ReapKeeps(s, p, FirstZombie(s.procs, x.children).p);
        }
      case Leave => if x.pc.Body? && s.plock == Nobody && p != 0 { LeaveKeeps(s, p); }
      case HandOver => if x.pc.Leaving? && s.slock == Nobody { HandOverKeeps(s, p); }
      case PostRoot => if x.pc.Owing? && x.pc.k > 0 { PostRootKeeps(s, p); }
      case PostParent => if x.pc.Owing? && x.pc.k == 0 { PostParentKeeps(s, p); }
      case Commit => if x.pc.Told? && s.slock == Nobody { CommitKeeps(s, p); }
      case Die => if x.pc.Dying? { DieKeeps(s, p); }
    }
  }

  /** Any interleaving of any processes; a step that does not apply changes nothing. */
  ghost function Run(s: Sys, acts: seq<(nat, Action)>): Result
    decreases |acts|
  {
    if acts == [] then Step(s)
    else if !Wellformed(s) then Lost
    else if acts[0].0 !in s.procs then Run(s, acts[1..])
    else match Next(s, acts[0].0, acts[0].1)
      case Blocked => Run(s, acts[1..])
      case Lost => Lost
      case Step(u) => Run(u, acts[1..])
  }

  lemma {:induction false} RunKeeps(s: Sys, acts: seq<(nat, Action)>)
    requires Inv(s)
    ensures Run(s, acts).Step? && Inv(Run(s, acts).s)
    decreases |acts|
  {
    hide Inv, Next, Wellformed;
    if acts != [] {
      InvWellformed(s);
      if acts[0].0 !in s.procs {
        RunKeeps(s, acts[1..]);
      } else {
        NextKeeps(s, acts[0].0, acts[0].1);
        match Next(s, acts[0].0, acts[0].1)
        case Blocked => RunKeeps(s, acts[1..]);
        case Step(u) => RunKeeps(u, acts[1..]);
      }
    }
  }

  // ----- nobody is stuck -----

  /** What the holder of a lock does next. */
  function Onward(pc: Pc): Action {
    match pc
    case Leaving => HandOver
    case Owing(k) => if k > 0 then PostRoot else PostParent
    case Told => Commit
    case _ => Die
  }

  /** By steps of p alone p becomes a zombie and holds no lock any more. */
  ghost predicate Finishes(s: Sys, p: nat, acts: seq<(nat, Action)>)
    requires p in s.procs
  {
    var r := Run(s, acts);
    && r.Step? && p in r.s.procs && r.s.procs[p].life == ZOMBIE && r.s.slock == Nobody
    && r.s.plock == (if HoldsPlock(s.procs[p].pc) then Nobody else s.plock)
    && forall i: nat | i < |acts| :: acts[i].0 == p
  }

  lemma {:induction false} OnwardStep(s: Sys, p: nat)
    requires Inv(s) && p in s.procs && (HoldsPlock(s.procs[p].pc) || s.procs[p].pc.Dying?)
             && (s.slock == Nobody || s.slock == By(p))
    ensures Wellformed(s) && Next(s, p, Onward(s.procs[p].pc)).Step?
    ensures var u := Next(s, p, Onward(s.procs[p].pc)).s;
            && Inv(u) && p in u.procs && (u.slock == Nobody || u.slock == By(p))
            && (s.procs[p].pc.Dying? ==> u.procs[p].life == ZOMBIE && u.slock == Nobody && u.plock == s.plock)
            && (!s.procs[p].pc.Dying? ==>
                  && (HoldsPlock(u.procs[p].pc) || u.procs[p].pc.Dying?)
                  && (if HoldsPlock(u.procs[p].pc) then u.plock == s.plock else u.plock == Nobody)
                  && !u.procs[p].pc.Leaving?
                  && (!s.procs[p].pc.Leaving? ==> Rank(u.procs[p].pc) < Rank(s.procs[p].pc)))
  {
    hide TreeOk, TokensOk, PidsOk, Zombies, Reparented, Detached;
    InvWellformed(s);
    NextKeeps(s, p, Onward(s.procs[p].pc));
    assert StageAt(s, p);
  }

  function Rank(pc: Pc): nat {
    if pc.Owing? then 2 + pc.k else if pc.Told? then 1 else 0
  }

  lemma {:induction false} FinishesFirst(s: Sys, p: nat, rest: seq<(nat, Action)>)
    requires Wellformed(s) && p in s.procs && Next(s, p, Onward(s.procs[p].pc)).Step?
    requires var u := Next(s, p, Onward(s.procs[p].pc)).s;
             && p in u.procs && Finishes(u, p, rest)
             && HoldsPlock(s.procs[p].pc) && (!HoldsPlock(u.procs[p].pc) ==> u.plock == Nobody)
    ensures Finishes(s, p, [(p, Onward(s.procs[p].pc))] + rest)
  {
    hide Next, Wellformed;
    var acts := [(p, Onward(s.procs[p].pc))] + rest;
    assert acts[1..] == rest;
  }

  /** Whoever is leaving can finish. */
  lemma {:induction false} Finish(s: Sys, p: nat) returns (acts: seq<(nat, Action)>)
    requires Inv(s) && p in s.procs && (HoldsPlock(s.procs[p].pc) || s.procs[p].pc.Dying?)
             && (s.slock == Nobody || s.slock == By(p))
    ensures Finishes(s, p, acts)
    decreases s.procs[p].pc.Leaving?, Rank(s.procs[p].pc)
  {
    OnwardStep(s, p);
    hide Inv, Wellformed, Next;
    var u := Next(s, p, Onward(s.procs[p].pc)).s;
    if s.procs[p].pc.Dying? {
      acts := [(p, Die)];
      assert acts[1..] == [] && acts[0].0 in s.procs && Onward(s.procs[p].pc) == Die;
      RunNone(u);
      assert Run(s, acts) == Run(u, []);
    } else {
      var rest := Finish(u, p);
      FinishesFirst(s, p, rest);
      acts := [(p, Onward(s.procs[p].pc))] + rest;
    }
  }

  lemma {:induction false} RunJoin(s: Sys, a: seq<(nat, Action)>, b: seq<(nat, Action)>)
    requires Run(s, a).Step?
    ensures Run(s, a + b) == Run(Run(s, a).s, b)
    decreases |a|
  {
    hide Next, Wellformed;
    if a == [] {
      assert a + b == b;
    } else {
      assert (a + b)[1..] == a[1..] + b && (a + b)[0] == a[0];
      if a[0].0 !in s.procs {
        RunJoin(s, a[1..], b);
      } else {
        match Next(s, a[0].0, a[0].1)
        case Blocked => RunJoin(s, a[1..], b);
        case Step(u) => RunJoin(u, a[1..], b);
      }
    }
  }

  /** From every reachable state the holders of the two locks can go on until both are free. */
  lemma {:induction false} LocksFreed(s: Sys) returns (acts: seq<(nat, Action)>)
    requires Inv(s)
    ensures Run(s, acts).Step? && Inv(Run(s, acts).s) && Run(s, acts).s.plock == Run(s, acts).s.slock == Nobody
  {
    hide TreeOk, TokensOk, PidsOk, Run;
    var first: seq<(nat, Action)> := [];
    RunNone(s);
    if s.slock.By? {
      assert StageAt(s, s.slock.p);
      first := Finish(s, s.slock.p);
    }
    RunKeeps(s, first);
    var u := Run(s, first).s;
    var last: seq<(nat, Action)> := [];
    RunNone(u);
    if u.plock.By? {
      assert StageAt(u, u.plock.p);
      last := Finish(u, u.plock.p);
    }
    RunKeeps(u, last);
    RunJoin(s, first, last);
    acts := first + last;
  }

  lemma {:induction false} RunNone(s: Sys)
    ensures Run(s, []) == Step(s)
  {
  }

  /**
    And then everybody can go on: a process in its body can create, exit, and wait as soon as it has a
    token; one that has made a child can place and start it; one with a token finds its zombie.
   */
  lemma {:induction false} EverybodyMoves(s: Sys, p: nat)
    requires Inv(s) && s.plock == s.slock == Nobody && p in s.procs && s.procs[p].life == ACTIVE
    ensures Wellformed(s)
    ensures var pc := s.procs[p].pc;
            match pc
            case Body => Next(s, p, Create).Step? && (p != 0 ==> Next(s, p, Leave).Step?)
                && (Tellers(s.procs, p) != {} <==> Next(s, p, Claim).Step?)
            case Making(_) => Next(s, p, Place).Step?
            case Placed(_) => Next(s, p, Start).Step?
            case Claimed => Next(s, p, Reap).Step?
            case _ => false
  {
    InvWellformed(s);
    assert StageAt(s, p) && Balanced(s, p);
    if s.procs[p].pc.Claimed? { WaitFinds(s, p); }
    hide TreeOk, TokensOk, PidsOk;
  }

  // ----- PIDs are reused before new ones are made -----

  lemma {:induction false} PidsOf(procs: map<nat, Proc>, keys: set<nat>)
    requires keys <= procs.Keys && forall p, r | p in keys && r in keys && procs[p].pid == procs[r].pid :: p == r
    ensures |set p | p in keys :: procs[p].pid| == |keys|
    decreases |keys|
  {
    if keys != {} {
      var p :| p in keys;
      PidsOf(procs, keys - {p});
      var rest := set q | q in keys - {p} :: procs[q].pid;
      assert (set q | q in keys :: procs[q].pid) == rest + {procs[p].pid};
    }
  }

  function Numbers(n: nat): (s: set<nat>)
    ensures |s| == n && forall k: nat :: k in s <==> 1 <= k <= n
  {
    if n == 0 then {} else Numbers(n - 1) + {n}
  }

  function AsSet(q: seq<nat>): set<nat> {
    set x | x in q
  }

  lemma {:induction false} DistinctSize(q: seq<nat>)
    requires Distinct(q)
    ensures |AsSet(q)| == |q|
  {
    if q != [] {
      TailDistinct(q);
      DistinctSize(q[1..]);
      assert AsSet(q) == AsSet(q[1..]) + {q[0]};
    }
  }

  ghost function Used(s: Sys): set<nat> {
    set p | p in s.procs.Keys :: s.procs[p].pid
  }

  lemma {:induction false} UsedOrFree(s: Sys)
    requires PidsOk(s)
    ensures Used(s) + AsSet(s.free) == Numbers(s.maxPid) && Used(s) !! AsSet(s.free)
  {
    forall n: nat ensures n in Used(s) ==> n in Numbers(s.maxPid) && n !in s.free {
      if n in Used(s) {
        var p :| p in s.procs && s.procs[p].pid == n;
        assert PidAt(s, p);
      }
    }
    forall n: nat | 1 <= n <= s.maxPid && n !in s.free ensures n in Used(s) { assert InUse(s, n); }
  }

  /** Every number up to the largest is the PID of one process or free. */
  lemma {:induction false} PidCount(s: Sys)
    requires PidsOk(s)
    ensures |s.procs| + |s.free| == s.maxPid
  {
    forall p, r | p in s.procs && r in s.procs && s.procs[p].pid == s.procs[r].pid ensures p == r {
      assert PidRivals(s, p, r);
    }
    PidsOf(s.procs, s.procs.Keys);
    DistinctSize(s.free);
    UsedOrFree(s);
    hide PidsOk, AsSet;
  }

  /** A step makes a new number only when no number is free. */
  lemma {:induction false} NextPeak(s: Sys, p: nat, a: Action, u: Sys)
    requires Inv(s) && Wellformed(s) && p in s.procs && Next(s, p, a) == Step(u)
    ensures u.maxPid == Max(s.maxPid, |u.procs|)
  {
    hide TreeOk, StagesOk, TokensOk, PidsOk, Next, Wellformed;
    PidCount(s);
    if a.Create? {
      NextFree(s);
      CreateKeys(s, p, u);
    } else {
      OtherKeys(s, p, a, u);
      var gone := s.procs.Keys - u.procs.Keys;
      assert s.procs.Keys == u.procs.Keys + gone;
    }
  }

  lemma {:induction false} CreateKeys(s: Sys, p: nat, u: Sys)
    requires Wellformed(s) && p in s.procs && Next(s, p, Create) == Step(u) && s.next !in s.procs
    ensures |u.procs| == |s.procs| + 1 && u.maxPid == if s.free == [] then s.maxPid + 1 else s.maxPid
  {
    hide Wellformed;
    assert u.procs.Keys == s.procs.Keys + {s.next};
  }

  lemma {:induction false} OtherKeys(s: Sys, p: nat, a: Action, u: Sys)
    requires Wellformed(s) && p in s.procs && Next(s, p, a) == Step(u) && !a.Create?
    ensures u.procs.Keys <= s.procs.Keys && u.maxPid == s.maxPid
  {
    hide Zombies, FirstZombie, Detached;
    match a
    case Reap =>
    case HandOver => HandedKeys(s, p);
    case _ =>
  }

  lemma {:induction false} HandedKeys(s: Sys, p: nat)
    requires 0 in s.procs && p in s.procs && forall c | c in s.procs[p].children :: c in s.procs
    ensures HandedOver(s, p).procs.Keys == s.procs.Keys
  {
  }

  lemma {:induction false} NextFree(s: Sys)
    requires Inv(s)
    ensures s.next !in s.procs
  {
    hide StagesOk, TokensOk, PidsOk;
    forall x | x in s.procs ensures x < s.next { assert TreeAt(s.procs, s.next, x); }
  }

  /** The most processes that exist at once in a run. */
  ghost function Peak(s: Sys, acts: seq<(nat, Action)>): nat
    decreases |acts|
  {
    if acts == [] || !Wellformed(s) then |s.procs|
    else if acts[0].0 !in s.procs then Peak(s, acts[1..])
    else match Next(s, acts[0].0, acts[0].1)
      case Blocked => Peak(s, acts[1..])
      case Lost => |s.procs|
      case Step(u) => Max(|s.procs|, Peak(u, acts[1..]))
  }

  lemma {:induction false} RunPeak(s: Sys, acts: seq<(nat, Action)>)
    requires Inv(s)
    ensures Run(s, acts).Step? && Run(s, acts).s.maxPid == Max(s.maxPid, Peak(s, acts))
    decreases |acts|
  {
    hide Inv, Next, Wellformed;
    InvCount(s);
    if acts != [] {
      InvWellformed(s);
      if acts[0].0 !in s.procs {
        RunPeak(s, acts[1..]);
      } else {
        NextKeeps(s, acts[0].0, acts[0].1);
        match Next(s, acts[0].0, acts[0].1)
        case Blocked => RunPeak(s, acts[1..]);
        case Step(u) =>
          RunPeak(u, acts[1..]);
          PeakFirst(u, acts[1..]);
          NextPeak(s, acts[0].0, acts[0].1, u);
      }
    }
  }

  lemma {:induction false} InvCount(s: Sys)
    requires Inv(s)
    ensures |s.procs| <= s.maxPid
  {
    hide TreeOk, StagesOk, TokensOk, PidsOk;
    PidCount(s);
  }

  lemma {:induction false} PeakFirst(s: Sys, acts: seq<(nat, Action)>)
    ensures Peak(s, acts) >= |s.procs|
    decreases |acts|
  {
    hide Next, Wellformed;
    if acts != [] { PeakFirst(s, acts[1..]); }
  }

  /** From boot on, the largest PID ever given is the largest number of processes that have existed at once. */
  lemma {:induction false} PidsReused(acts: seq<(nat, Action)>)
    ensures Run(Boot(), acts).Step? && Run(Boot(), acts).s.maxPid == Peak(Boot(), acts)
  {
    BootInv();
    RunPeak(Boot(), acts);
    PeakFirst(Boot(), acts);
  }

  /** The state after `init_kproc`: the root alone, with PID 1. */
  function Boot(): Sys {
    Sys(map[0 := Proc(ACTIVE, Of(0), [], 0, 1, Body)], 1, Nobody, Nobody, 1, [])
  }

  lemma {:induction false} BootInv()
    ensures Inv(Boot())
  {
    var s := Boot();
    assert Tellers(s.procs, 0) == {};
    assert InUse(s, 1) by { assert 0 in s.procs && s.procs[0].pid == 1; }
    forall x | x in s.procs ensures StageAt(s, x) && TreeAt(s.procs, s.next, x) && PidAt(s, x) {}
  }

  /** Whenever both locks are free, a live process has exactly one token, taken or not, per zombie child. */
  lemma {:induction false} QuiescentTokens(s: Sys, p: nat)
    requires Inv(s) && s.plock == Nobody && s.slock == Nobody && p in s.procs && s.procs[p].life != ZOMBIE
    ensures s.procs[p].tokens + Claims(s.procs[p].pc) == |set c | c in s.procs && c != 0 && s.procs[c].parent == Of(p)
            && s.procs[c].life == ZOMBIE|
  {
    TellersAreZombies(s, p);
    assert StageAt(s, p) && Balanced(s, p);
  }

  /** Following parent pointers from any process that has been placed leads to the root. */
  ghost predicate Descends(procs: map<nat, Proc>, c: nat)
    decreases c
  {
    c in procs && (c == 0 || (procs[c].parent.Of? && procs[c].parent.p < c && Descends(procs, procs[c].parent.p)))
  }

  lemma {:induction false} Rooted(s: Sys, c: nat)
    requires Inv(s) && c in s.procs && s.procs[c].parent.Of?
    ensures Descends(s.procs, c)
    decreases c
  {
    if c != 0 {
      assert TreeAt(s.procs, s.next, c);
      var p := s.procs[c].parent.p;
      assert StageAt(s, p) && TreeAt(s.procs, s.next, p);
      assert s.procs[p].children != [] ;
      Rooted(s, p);
    }
  }

  // ----- the loops of `wait`, `exit` and `find_proc` -----

  method ScanZombie(procs: map<nat, Proc>, list: seq<nat>) returns (z: Parent)
    requires forall c | c in list :: c in procs
    ensures z == FirstZombie(procs, list)
  {
    var i := 0;
    while i < |list|
      invariant i <= |list| && FirstZombie(procs, list) == FirstZombie(procs, list[i..])
    {
      if procs[list[i]].life == ZOMBIE { return Of(list[i]); }
      i := i + 1;
    }
    z := NoParent;
  }

  method ReparentAll(procs: map<nat, Proc>, list: seq<nat>) returns (r: map<nat, Proc>, times: nat)
    requires forall c | c in list :: c in procs
    ensures r == Reparented(procs, list) && times == Zombies(procs, list)
  {
    r, times := procs, 0;
    var i := 0;
    while i < |list|
      invariant i <= |list| && r == Reparented(procs, list[..i])
      invariant times + Zombies(procs, list[i..]) == Zombies(procs, list)
    {
      hide Reparented, Zombies;
      var c := list[i];
      ReparentedOne(procs, list, i);
      r := r[c := r[c].(parent := Of(0))];
      if r[c].life == ZOMBIE { times := times + 1; }
      i := i + 1;
    }
    assert list[..i] == list;
  }

  /** One round of the loop. */
  lemma {:induction false} ReparentedOne(procs: map<nat, Proc>, list: seq<nat>, i: nat)
    requires (forall c | c in list :: c in procs) && i < |list|
    ensures var c, r := list[i], Reparented(procs, list[..i]);
            && c in procs && r[c].life == procs[c].life
            && Reparented(procs, list[..i + 1]) == r[c := r[c].(parent := Of(0))]
    ensures Zombies(procs, list[i..]) ==
            (if procs[list[i]].life == ZOMBIE then 1 else 0) + Zombies(procs, list[i + 1..])
  {
    assert list[i] in list;
    assert list[..i + 1] == list[..i] + [list[i]];
    assert list[i..] == [list[i]] + list[i + 1..];
  }

  ghost function FindProc(s: Sys, p: nat, pid: nat): (r: Parent)
    requires Inv(s) && p in s.procs
    ensures r.Of? ==> r.p in s.procs && s.procs[r.p].pid == pid && s.procs[r.p].life != UNUSED
    decreases s.next - p, 1, 0
  {
    assert TreeAt(s.procs, s.next, p);
    if s.procs[p].pid == pid && s.procs[p].life != UNUSED then Of(p)
    else
      ChildrenOlder(s, p);
      FindList(s, p, s.procs[p].children, pid)
  }

  ghost function FindList(s: Sys, p: nat, list: seq<nat>, pid: nat): (r: Parent)
    requires Inv(s) && p in s.procs && p < s.next && forall c | c in list :: c in s.procs && p < c < s.next
    ensures r.Of? ==> r.p in s.procs && s.procs[r.p].pid == pid && s.procs[r.p].life != UNUSED
    decreases s.next - p, 0, |list|
  {
    if list == [] then NoParent
    else
      assert list[0] in list;
      assert forall c | c in list[1..] :: c in list;
      var t := FindProc(s, list[0], pid);
      if t.Of? then t else FindList(s, p, list[1..], pid)
  }

  lemma {:induction false} ChildrenOlder(s: Sys, p: nat)
    requires Inv(s) && p in s.procs
    ensures p < s.next && forall c | c in s.procs[p].children :: c in s.procs && p < c < s.next
  {
    assert TreeAt(s.procs, s.next, p);
    forall c | c in s.procs[p].children ensures c in s.procs && p < c < s.next { assert TreeAt(s.procs, s.next, c); }
  }

  lemma {:induction false} ListMisses(s: Sys, p: nat, list: seq<nat>, pid: nat, c: nat)
    requires Inv(s) && p in s.procs && p < s.next && (forall x | x in list :: x in s.procs && p < x < s.next)
    requires FindList(s, p, list, pid).NoParent? && c in list
    ensures FindProc(s, c, pid).NoParent?
    decreases |list|
  {
    hide Inv;
    assert forall x | x in list[1..] :: x in list;
    if c != list[0] { ListMisses(s, p, list[1..], pid, c); }
  }

  /** If the search from the root fails at the root it fails at every process in the tree. */
  lemma {:induction false} FindMisses(s: Sys, pid: nat, q: nat)
    requires Inv(s) && 0 in s.procs && q in s.procs && s.procs[q].parent.Of? && FindProc(s, 0, pid).NoParent?
    ensures FindProc(s, q, pid).NoParent?
    decreases q
  {
    if q != 0 {
      assert TreeAt(s.procs, s.next, q);
      var p := s.procs[q].parent.p;
      assert StageAt(s, p);
      hide Inv;
      FindMisses(s, pid, p);
      ChildrenOlder(s, p);
      ListMisses(s, p, s.procs[p].children, pid, q);
    }
  }

  /** `find_proc` from the root finds the process with that PID, exactly when there is one that has been started. */
  lemma {:induction false} FindExact(s: Sys, pid: nat, q: nat)
    requires Inv(s)
    ensures 0 in s.procs
    ensures q in s.procs && s.procs[q].pid == pid && s.procs[q].life != UNUSED <==> FindProc(s, 0, pid) == Of(q)
  {
    var r := FindProc(s, 0, pid);
    if q in s.procs && s.procs[q].pid == pid && s.procs[q].life != UNUSED {
      assert StageAt(s, q);
      if r.NoParent? {
        FindMisses(s, pid, q);
        assert false;
      }
      assert PidRivals(s, q, r.p);
    }
  }
}
