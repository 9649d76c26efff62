/**
  The interleavings that `log.lock` of `src/fs/cache.c` allows: any number of threads begin
  operations, synchronise blocks and end operations, while the last ender commits with the lock
  released in between.
 */
module LogProtocol {
  import opened Common
  import opened LogHeaders
  import opened BlockCache

  datatype State = State(
    entries: seq<nat>,         // header.block_no[0 .. num_blocks]
    ops: map<nat, nat>,        // rm of every running operation
    iscommit: bool,
    copied: nat,               // entries the running commit has copied to the log
    installed: nat)            // entries it has installed

  datatype Action =
    | Begin(op: nat)
    | Sync(op: nat, b: nat)
    | End(op: nat)
    | CopyEntry                // one round of the first commit loop, lock released
    | InstallEntry             // one round of the second
    | Finish

  function Init(): State {
    State([], map[], false, 0, 0)
  }

  /** The guards under which a thread gets past the lock. */
  ghost predicate Enabled(s: State, a: Action) {
    match a
    case Begin(op) => op !in s.ops && !s.iscommit && |s.entries| + (|s.ops| + 1) * OP_MAX_NUM_BLOCKS <= LOG_MAX_SIZE
    case Sync(op, b) => op in s.ops && !Panics(s, a)
    case End(op) => op in s.ops && !Panics(s, a)
    case CopyEntry => s.iscommit && s.copied < |s.entries|
    case InstallEntry => s.iscommit && s.copied == |s.entries| && s.installed < |s.entries|
    case Finish => s.iscommit && s.copied == |s.entries| == s.installed
  }

  /** The three PANIC calls: budget, full header, ending during a commit. */
  ghost predicate Panics(s: State, a: Action) {
    match a
    case Sync(op, b) => op in s.ops && b !in s.entries
        && (s.ops[op] >= OP_MAX_NUM_BLOCKS || |s.entries| >= LOG_MAX_SIZE)
    case End(op) => op in s.ops && s.iscommit
    case _ => false
  }

  ghost function Next(s: State, a: Action): State
    requires Enabled(s, a)
  {
    match a
    case Begin(op) => s.(ops := s.ops[op := 0])
    case Sync(op, b) => if b in s.entries then s else s.(entries := s.entries + [b], ops := s.ops[op := s.ops[op] + 1])
    case End(op) => if |s.ops| > 1 then s.(ops := s.ops - {op}) else State(s.entries, s.ops - {op}, true, 0, 0)
    case CopyEntry => s.(copied := s.copied + 1)
    case InstallEntry => s.(installed := s.installed + 1)
    case Finish => State([], s.ops, false, 0, 0)
  }

  ghost predicate Inv(s: State) {
    && (forall k :: k in s.ops ==> s.ops[k] <= OP_MAX_NUM_BLOCKS)
    && |s.entries| + Reserved(s.ops) <= LOG_MAX_SIZE
    && (forall i, j :: 0 <= i < j < |s.entries| ==> s.entries[i] != s.entries[j])
    && (s.iscommit ==> s.ops == map[])
  }

  lemma {:induction false} StepInv(s: State, a: Action)
    requires Inv(s) && Enabled(s, a)
    ensures Inv(Next(s, a))
    ensures s.iscommit && !a.Finish? ==> Next(s, a).entries == s.entries && Next(s, a).ops == map[]
  {
    match a
    case Begin(op) => AccountedBegin(|s.entries|, s.ops, |s.ops|, op);
    case Sync(op, b) => if b !in s.entries { AccountedSync(|s.entries|, s.ops, |s.ops|, op); }
    case End(op) =>
      AccountedEnd(|s.entries|, s.ops, |s.ops|, op);
      if |s.ops| == 1 { assert (s.ops - {op}).Keys == s.ops.Keys - {op}; assert |s.ops - {op}| == 0; }
    case _ =>
  }

  /** A run that starts empty and takes enabled actions. */
  ghost predicate Run(ss: seq<State>, acts: seq<Action>) {
    && |ss| == |acts| + 1 && ss[0] == Init()
    && forall i :: 0 <= i < |acts| ==> Enabled(ss[i], acts[i]) && ss[i + 1] == Next(ss[i], acts[i])
  }

  lemma {:induction false} RunInv(ss: seq<State>, acts: seq<Action>, i: nat)
    requires Run(ss, acts) && i < |ss|
    ensures Inv(ss[i])
  {
    if i > 0 {
      RunInv(ss, acts, i - 1);
      StepInv(ss[i - 1], acts[i - 1]);
    }
  }

  /**
    In every reachable state the log space is accounted for, nothing is outstanding during a
    commit, `cache_end_op` cannot panic, and `cache_sync` panics only over an operation's own
    budget: the header is never full for an operation that still has budget.
   */
  lemma {:induction false} LogNeverOverflows(ss: seq<State>, acts: seq<Action>, i: nat, a: Action)
    requires Run(ss, acts) && i < |ss|
    ensures |ss[i].entries| + Reserved(ss[i].ops) <= LOG_MAX_SIZE
    ensures ss[i].iscommit ==> ss[i].ops == map[]
    ensures Panics(ss[i], a)
            <==> a.Sync? && a.op in ss[i].ops && a.b !in ss[i].entries && ss[i].ops[a.op] == OP_MAX_NUM_BLOCKS
  {
    RunInv(ss, acts, i);
    if a.Sync? && a.op in ss[i].ops { ReservedWithout(ss[i].ops, a.op); }
  }

  // ----- an operation that stays within its budget never panics -----

  /** The blocks that operation op has synchronised since it began, before step i. */
  ghost function Touched(acts: seq<Action>, i: nat, op: nat): set<nat>
    requires i <= |acts|
  {
    if i == 0 then {}
    else match acts[i - 1]
      case Begin(o) => if o == op then {} else Touched(acts, i - 1, op)
      case Sync(o, b) => if o == op then Touched(acts, i - 1, op) + {b} else Touched(acts, i - 1, op)
      case _ => Touched(acts, i - 1, op)
  }

  /** What an operation has synchronised is in the header, and `rm` counts at most those blocks. */
  lemma {:induction false} TouchedCounts(ss: seq<State>, acts: seq<Action>, i: nat, op: nat)
    requires Run(ss, acts) && i < |ss| && op in ss[i].ops
    ensures ss[i].ops[op] <= |Touched(acts, i, op)| && forall b | b in Touched(acts, i, op) :: b in ss[i].entries
  {
    if i > 0 {
      RunInv(ss, acts, i - 1);
      var s, a := ss[i - 1], acts[i - 1];
      assert Enabled(s, a) && ss[i] == Next(s, a);
      if op in s.ops { TouchedCounts(ss, acts, i - 1, op); }
    }
  }

  /**
    However the other threads run: a synchronisation that keeps the operation within ten distinct
    blocks does not panic.
   */
  lemma {:induction false} BudgetSuffices(ss: seq<State>, acts: seq<Action>, i: nat, op: nat, b: nat)
    requires Run(ss, acts) && i < |ss| && |Touched(acts, i, op) + {b}| <= OP_MAX_NUM_BLOCKS
    ensures !Panics(ss[i], Sync(op, b))
  {
    LogNeverOverflows(ss, acts, i, Sync(op, b));
    if op in ss[i].ops { TouchedCounts(ss, acts, i, op); }
  }

  /** An operation that synchronises only blocks of this set never panics, whatever the others do. */
  ghost predicate NeverPanics(blocks: set<nat>) {
    forall ss, acts, i: nat, op: nat, b: nat | Run(ss, acts) && i < |ss| && Touched(acts, i, op) <= blocks
        && b in blocks ::
      !Panics(ss[i], Sync(op, b))
  }

  lemma {:induction false} SmallNeverPanics(blocks: set<nat>)
    requires |blocks| <= OP_MAX_NUM_BLOCKS
    ensures NeverPanics(blocks)
  {
    forall ss, acts, i: nat, op: nat, b: nat | Run(ss, acts) && i < |ss| && Touched(acts, i, op) <= blocks
        && b in blocks
      ensures !Panics(ss[i], Sync(op, b))
    {
      var all := Touched(acts, i, op) + {b};
      assert blocks == all + (blocks - all);
      BudgetSuffices(ss, acts, i, op, b);
    }
  }

  /** And no larger set will do: an operation that is alone with it panics at the eleventh block. */
  lemma {:induction false} NeverPanicsExactly(blocks: set<nat>)
    ensures NeverPanics(blocks) <==> |blocks| <= OP_MAX_NUM_BLOCKS
  {
    if |blocks| <= OP_MAX_NUM_BLOCKS {
      SmallNeverPanics(blocks);
    } else {
      var ss, acts := SyncSome(blocks, OP_MAX_NUM_BLOCKS);
      var b := FreshBlock(blocks, ss[|acts|].entries);
      assert Panics(ss[|acts|], Sync(0, b)) && Touched(acts, |acts|, 0) <= blocks;
    }
  }

  /** Operation 0 runs alone and has logged n blocks of the set. */
  ghost predicate Alone(s: State, blocks: set<nat>, n: nat) {
    !s.iscommit && s.ops == map[0 := n] && |s.entries| == n && forall b | b in s.entries :: b in blocks
  }

  lemma {:induction false} SyncSome(blocks: set<nat>, n: nat) returns (ss: seq<State>, acts: seq<Action>)
    requires n <= OP_MAX_NUM_BLOCKS && n <= |blocks|
    ensures |ss| == |acts| + 1 && Run(ss, acts) && Alone(ss[|acts|], blocks, n) && Touched(acts, |acts|, 0) <= blocks
  {
    hide Run, Touched;
    if n == 0 {
      ss, acts := JustBegun(blocks);
    } else {
      var ss0, acts0 := SyncSome(blocks, n - 1);
      var s := ss0[|acts0|];
      var b := FreshBlock(blocks, s.entries);
      ss, acts := ss0 + [Next(s, Sync(0, b))], acts0 + [Sync(0, b)];
      RunMore(ss0, acts0, Sync(0, b));
      TouchedSync(acts0, b);
    }
  }

  lemma {:induction false} JustBegun(blocks: set<nat>) returns (ss: seq<State>, acts: seq<Action>)
    ensures |ss| == |acts| + 1 && Run(ss, acts) && Alone(ss[|acts|], blocks, 0) && Touched(acts, |acts|, 0) == {}
  {
    ss, acts := [Init(), State([], map[0 := 0], false, 0, 0)], [Begin(0)];
  }

  lemma {:induction false} TouchedSync(acts: seq<Action>, b: nat)
    ensures Touched(acts + [Sync(0, b)], |acts| + 1, 0) == Touched(acts, |acts|, 0) + {b}
  {
    TouchedPrefix(acts, Sync(0, b), |acts|, 0);
  }

  lemma {:induction false} RunMore(ss: seq<State>, acts: seq<Action>, a: Action)
    requires Run(ss, acts) && Enabled(ss[|acts|], a)
    ensures Run(ss + [Next(ss[|acts|], a)], acts + [a])
  {
  }

  lemma {:induction false} TouchedPrefix(acts: seq<Action>, a: Action, i: nat, op: nat)
    requires i <= |acts|
    ensures Touched(acts + [a], i, op) == Touched(acts, i, op)
  {
    if i > 0 { TouchedPrefix(acts, a, i - 1, op); }
  }

  lemma {:induction false} FreshBlock(blocks: set<nat>, entries: seq<nat>) returns (b: nat)
    requires |entries| < |blocks|
    ensures b in blocks && b !in entries
  {
    FewElements(entries);
    var logged := Elements(entries);
    var both := blocks * logged;
    assert logged == both + (logged - both) && blocks == both + (blocks - both);
    b :| b in blocks - both;
  }

  function Elements(s: seq<nat>): set<nat> {
    set x | x in s
  }

  lemma {:induction false} FewElements(s: seq<nat>)
    ensures |Elements(s)| <= |s|
  {
    if s != [] {
      FewElements(s[1..]);
      assert Elements(s) == Elements(s[1..]) + {s[0]};
    }
  }

  lemma {:induction false} Take(ss: seq<State>, acts: seq<Action>, a: Action)
      returns (ss': seq<State>, acts': seq<Action>)
    requires Run(ss, acts) && Enabled(ss[|ss| - 1], a)
    ensures ss' != [] && Run(ss', acts') && ss'[|ss'| - 1] == Next(ss[|ss| - 1], a)
  {
    ss', acts' := ss + [Next(ss[|ss| - 1], a)], acts + [a];
  }

  function UpTo(n: nat): (s: seq<nat>)
    ensures |s| == n
  {
    seq(n, i => i)
  }

  /** A full header of 63 entries is reachable: six operations may run above three entries that an earlier one left. */
  lemma {:induction false} FullGroupReachable() returns (ss: seq<State>, acts: seq<Action>)
    ensures Run(ss, acts) && |ss[|ss| - 1].entries| == LOG_MAX_SIZE
  {
    ss, acts := BeginTwo();
    ss, acts := LeaveThree(ss, acts);
    ss, acts := BeginSix(ss, acts);
    ss, acts := FillSix(ss, acts);
  }

  lemma {:induction false} BeginTwo() returns (ss: seq<State>, acts: seq<Action>)
    ensures Run(ss, acts) && ss[|ss| - 1] == State([], map[0 := 0, 1 := 0], false, 0, 0)
  {
    ss, acts := [Init()], [];
    ss, acts := Take(ss, acts, Begin(0));
    ss, acts := Take(ss, acts, Begin(1));
  }

  lemma {:induction false} LeaveThree(ss0: seq<State>, acts0: seq<Action>) returns (ss: seq<State>, acts: seq<Action>)
    requires Run(ss0, acts0) && ss0[|ss0| - 1] == State([], map[0 := 0, 1 := 0], false, 0, 0)
    ensures Run(ss, acts) && ss[|ss| - 1] == State(UpTo(3), map[1 := 0], false, 0, 0)
  {
    assert UpTo(0) == [];
    ss, acts := SyncOne(ss0, acts0, 0);
    ss, acts := SyncOne(ss, acts, 1);
    ss, acts := SyncOne(ss, acts, 2);
    assert |map[0 := 3, 1 := 0]| == 2;
    ss, acts := Take(ss, acts, End(0));
    assert map[0 := 3, 1 := 0] - {0} == map[1 := 0];
  }

  lemma {:induction false} SyncOne(ss0: seq<State>, acts0: seq<Action>, n: nat)
      returns (ss: seq<State>, acts: seq<Action>)
    requires Run(ss0, acts0) && ss0[|ss0| - 1] == State(UpTo(n), map[0 := n, 1 := 0], false, 0, 0) && n < 10
    ensures Run(ss, acts) && ss[|ss| - 1] == State(UpTo(n + 1), map[0 := n + 1, 1 := 0], false, 0, 0)
  {
    ss, acts := Take(ss0, acts0, Sync(0, n));
    assert map[0 := n, 1 := 0][0 := n + 1] == map[0 := n + 1, 1 := 0];
  }

  ghost function Rm(op: nat, k: nat, n: nat): nat {
    if op < k then OP_MAX_NUM_BLOCKS else if op == k then n else 0
  }

  /** Operations 1..k-1 have used up their budget, operation k has logged n blocks. */
  ghost predicate Filling(s: State, k: nat, n: nat) {
    && k >= 1 && s.entries == UpTo(3 + 10 * (k - 1) + n) && s.ops == (map op | op in {1, 2, 3, 4, 5, 6} :: Rm(op, k, n))
          && !s.iscommit
  }

  lemma {:induction false} BeginSix(ss0: seq<State>, acts0: seq<Action>) returns (ss: seq<State>, acts: seq<Action>)
    requires Run(ss0, acts0) && ss0[|ss0| - 1] == State(UpTo(3), map[1 := 0], false, 0, 0)
    ensures Run(ss, acts) && Filling(ss[|ss| - 1], 1, 0)
  {
    assert ss0 != [];
    hide Run, Reserved, UpTo;
    ss, acts := Take(ss0, acts0, Begin(2));
    ss, acts := Take(ss, acts, Begin(3));
    assert ss[|ss| - 1].ops == map[1 := 0, 2 := 0, 3 := 0];
    ss, acts := BeginThree(ss, acts);
  }

  lemma {:induction false} BeginThree(ss0: seq<State>, acts0: seq<Action>) returns (ss: seq<State>, acts: seq<Action>)
    requires Run(ss0, acts0) && ss0 != [] && ss0[|ss0| - 1] == State(UpTo(3), map[1 := 0, 2 := 0, 3 := 0], false, 0, 0)
    ensures Run(ss, acts) && Filling(ss[|ss| - 1], 1, 0)
  {
    assert |map[1 := 0, 2 := 0, 3 := 0]| == 3;
    hide Run, Reserved, UpTo;
    ss, acts := Take(ss0, acts0, Begin(4));
    ss, acts := Take(ss, acts, Begin(5));
    assert ss[|ss| - 1].ops == map[1 := 0, 2 := 0, 3 := 0, 4 := 0, 5 := 0];
    ss, acts := Take(ss, acts, Begin(6));
    AllZero();
  }

  lemma {:induction false} AllZero()
    ensures map[1 := 0, 2 := 0, 3 := 0, 4 := 0, 5 := 0, 6 := 0] == map op | op in {1, 2, 3, 4, 5, 6} :: Rm(op, 1, 0)
  {
  }

  lemma {:induction false} FillOne(ss0: seq<State>, acts0: seq<Action>, k: nat, n: nat)
      returns (ss: seq<State>, acts: seq<Action>)
    requires Run(ss0, acts0) && 1 <= k <= 6 && n < 10 && Filling(ss0[|ss0| - 1], k, n)
    ensures Run(ss, acts) && Filling(ss[|ss| - 1], k, n + 1)
  {
    assert ss0 != [];
    hide Run, Reserved;
    ss, acts := Take(ss0, acts0, Sync(k, 3 + 10 * (k - 1) + n));
  }

  lemma {:induction false} FillSix(ss0: seq<State>, acts0: seq<Action>) returns (ss: seq<State>, acts: seq<Action>)
    requires Run(ss0, acts0) && Filling(ss0[|ss0| - 1], 1, 0)
    ensures Run(ss, acts) && |ss[|ss| - 1].entries| == LOG_MAX_SIZE
  {
    ss, acts := ss0, acts0;
    var k := 1;
    while k <= 6
      invariant 1 <= k <= 7 && Run(ss, acts) && Filling(ss[|ss| - 1], k, 0)
    {
      var n := 0;
      while n < 10
        invariant n <= 10 && Run(ss, acts) && Filling(ss[|ss| - 1], k, n)
      {
        ss, acts := FillOne(ss, acts, k, n);
        n := n + 1;
      }
      k := k + 1;
    }
  }
}
