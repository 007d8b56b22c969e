/**
  The admission protocol of log.c: `begin_op`, `log_write`, `end_op` and group commit, over
  every interleaving of the processes that use the log.

  An action is what one process does between taking and releasing log.lock; going to sleep on the
  log gives up the lock and falls asleep in one step.  `log_write` tests the length of the list
  before it takes the lock, so its test and its append are two actions, and other processes can
  append in between.
*/
module LogAdmission {
  import opened Params

  /** `size` is log.size; `budget` is the number of new entries any one operation adds at most. */
  datatype Config = Config(size: nat, budget: nat)

  datatype State = State(
    lh: seq<nat>,            // the blocks listed in the in-memory header
    ops: map<nat, nat>,      // the outstanding operations, with the entries each has added
    passed: map<nat, nat>,   // operations whose log_write has passed its test, with the block to list
    committing: bool,
    asleep: set<nat>)        // processes asleep in begin_op

  datatype Action = Begin(p: nat) | Wait(p: nat) | Test(p: nat, b: nat) | Append(p: nat) | End(p: nat) | Committed

  datatype Outcome = Next(s: State) | Panic

  const INITIAL := State([], map[], map[], false, {})

  predicate Blocked(s: State) {
    s.committing || |s.lh| + (|s.ops| + 1) * MAXOPBLOCKS > LOGSIZE
  }

  /** What a process may do; an operation stays within its budget. */
  predicate Enabled(c: Config, s: State, a: Action) {
    match a
    case Begin(p) => p !in s.ops && p !in s.asleep && !Blocked(s)
    case Wait(p) => p !in s.ops && p !in s.asleep && Blocked(s)
    case Test(p, b) => p in s.ops && p !in s.passed && (b in s.lh || s.ops[p] < c.budget)
    case Append(p) => p in s.ops && p in s.passed
    case End(p) => p in s.ops && p !in s.passed
    case Committed => s.committing
  }

  function Step(c: Config, s: State, a: Action): Outcome
    requires Enabled(c, s, a)
  {
    match a
    case Begin(p) => Next(s.(ops := s.ops[p := 0]))
    case Wait(p) => Next(s.(asleep := s.asleep + {p}))
    case Test(p, b) =>
      if |s.lh| >= LOGSIZE || |s.lh| >= c.size - 1 then Panic else Next(s.(passed := s.passed[p := b]))
    case Append(p) => Next(Appended(s, p, s.passed[p]))
    case End(p) =>
      if s.committing then Panic
      else if |s.ops| == 1 then Next(s.(ops := s.ops - {p}, committing := true))
      else Next(s.(ops := s.ops - {p}, asleep := {}))
    case Committed => Next(s.(lh := [], committing := false, asleep := {}))
  }

  function Appended(s: State, p: nat, b: nat): State
    requires p in s.ops
  {
    var s' := s.(passed := s.passed - {p});
    if b in s.lh then s' else s'.(lh := s.lh + [b], ops := s.ops[p := s.ops[p] + 1])
  }

  // --- the entries that outstanding operations may still add -----------------------------

  ghost function Unused(ops: map<nat, nat>, budget: nat): int {
    if ops == map[] then 0 else
      var p :| p in ops;
      budget - ops[p] + Unused(ops - {p}, budget)
  }

  lemma {:induction false} UnusedAt(ops: map<nat, nat>, budget: nat, p: nat)
    requires p in ops
    ensures Unused(ops, budget) == budget - ops[p] + Unused(ops - {p}, budget)
    decreases |ops|
  {
    var q :| q in ops && Unused(ops, budget) == budget - ops[q] + Unused(ops - {q}, budget);
    if q != p {
      UnusedAt(ops - {q}, budget, p);
      UnusedAt(ops - {p}, budget, q);
      assert ops - {q} - {p} == ops - {p} - {q};
    }
  }

  lemma {:induction false} UnusedNonneg(ops: map<nat, nat>, budget: nat)
    requires forall p | p in ops :: ops[p] <= budget
    ensures Unused(ops, budget) >= 0
    decreases |ops|
  {
    if p :| p in ops {
      UnusedAt(ops, budget, p);
      UnusedNonneg(ops - {p}, budget);
    }
  }

  /** What the listed entries and the outstanding budgets never exceed while an operation is running. */
  function Bound(c: Config): int { LOGSIZE - 2 * (MAXOPBLOCKS - c.budget) }

  ghost predicate Inv(c: Config, s: State) {
    && c.budget <= MAXOPBLOCKS
    && (forall p | p in s.ops :: s.ops[p] <= c.budget)
    && (s.ops != map[] ==> |s.lh| + Unused(s.ops, c.budget) <= Bound(c))
    && |s.lh| <= Bound(c)
    && (forall p | p in s.passed :: p in s.ops && (s.passed[p] in s.lh || s.ops[p] < c.budget))
    // commit runs only with no operation outstanding, and otherwise an idle log is empty
    && (s.committing ==> s.ops == map[])
    && (s.ops == map[] && !s.committing ==> s.lh == [])
    // a process asleep in begin_op really has to wait, and someone will wake it
    && (s.asleep != {} ==> Blocked(s) && (s.committing || s.ops != map[]))
    && (forall i, j | 0 <= i < j < |s.lh| :: s.lh[i] != s.lh[j])
  }

  lemma BeginKeepsInv(c: Config, s: State, p: nat)
    requires Inv(c, s) && Enabled(c, s, Begin(p))
    ensures Inv(c, Step(c, s, Begin(p)).s)
  {
    var ops := s.ops[p := 0];
    UnusedAt(ops, c.budget, p);
    assert ops - {p} == s.ops;
    var k := |s.ops|;
    assert |ops| == k + 1;
    AtMost(s.ops, c.budget);
    if k == 0 {
      assert s.ops == map[];
    } else if k == 1 {
      assert Unused(s.ops, c.budget) <= c.budget;
    } else {
      assert k == 2 && Unused(s.ops, c.budget) <= 2 * c.budget;
    }
  }

  lemma {:induction false} AtMost(ops: map<nat, nat>, budget: nat)
    ensures Unused(ops, budget) <= |ops| * budget
    decreases |ops|
  {
    if p :| p in ops {
      UnusedAt(ops, budget, p);
      AtMost(ops - {p}, budget);
      var n := |ops - {p}|;
      assert |ops| == n + 1;
      assert (n + 1) * budget == n * budget + budget;
    }
  }

  lemma AppendKeepsInv(c: Config, s: State, p: nat)
    requires Inv(c, s) && Enabled(c, s, Append(p))
    ensures Inv(c, Step(c, s, Append(p)).s)
  {
    hide Unused;
    var b := s.passed[p];
    if b !in s.lh {
      var ops := s.ops[p := s.ops[p] + 1];
      UnusedAt(s.ops, c.budget, p);
      UnusedAt(ops, c.budget, p);
      assert ops - {p} == s.ops - {p};
      UnusedNonneg(ops, c.budget);
    }
  }

  lemma EndKeepsInv(c: Config, s: State, p: nat)
    requires Inv(c, s) && Enabled(c, s, End(p))
    ensures Step(c, s, End(p)).Next? && Inv(c, Step(c, s, End(p)).s)
  {
    hide Unused;
    UnusedAt(s.ops, c.budget, p);
    assert |s.ops| == |s.ops - {p}| + 1;
  }

  /** Every action of every process keeps the invariant, and `end_op` never panics. */
  lemma StepKeepsInv(c: Config, s: State, a: Action)
    requires Inv(c, s) && Enabled(c, s, a)
    ensures Step(c, s, a).Next? ==> Inv(c, Step(c, s, a).s)
    ensures Step(c, s, a).Panic? ==> a.Test?
  {
    hide Unused;
    match a
    case Begin(p) => BeginKeepsInv(c, s, p);
    case Append(p) => AppendKeepsInv(c, s, p);
    case End(p) => EndKeepsInv(c, s, p);
    case _ =>
  }

  // --- whole runs -------------------------------------------------------------------------

  ghost predicate IsRun(c: Config, ss: seq<State>, acts: seq<Action>) {
    && |ss| == |acts| + 1 && ss[0] == INITIAL
    && forall i | 0 <= i < |acts| :: Enabled(c, ss[i], acts[i]) && Step(c, ss[i], acts[i]) == Next(ss[i + 1])
  }

  lemma {:induction false} RunInv(c: Config, ss: seq<State>, acts: seq<Action>, i: nat)
    requires c.budget <= MAXOPBLOCKS && IsRun(c, ss, acts) && i < |ss|
    ensures Inv(c, ss[i])
  {
    if i > 0 {
      RunInv(c, ss, acts, i - 1);
      StepKeepsInv(c, ss[i - 1], acts[i - 1]);
    }
  }

  /**
    In every reachable state: the header count plus the unused budgets fits in the log, commit
    excludes operations, and no operation can begin during it.
  */
  lemma AdmissionBound(c: Config, ss: seq<State>, acts: seq<Action>, i: nat, p: nat)
    requires c.budget <= MAXOPBLOCKS && IsRun(c, ss, acts) && i < |ss|
    ensures |ss[i].lh| + Unused(ss[i].ops, c.budget) <= LOGSIZE
    ensures ss[i].committing ==> ss[i].ops == map[] && !Enabled(c, ss[i], Begin(p))
  {
    RunInv(c, ss, acts, i);
  }

  /** In every reachable state a process asleep in begin_op has to wait, and a commit or an operation will wake it. */
  lemma SleepersAreWoken(c: Config, ss: seq<State>, acts: seq<Action>, i: nat)
    requires c.budget <= MAXOPBLOCKS && IsRun(c, ss, acts) && i < |ss| && ss[i].asleep != {}
    ensures Blocked(ss[i]) && (ss[i].committing || ss[i].ops != map[])
    ensures forall a | Enabled(c, ss[i], a) && (a.Committed? || (a.End? && |ss[i].ops| > 1)) ::
              Step(c, ss[i], a).Next? && Step(c, ss[i], a).s.asleep == {}
  {
    RunInv(c, ss, acts, i);
  }

  /**
    The end of the last operation starts a commit.  Until it is over the list stays as it is and nothing
    begins; then the list is empty.
  */
  lemma {:induction false} LastEndCommits(c: Config, ss: seq<State>, acts: seq<Action>, i: nat, j: nat)
    requires c.budget <= MAXOPBLOCKS && IsRun(c, ss, acts) && i < j < |ss| && acts[i].End? && |ss[i].ops| == 1
    requires forall k | i < k < j :: !acts[k].Committed?
    ensures ss[j].committing && ss[j].lh == ss[i].lh && ss[j].ops == map[]
    ensures Enabled(c, ss[j], Committed) && Step(c, ss[j], Committed) == Next(State([], map[], ss[j].passed, false, {}))
    decreases j
  {
    RunInv(c, ss, acts, i);
    RunInv(c, ss, acts, j);
    assert Enabled(c, ss[j - 1], acts[j - 1]) && Step(c, ss[j - 1], acts[j - 1]) == Next(ss[j]);
    if j > i + 1 {
      LastEndCommits(c, ss, acts, i, j - 1);
    }
  }

  /** A process that finds no space sleeps, and begins nothing, until an operation ends or the commit is over. */
  lemma {:induction false} WaiterSleeps(c: Config, ss: seq<State>, acts: seq<Action>, i: nat, j: nat)
    requires IsRun(c, ss, acts) && i < j < |ss| && acts[i].Wait?
    requires forall k | i < k < j :: !acts[k].Committed? && !acts[k].End?
    ensures acts[i].p in ss[j].asleep && !Enabled(c, ss[j], Begin(acts[i].p))
    decreases j
  {
    assert Enabled(c, ss[j - 1], acts[j - 1]) && Step(c, ss[j - 1], acts[j - 1]) == Next(ss[j]);
    if j > i + 1 {
      WaiterSleeps(c, ss, acts, i, j - 1);
    }
  }

  /** No block is listed twice. */
  lemma ListDistinct(c: Config, ss: seq<State>, acts: seq<Action>, i: nat, x: nat, y: nat)
    requires c.budget <= MAXOPBLOCKS && IsRun(c, ss, acts) && i < |ss| && x < y < |ss[i].lh|
    ensures ss[i].lh[x] != ss[i].lh[y]
  {
    RunInv(c, ss, acts, i);
  }

  lemma StepAt(c: Config, ss: seq<State>, acts: seq<Action>, k: nat)
    requires IsRun(c, ss, acts) && k < |acts|
    ensures |ss| == |acts| + 1 && Enabled(c, ss[k], acts[k]) && Step(c, ss[k], acts[k]) == Next(ss[k + 1])
  {
  }

  /** Nothing leaves the list until a commit is over. */
  lemma {:induction false} ListStays(c: Config, ss: seq<State>, acts: seq<Action>, i: nat, j: nat)
    requires IsRun(c, ss, acts) && i <= j < |ss| && forall k | i <= k < j :: !acts[k].Committed?
    ensures ss[i].lh <= ss[j].lh
    decreases j - i
  {
    if j > i {
      hide Enabled, Step;
      StepAt(c, ss, acts, i);
      ListedStep(c, ss[i], acts[i]);
      ListStays(c, ss, acts, i + 1, j);
      PrefixOn(ss[i].lh, ss[i + 1].lh, ss[j].lh);
    }
  }

  /** A block that log_write has listed stays in the list until a commit is over. */
  lemma ListedStays(c: Config, ss: seq<State>, acts: seq<Action>, i: nat, j: nat)
    requires IsRun(c, ss, acts) && i < j < |ss| && acts[i].Append? && forall k | i <= k < j :: !acts[k].Committed?
    ensures acts[i].p in ss[i].passed && ss[i].passed[acts[i].p] in ss[j].lh
  {
    hide Enabled, Step;
    StepAt(c, ss, acts, i);
    ListedStep(c, ss[i], acts[i]);
    ListStays(c, ss, acts, i + 1, j);
    PrefixOn([], ss[i + 1].lh, ss[j].lh);
  }

  lemma ListedStep(c: Config, s: State, a: Action)
    requires Enabled(c, s, a) && Step(c, s, a).Next? && !a.Committed?
    ensures s.lh <= Step(c, s, a).s.lh
    ensures a.Append? ==> a.p in s.passed && s.passed[a.p] in Step(c, s, a).s.lh
  {
  }

  lemma PrefixOn(a: seq<nat>, b: seq<nat>, c: seq<nat>)
    requires a <= b <= c
    ensures a <= c && forall x | x in b :: x in c
  {
  }

  ghost predicate Reachable(c: Config, s: State) {
    exists ss: seq<State>, acts: seq<Action> :: IsRun(c, ss, acts) && |ss| > 0 && ss[|ss| - 1] == s
  }

  /** No operation that is within its budget ever panics when it logs a new block. */
  ghost predicate NewBlocksFit(c: Config) {
    forall s: State, p: nat, b: nat | Reachable(c, s) && Enabled(c, s, Test(p, b)) && b !in s.lh ::
      Step(c, s, Test(p, b)).Next?
  }

  lemma ReachableStep(c: Config, s: State, a: Action)
    requires Enabled(c, s, a) && Step(c, s, a).Next?
    ensures Reachable(c, s) ==> Reachable(c, Step(c, s, a).s)
  {
    if ss, acts :| IsRun(c, ss, acts) && |ss| > 0 && ss[|ss| - 1] == s {
      RunOn(c, ss, acts, a);
    }
  }

  lemma RunOn(c: Config, ss: seq<State>, acts: seq<Action>, a: Action)
    requires IsRun(c, ss, acts) && Enabled(c, ss[|acts|], a) && Step(c, ss[|acts|], a).Next?
    ensures IsRun(c, ss + [Step(c, ss[|acts|], a).s], acts + [a])
  {
    hide Enabled, Step;
    var tt, bb := ss + [Step(c, ss[|acts|], a).s], acts + [a];
    forall i | 0 <= i < |bb|
      ensures Enabled(c, tt[i], bb[i]) && Step(c, tt[i], bb[i]) == Next(tt[i + 1])
    {
      if i < |acts| { assert bb[i] == acts[i] && tt[i] == ss[i] && tt[i + 1] == ss[i + 1]; }
    }
  }

  /** A log_write that nobody interrupts. */
  lemma ReachableWrite(c: Config, s: State, p: nat, b: nat)
    requires Reachable(c, s) && s.passed == map[] && p in s.ops && s.ops[p] < c.budget && b !in s.lh
    requires |s.lh| < LOGSIZE && |s.lh| < c.size - 1
    ensures Reachable(c, s.(lh := s.lh + [b], ops := s.ops[p := s.ops[p] + 1]))
  {
    hide Reachable;
    ReachableStep(c, s, Test(p, b));
    var s1 := s.(passed := map[p := b]);
    assert s.passed[p := b] == map[p := b];
    ReachableStep(c, s1, Append(p));
    assert s1.passed - {p} == map[];
  }

  /** Three operations have begun, and have logged the blocks 0 .. n in order, ten each. */
  ghost function Filled(n: nat): State {
    State(seq(n, i => i), map[0 := Share(n, 0, 10), 1 := Share(n, 10, 10), 2 := Share(n, 20, 10)], map[], false, {})
  }

  /** How many of the first n entries belong to the operation that writes `width` of them, starting at `from`. */
  ghost function Share(n: nat, from: nat, width: nat): nat {
    if n < from then 0 else if n < from + width then n - from else width
  }

  lemma BeginThree(size: nat)
    ensures Reachable(Config(size, MAXOPBLOCKS), Filled(0))
  {
    var c := Config(size, MAXOPBLOCKS);
    assert IsRun(c, [INITIAL], []);
    ReachableStep(c, INITIAL, Begin(0));
    var s1 := INITIAL.(ops := map[0 := 0]);
    assert |s1.ops| == 1;
    ReachableStep(c, s1, Begin(1));
    var s2 := INITIAL.(ops := map[0 := 0, 1 := 0]);
    assert |s2.ops| == 2;
    ReachableStep(c, s2, Begin(2));
    assert Filled(0) == INITIAL.(ops := map[0 := 0, 1 := 0, 2 := 0]);
  }

  lemma FillStep(size: nat, n: nat)
    requires n + 1 < size && n < LOGSIZE && Reachable(Config(size, MAXOPBLOCKS), Filled(n))
    ensures Reachable(Config(size, MAXOPBLOCKS), Filled(n + 1))
  {
    hide Reachable;
    var s, p := Filled(n), n / 10;
    assert n !in s.lh;
    ReachableWrite(Config(size, MAXOPBLOCKS), s, p, n);
    assert s.lh + [n] == Filled(n + 1).lh;
    assert s.ops[p := s.ops[p] + 1] == Filled(n + 1).ops;
  }

  lemma {:induction false} FilledReachable(size: nat, n: nat)
    requires n < size && n <= LOGSIZE
    ensures Reachable(Config(size, MAXOPBLOCKS), Filled(n))
  {
    if n == 0 {
      BeginThree(size);
    } else {
      FilledReachable(size, n - 1);
      FillStep(size, n - 1);
    }
  }

  /**
    With the budget of MAXOPBLOCKS entries that `begin_op` reserves, new blocks always fit exactly
    when the log on disk has room for LOGSIZE blocks besides its header.  mkfs makes log.size
    equal to LOGSIZE, so the kernel as built can panic.
  */
  lemma NewBlocksFitIff(size: nat)
    requires size > 0
    ensures NewBlocksFit(Config(size, MAXOPBLOCKS)) <==> size > LOGSIZE
  {
    hide Reachable, Enabled, Step, Filled;
    var c := Config(size, MAXOPBLOCKS);
    if size > LOGSIZE {
      forall s: State, p: nat, b: nat | Reachable(c, s) && Enabled(c, s, Test(p, b)) && b !in s.lh
        ensures Step(c, s, Test(p, b)).Next?
      {
        FitsIfLarger(size, s, p, b);
      }
    } else {
      FilledReachable(size, size - 1);
      FilledPanics(size);
    }
  }

  lemma FitsIfLarger(size: nat, s: State, p: nat, b: nat)
    requires size > LOGSIZE && Reachable(Config(size, MAXOPBLOCKS), s)
    requires Enabled(Config(size, MAXOPBLOCKS), s, Test(p, b)) && b !in s.lh
    ensures Step(Config(size, MAXOPBLOCKS), s, Test(p, b)).Next?
  {
    hide IsRun;
    var c := Config(size, MAXOPBLOCKS);
    var ss, acts :| IsRun(c, ss, acts) && |ss| > 0 && ss[|ss| - 1] == s;
    RunInv(c, ss, acts, |ss| - 1);
    UnusedAt(s.ops, c.budget, p);
    UnusedNonneg(s.ops - {p}, c.budget);
  }

  lemma FilledPanics(size: nat)
    requires 0 < size <= LOGSIZE
    ensures var c, n := Config(size, MAXOPBLOCKS), size - 1;
            && Enabled(c, Filled(n), Test(n / 10, n)) && n !in Filled(n).lh
            && Step(c, Filled(n), Test(n / 10, n)).Panic?
  {
    var n := size - 1;
    assert |Filled(n).lh| == n;
  }

  // --- when no log_write panics at all ----------------------------------------------------

  /** No `log_write`, absorbed or not, panics in any run whose operations stay within their budget. */
  ghost predicate NeverPanics(c: Config) {
    forall s: State, a: Action | Reachable(c, s) && Enabled(c, s, a) :: Step(c, s, a).Next?
  }

  /** Operation 0 has begun and written nothing; others have come and gone and left n entries. */
  ghost function Left(n: nat): State { State(seq(n, i => i), map[0 := 0], map[], false, {}) }

  /** Operation 1 began at the last moment, with MAXOPBLOCKS entries there; then they added x and y more. */
  ghost function Spent(x: nat, y: nat): State {
    State(seq(MAXOPBLOCKS + x + y, i => i), map[0 := x, 1 := y], map[], false, {})
  }

  lemma OneBegun(c: Config)
    ensures Reachable(c, Left(0))
  {
    assert IsRun(c, [INITIAL], []);
    ReachableStep(c, INITIAL, Begin(0));
    assert Step(c, INITIAL, Begin(0)).s == Left(0);
  }

  /** Operation 1 begins, logs one block and ends. */
  lemma Visit(c: Config, n: nat)
    requires c.budget > 0 && n < MAXOPBLOCKS && n + 1 < c.size && Reachable(c, Left(n))
    ensures Reachable(c, Left(n + 1))
  {
    hide Reachable;
    var ops: map<nat, nat> := map[0 := 0];
    assert |ops| == 1;
    var s1 := Left(n).(ops := ops[1 := 0]);
    ReachableStep(c, Left(n), Begin(1));
    assert n !in s1.lh;
    ReachableWrite(c, s1, 1, n);
    var s2 := Left(n + 1).(ops := ops[1 := 1]);
    assert s1.lh + [n] == s2.lh && ops[1 := 0][1 := 1] == ops[1 := 1];
    assert |s2.ops| == 2;
    ReachableStep(c, s2, End(1));
    assert s2.ops - {1} == ops;
    assert Step(c, s2, End(1)).s == Left(n + 1);
  }

  lemma {:induction false} LeftReachable(c: Config, n: nat)
    requires c.budget > 0 && n <= MAXOPBLOCKS && n < c.size
    ensures Reachable(c, Left(n))
  {
    if n == 0 {
      OneBegun(c);
    } else {
      LeftReachable(c, n - 1);
      Visit(c, n - 1);
    }
  }

  lemma BothBegun(c: Config, n: nat)
    requires n <= MAXOPBLOCKS && Reachable(c, Left(n))
    ensures Reachable(c, Left(n).(ops := map[0 := 0, 1 := 0]))
  {
    hide Reachable;
    var s := Left(n);
    assert |s.ops| == 1;
    ReachableStep(c, s, Begin(1));
    assert s.ops[1 := 0] == map[0 := 0, 1 := 0];
  }

  lemma {:induction false} SpentReachable(c: Config, x: nat, y: nat)
    requires 0 < c.budget <= MAXOPBLOCKS && x <= c.budget && y <= c.budget
    requires MAXOPBLOCKS + x + y < c.size && MAXOPBLOCKS + x + y <= LOGSIZE
    ensures Reachable(c, Spent(x, y))
  {
    hide Reachable;
    if x + y == 0 {
      LeftReachable(c, MAXOPBLOCKS);
      BothBegun(c, MAXOPBLOCKS);
      assert Left(MAXOPBLOCKS).(ops := map[0 := 0, 1 := 0]) == Spent(0, 0);
    } else {
      var p, b := if y > 0 then 1 else 0, MAXOPBLOCKS + x + y - 1;
      var s := if y > 0 then Spent(x, y - 1) else Spent(x - 1, y);
      if y > 0 { SpentReachable(c, x, y - 1); } else { SpentReachable(c, x - 1, y); }
      assert b !in s.lh;
      ReachableWrite(c, s, p, b);
      assert s.lh + [b] == Spent(x, y).lh;
      assert s.ops[p := s.ops[p] + 1] == Spent(x, y).ops;
    }
  }

  /** Below the bound there is a run to the entry count at which log_write panics. */
  lemma PanicReachable(c: Config) returns (s: State, a: Action)
    requires 0 < c.budget <= MAXOPBLOCKS && (Bound(c) >= LOGSIZE || Bound(c) >= c.size - 1)
    ensures Reachable(c, s) && Enabled(c, s, a) && Step(c, s, a).Panic?
  {
    hide Reachable;
    if c.size == 0 {
      OneBegun(c);
      s, a := Left(0), Test(0, 0);
    } else {
      var n := if c.size - 1 < LOGSIZE then c.size - 1 else LOGSIZE;
      if n <= MAXOPBLOCKS {
        LeftReachable(c, n);
        s, a := Left(n), Test(0, n);
      } else {
        var x := if n - MAXOPBLOCKS <= c.budget then n - MAXOPBLOCKS else c.budget;
        SpentReachable(c, x, n - MAXOPBLOCKS - x);
        s, a := Spent(x, n - MAXOPBLOCKS - x), Test(0, 0);
        assert s.lh[0] == 0;
      }
    }
  }

  lemma NeverTooBig(c: Config, s: State, a: Action)
    requires c.budget <= MAXOPBLOCKS && (c.budget == 0 || (Bound(c) < LOGSIZE && Bound(c) < c.size - 1))
    requires Reachable(c, s) && Enabled(c, s, a)
    ensures Step(c, s, a).Next?
  {
    hide IsRun;
    var ss, acts :| IsRun(c, ss, acts) && |ss| > 0 && ss[|ss| - 1] == s;
    RunInv(c, ss, acts, |ss| - 1);
    StepKeepsInv(c, s, a);
    UnusedNonneg(s.ops, c.budget);
    if c.budget == 0 { NothingListed(c, ss, acts, |ss| - 1); }
  }

  lemma {:induction false} NothingListed(c: Config, ss: seq<State>, acts: seq<Action>, i: nat)
    requires (c.budget == 0 || c.size <= 1) && IsRun(c, ss, acts) && i < |ss|
    ensures ss[i].lh == [] && ss[i].passed == map[]
  {
    if i > 0 { NothingListed(c, ss, acts, i - 1); }
  }

  /**
    No log_write panics in any run exactly when the fullest header, MAXOPBLOCKS entries when the last
    operation begins and then two whole budgets, stays below both limits that log_write tests.
  */
  lemma NeverPanicsIff(c: Config)
    requires c.budget <= MAXOPBLOCKS
    ensures NeverPanics(c) <==> c.budget == 0 || (Bound(c) < LOGSIZE && Bound(c) < c.size - 1)
  {
    hide Reachable, Enabled, Step;
    if c.budget == 0 || (Bound(c) < LOGSIZE && Bound(c) < c.size - 1) {
      forall s: State, a: Action | Reachable(c, s) && Enabled(c, s, a) ensures Step(c, s, a).Next? {
        NeverTooBig(c, s, a);
      }
    } else {
      var s, a := PanicReachable(c);
    }
  }

  // --- when the list outgrows the log on disk ---------------------------------------------

  /** More blocks are listed than the log has room for besides its header: write_log would write past its end. */
  ghost predicate Overruns(c: Config) {
    exists s: State :: Reachable(c, s) && |s.lh| >= c.size
  }

  /** Two operations pass their tests one after the other, and then both append. */
  lemma BothAppend(c: Config, s: State)
    requires Reachable(c, s) && s.passed == map[] && 0 in s.ops && 1 in s.ops
    requires s.ops[0] < c.budget && s.ops[1] < c.budget && |s.lh| < LOGSIZE && |s.lh| < c.size - 1
    requires |s.lh| !in s.lh && |s.lh| + 1 !in s.lh
    ensures Reachable(c, s.(lh := s.lh + [|s.lh|, |s.lh| + 1], ops := s.ops[0 := s.ops[0] + 1][1 := s.ops[1] + 1]))
  {
    hide Reachable;
    var b := |s.lh|;
    ReachableStep(c, s, Test(0, b));
    var s1 := s.(passed := map[0 := b]);
    assert s.passed[0 := b] == map[0 := b];
    ReachableStep(c, s1, Test(1, b + 1));
    var s2 := s.(passed := map[0 := b, 1 := b + 1]);
    assert s1.passed[1 := b + 1] == s2.passed;
    ReachableStep(c, s2, Append(0));
    var s3 := s.(passed := map[1 := b + 1], lh := s.lh + [b], ops := s.ops[0 := s.ops[0] + 1]);
    assert s2.passed - {0} == s3.passed;
    ReachableStep(c, s3, Append(1));
    assert s3.passed - {1} == map[] && s.lh + [b] + [b + 1] == s.lh + [b, b + 1];
  }

  lemma OverrunReachable(c: Config)
    requires 0 < c.budget <= MAXOPBLOCKS && 2 <= c.size <= Bound(c)
    ensures Overruns(c)
  {
    hide Reachable;
    var n, s := c.size - 2, INITIAL;
    if n <= MAXOPBLOCKS {
      LeftReachable(c, n);
      BothBegun(c, n);
      s := Left(n).(ops := map[0 := 0, 1 := 0]);
    } else {
      var k := n - MAXOPBLOCKS;
      var x := if k < c.budget then k else c.budget - 1;
      SpentReachable(c, x, k - x);
      s := Spent(x, k - x);
    }
    BothAppend(c, s);
    assert |s.lh + [|s.lh|, |s.lh| + 1]| == c.size;
  }

  /**
    The list can outgrow the log on disk exactly if two tests can pass before either append, with
    budgets left for both: whenever the log is no larger than the fullest header.  mkfs makes
    log.size LOGSIZE, which is the fullest header for budgets of MAXOPBLOCKS.
  */
  lemma OverrunsIff(c: Config)
    requires c.budget <= MAXOPBLOCKS && c.size > 0
    ensures Overruns(c) <==> c.budget > 0 && 2 <= c.size <= Bound(c)
  {
    hide Reachable;
    if s: State :| Reachable(c, s) && |s.lh| >= c.size {
      ListBound(c, s);
    }
    if c.budget > 0 && 2 <= c.size <= Bound(c) {
      OverrunReachable(c);
    }
  }

  lemma ListBound(c: Config, s: State)
    requires c.budget <= MAXOPBLOCKS && Reachable(c, s)
    ensures |s.lh| <= Bound(c) && (c.budget == 0 || c.size <= 1 ==> s.lh == [])
  {
    hide IsRun;
    var ss, acts :| IsRun(c, ss, acts) && |ss| > 0 && ss[|ss| - 1] == s;
    RunInv(c, ss, acts, |ss| - 1);
    if c.budget == 0 || c.size <= 1 { NothingListed(c, ss, acts, |ss| - 1); }
  }
}
