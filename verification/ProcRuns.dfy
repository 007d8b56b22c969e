/** The process tree over every interleaving of fork, exit, wait, kill, sleeping and scheduling. */
module ProcRuns {
  import opened Options
  import opened ProcTree

  datatype State = State(
    procs: Table,
    forking: seq<Option<nat>>,   // for each process inside fork, the slot it is filling
    forker: seq<Option<nat>>,    // for each slot being filled, the process inside fork
    nextpid: nat,
    init: nat,
    reaped: seq<nat>)            // the pids that wait has returned

  datatype Action =
    | Fork(p: nat, np: nat)      // allocproc: the slot becomes an embryo with a new pid
    | ForkFail(p: nat)           // no memory: the slot is given back
    | ForkAdopt(p: nat)          // np->parent = curproc
    | ForkDone(p: nat)           // np->state = RUNNABLE
    | Exit(p: nat)
    | Reap(p: nat, z: nat)       // wait finds a zombie child
    | WaitSleep(p: nat)          // wait finds only living children
    | Run(p: nat) | Yield(p: nat) | SleepOn(p: nat, id: nat) | WakeAll(id: nat) | Kill(p: nat)
    | WakeOne(p: nat)            // wakeupproc, which the semaphore applies to a sleeper only

  predicate Shaped(s: State) {
    |s.forking| == |s.forker| == |s.procs| && s.init < |s.procs|
  }

  predicate Alive(p: Proc) { p.state.Runnable? || p.state.Running? || p.state.Sleeping? }

  /** The calling process is running, and not in the middle of a fork. */
  predicate Calls(s: State, p: nat) {
    Shaped(s) && p < |s.procs| && s.procs[p].state.Running? && s.forking[p].None?
  }

  predicate InFork(s: State, p: nat) {
    Shaped(s) && p < |s.procs| && s.procs[p].state.Running? && s.forking[p].Some? && s.forking[p].value < |s.procs|
  }

  ghost predicate Enabled(s: State, a: Action) {
    Shaped(s) &&
    match a
    case Fork(p, np) =>
      Calls(s, p) && np < |s.procs| && s.procs[np].state.Unused? && forall i | 0 <= i < np :: !s.procs[i].state.Unused?
    case ForkFail(p) => InFork(s, p) && s.procs[s.forking[p].value].parent.None?
    case ForkAdopt(p) => InFork(s, p) && s.procs[s.forking[p].value].parent.None?
    case ForkDone(p) => InFork(s, p) && s.procs[s.forking[p].value].parent.Some?
    case Exit(p) => Calls(s, p) && p != s.init
    case Reap(p, z) => Calls(s, p) && IsScan(s.procs, p, FoundZombie(z))
    case WaitSleep(p) => Calls(s, p) && IsScan(s.procs, p, OnlyLiving) && !s.procs[p].killed
    case Run(p) => p < |s.procs| && s.procs[p].state.Runnable?
    case Yield(p) => p < |s.procs| && s.procs[p].state.Running?
    case SleepOn(p, _) => p < |s.procs| && s.procs[p].state.Running?
    case WakeAll(_) => true
    case Kill(p) => p < |s.procs|
    case WakeOne(p) => p < |s.procs| && s.procs[p].state.Sleeping? && s.procs[p].chan.OnOther?
  }

  function SetProc(s: State, p: nat, q: Proc): State
    requires p < |s.procs|
  {
    s.(procs := s.procs[p := q])
  }

  ghost function Step(s: State, a: Action): State
    requires Enabled(s, a)
  {
    match a
    case Fork(p, np) =>
      SetProc(s, np, s.procs[np].(state := Embryo, pid := s.nextpid))
        .(nextpid := s.nextpid + 1, forking := s.forking[p := Some(np)], forker := s.forker[np := Some(p)])
    case ForkFail(p) =>
      var np := s.forking[p].value;
      SetProc(s, np, s.procs[np].(state := Unused)).(forking := s.forking[p := None], forker := s.forker[np := None])
    case ForkAdopt(p) => SetProc(s, s.forking[p].value, s.procs[s.forking[p].value].(parent := Some(p)))
    case ForkDone(p) =>
      var np := s.forking[p].value;
      SetProc(s, np, s.procs[np].(state := Runnable)).(forking := s.forking[p := None], forker := s.forker[np := None])
    case Exit(p) => s.(procs := ExitTable(s.procs, p, s.init))
    case Reap(p, z) =>
      SetProc(s, z, s.procs[z].(state := Unused, pid := 0, parent := None, killed := false))
        .(reaped := s.reaped + [s.procs[z].pid])
    case WaitSleep(p) => SetProc(s, p, s.procs[p].(state := Sleeping, chan := OnProc(p)))
    case Run(p) => SetProc(s, p, s.procs[p].(state := Running))
    case Yield(p) => SetProc(s, p, s.procs[p].(state := Runnable))
    case SleepOn(p, id) => SetProc(s, p, s.procs[p].(state := Sleeping, chan := OnOther(id)))
    case WakeAll(id) => s.(procs := Wakeup(s.procs, OnOther(id)))
    case WakeOne(p) => SetProc(s, p, s.procs[p].(state := Runnable))
    case Kill(p) =>
      var q := s.procs[p].(killed := true);
      SetProc(s, p, if q.state.Sleeping? then q.(state := Runnable) else q)
  }

  // --- the invariant ----------------------------------------------------------------------

  /** Asleep in wait. */
  predicate InWait(t: Table, p: nat) {
    p < |t| && t[p].state.Sleeping? && t[p].chan == OnProc(p)
  }

  ghost predicate LivingParent(t: Table, i: nat)
    requires i < |t|
  {
    t[i].parent.Some? && t[i].parent.value < |t| && Alive(t[t[i].parent.value])
  }

  ghost predicate Good(s: State, i: nat)
    requires Shaped(s) && i < |s.procs|
  {
    var p := s.procs[i];
    && (p.state.Unused? ==> p.parent.None?)
    && (i == s.init ==> Alive(p) && p.parent.None?)
    && p.parent != Some(i)
    // a process in use, other than init, has a parent that is in use and not a zombie
    && ((Alive(p) || p.state.Zombie?) && i != s.init ==> LivingParent(s.procs, i))
    // nobody sleeps in wait with a zombie child
    && (p.state.Zombie? && p.parent.Some? ==> !InWait(s.procs, p.parent.value))
    && (p.state.Sleeping? && p.chan.OnProc? ==> p.chan == OnProc(i))
    // an embryo belongs to the one process that is forking it
    && (p.state.Embryo? <==> s.forker[i].Some?)
    && (p.state.Embryo? ==>
          var f := s.forker[i].value;
          f < |s.procs| && s.forking[f] == Some(i) && (p.parent.None? || p.parent == Some(f)))
    && (s.forking[i].Some? ==>
          Alive(p) && s.forking[i].value < |s.procs| && s.forker[s.forking[i].value] == Some(i))
    && p.pid < s.nextpid
    && (!p.state.Unused? ==> p.pid != 0)
    && (p.pid != 0 ==> p.pid !in s.reaped)
  }

  ghost predicate SamePid(t: Table, i: nat, j: nat)
    requires i < |t| && j < |t|
  {
    t[i].pid == t[j].pid
  }

  ghost predicate PidsDistinct(t: Table) {
    forall i: nat, j: nat {:trigger SamePid(t, i, j)} | i < j < |t| && SamePid(t, i, j) :: t[i].pid == 0
  }

  ghost predicate NoRepeat(q: seq<nat>) {
    forall i: nat, j: nat | i < j < |q| :: q[i] != q[j]
  }

  ghost predicate Inv(s: State) {
    && Shaped(s) && s.nextpid > 0
    && (forall i: nat | i < |s.procs| :: Good(s, i))
    && PidsDistinct(s.procs)
    && NoRepeat(s.reaped) && (forall k | 0 <= k < |s.reaped| :: 0 < s.reaped[k] < s.nextpid)
  }

  lemma PidsKept(t: Table, t': Table)
    requires PidsDistinct(t) && |t'| == |t| && forall i | 0 <= i < |t| :: t'[i].pid == t[i].pid || t'[i].pid == 0
    ensures PidsDistinct(t')
  {
    forall i: nat, j: nat | i < j < |t'| && SamePid(t', i, j) ensures t'[i].pid == 0 {
      if t'[i].pid != 0 { assert SamePid(t, i, j); }
    }
  }

  lemma ForkKeepsInv(s: State, p: nat, np: nat)
    requires Inv(s) && Enabled(s, Fork(p, np))
    ensures Inv(Step(s, Fork(p, np)))
  {
    var s' := Step(s, Fork(p, np));
    forall i: nat | i < |s'.procs| ensures Good(s', i) {
      assert Good(s, i) && Good(s, p) && Good(s, np);
    }
    forall i: nat, j: nat | i < j < |s'.procs| && SamePid(s'.procs, i, j) ensures s'.procs[i].pid == 0 {
      assert Good(s, i) && Good(s, j);
      if i != np && j != np { assert SamePid(s.procs, i, j); }
    }
  }

  lemma ForkEndKeepsInv(s: State, a: Action)
    requires Inv(s) && Enabled(s, a) && (a.ForkFail? || a.ForkAdopt? || a.ForkDone?)
    ensures Inv(Step(s, a))
  {
    hide PidsDistinct;
    var s', np := Step(s, a), s.forking[a.p].value;
    PidsKept(s.procs, s'.procs);
    forall i: nat | i < |s'.procs| ensures Good(s', i) {
      assert Good(s, i) && Good(s, a.p) && Good(s, np);
    }
  }

  lemma OtherPid(t: Table, i: nat, j: nat)
    requires PidsDistinct(t) && i < |t| && j < |t| && i != j && t[i].pid != 0
    ensures t[i].pid != t[j].pid
  {
    var a, b := if i < j then i else j, if i < j then j else i;
    if t[i].pid == t[j].pid { assert SamePid(t, a, b); }
  }

  /** What exit does to slot i: it is reparented, perhaps woken, or becomes the zombie. */
  ghost predicate ExitShaped(t: Table, r: Table, cur: nat, init: nat, i: nat)
    requires i < |t| == |r|
  {
    && r[i].pid == t[i].pid && r[i].chan == t[i].chan
    && r[i].parent == (if t[i].parent == Some(cur) then Some(init) else t[i].parent)
    && (if i == cur then r[i].state.Zombie?
        else r[i].state == t[i].state || (t[i].state.Sleeping? && r[i].state.Runnable?))
    && (IsZombieChild(t[i], cur) && init != cur ==> !InWait(r, init))
  }

  lemma ExitShape(t: Table, cur: nat, init: nat, i: nat)
    requires cur < |t| && i < |t| && t[cur].state.Running?
    ensures ExitShaped(t, ExitTable(t, cur, init), cur, init, i)
  {
    var t1 := if t[cur].parent.Some? then Wakeup(t, OnProc(t[cur].parent.value)) else t;
    if IsZombieChild(t[i], cur) {
      assert IsZombieChild(t1[i], cur);
      assert ZombieBefore(t1, cur, |t|);
    }
  }

  lemma ExitWakesParent(t: Table, cur: nat, init: nat)
    requires cur < |t| && t[cur].state.Running? && t[cur].parent.Some? && t[cur].parent.value != cur
    ensures !InWait(ExitTable(t, cur, init), t[cur].parent.value)
  {}

  lemma ExitKeepsInv(s: State, p: nat)
    requires Inv(s) && Enabled(s, Exit(p))
    ensures Inv(Step(s, Exit(p)))
  {
    var s' := Step(s, Exit(p));
    assert Good(s, p);
    forall i: nat | i < |s'.procs| ensures ExitShaped(s.procs, s'.procs, p, s.init, i) {
      ExitShape(s.procs, p, s.init, i);
    }
    if s.procs[p].parent.Some? { ExitWakesParent(s.procs, p, s.init); }
    ExitedInv(s, s', p);
  }

  lemma ExitedInv(s: State, s': State, p: nat)
    requires Inv(s) && Enabled(s, Exit(p)) && |s'.procs| == |s.procs| && s' == s.(procs := s'.procs)
    requires forall i: nat | i < |s.procs| :: ExitShaped(s.procs, s'.procs, p, s.init, i)
    requires s.procs[p].parent.Some? ==> !InWait(s'.procs, s.procs[p].parent.value)
    ensures Inv(s')
  {
    forall i: nat | i < |s.procs| ensures s'.procs[i].pid == s.procs[i].pid {
      assert ExitShaped(s.procs, s'.procs, p, s.init, i);
    }
    PidsKept(s.procs, s'.procs);
    forall i: nat | i < |s'.procs| ensures Good(s', i) {
      assert Good(s, i) && Good(s, p) && Good(s, s.init);
      assert ExitShaped(s.procs, s'.procs, p, s.init, i) && ExitShaped(s.procs, s'.procs, p, s.init, s.init);
      var q := s.procs[i].parent;
      if q.Some? && q.value < |s.procs| { assert ExitShaped(s.procs, s'.procs, p, s.init, q.value); }
    }
  }

  lemma ReapKeepsInv(s: State, p: nat, z: nat)
    requires Inv(s) && Enabled(s, Reap(p, z))
    ensures Inv(Step(s, Reap(p, z)))
  {
    var s' := Step(s, Reap(p, z));
    PidsKept(s.procs, s'.procs);
    assert Good(s, z);
    forall i: nat | i < |s'.procs| ensures Good(s', i) {
      assert Good(s, i);
      if i != z && s.procs[i].pid != 0 { OtherPid(s.procs, i, z); }
    }
  }

  lemma WaitKeepsInv(s: State, p: nat)
    requires Inv(s) && Enabled(s, WaitSleep(p))
    ensures Inv(Step(s, WaitSleep(p)))
  {
    var s' := Step(s, WaitSleep(p));
    PidsKept(s.procs, s'.procs);
    forall i: nat | i < |s'.procs| ensures Good(s', i) { assert Good(s, i); }
  }

  lemma RunKeepsInv(s: State, a: Action)
    requires Inv(s) && Enabled(s, a) && (a.Run? || a.Yield? || a.SleepOn?)
    ensures Inv(Step(s, a))
  {
    var s' := Step(s, a);
    PidsKept(s.procs, s'.procs);
    forall i: nat | i < |s'.procs| ensures Good(s', i) { assert Good(s, i); }
  }

  lemma WakeKeepsInv(s: State, a: Action)
    requires Inv(s) && Enabled(s, a) && (a.WakeAll? || a.Kill? || a.WakeOne?)
    ensures Inv(Step(s, a))
  {
    var s' := Step(s, a);
    PidsKept(s.procs, s'.procs);
    forall i: nat | i < |s'.procs| ensures Good(s', i) { assert Good(s, i); }
  }

  lemma StepKeepsInv(s: State, a: Action)
    requires Inv(s) && Enabled(s, a)
    ensures Inv(Step(s, a))
  {
    match a
    case Fork(p, np) => ForkKeepsInv(s, p, np);
    case ForkFail(_) | ForkAdopt(_) | ForkDone(_) => ForkEndKeepsInv(s, a);
    case Exit(p) => ExitKeepsInv(s, p);
    case Reap(p, z) => ReapKeepsInv(s, p, z);
    case WaitSleep(p) => WaitKeepsInv(s, p);
    case Run(_) | Yield(_) | SleepOn(_, _) => RunKeepsInv(s, a);
    case WakeAll(_) | Kill(_) | WakeOne(_) => WakeKeepsInv(s, a);
  }

  // --- whole runs -------------------------------------------------------------------------

  /** After `userinit`: one process, in some slot, with pid 1. */
  ghost predicate IsStart(s: State) {
    && Shaped(s)
    && (forall i | 0 <= i < |s.procs| :: s.forking[i].None? && s.forker[i].None?)
    && (forall i | 0 <= i < |s.procs| && i != s.init :: s.procs[i] == FREE)
    && s.procs[s.init] == FREE.(state := Runnable, pid := 1)
    && s.nextpid == 2 && s.reaped == []
  }

  ghost predicate IsRun(ss: seq<State>, acts: seq<Action>) {
    && |ss| == |acts| + 1 && IsStart(ss[0])
    && forall i | 0 <= i < |acts| :: Enabled(ss[i], acts[i]) && ss[i + 1] == Step(ss[i], acts[i])
  }

  lemma StartInv(s: State)
    requires IsStart(s)
    ensures Inv(s)
  {
    forall i: nat | i < |s.procs| ensures Good(s, i) {}
  }

  lemma {:induction false} RunInv(ss: seq<State>, acts: seq<Action>, k: nat)
    requires IsRun(ss, acts) && k < |ss|
    ensures Inv(ss[k])
  {
    if k > 0 {
      RunInv(ss, acts, k - 1);
      StepKeepsInv(ss[k - 1], acts[k - 1]);
    } else {
      StartInv(ss[0]);
    }
  }

  /** In every reachable state every process in use, other than init, has a living parent; and init lives. */
  lemma ParentsLive(ss: seq<State>, acts: seq<Action>, k: nat, i: nat)
    requires IsRun(ss, acts) && k < |ss| && i < |ss[k].procs|
    requires Alive(ss[k].procs[i]) || ss[k].procs[i].state.Zombie?
    ensures i != ss[k].init ==> LivingParent(ss[k].procs, i)
    ensures i == ss[k].init ==> Alive(ss[k].procs[i])
  {
    RunInv(ss, acts, k);
    assert Good(ss[k], i);
  }

  /**
    In every reachable state pids in use are distinct, and no pid has been returned by wait twice or is in use
    again.
  */
  lemma PidsUnique(ss: seq<State>, acts: seq<Action>, k: nat, i: nat, j: nat)
    requires IsRun(ss, acts) && k < |ss| && i < |ss[k].procs| && j < |ss[k].procs| && i != j
    ensures ss[k].procs[i].pid != 0 ==> ss[k].procs[i].pid != ss[k].procs[j].pid && ss[k].procs[i].pid !in ss[k].reaped
    ensures NoRepeat(ss[k].reaped)
  {
    RunInv(ss, acts, k);
    assert Good(ss[k], i);
    if ss[k].procs[i].pid != 0 { OtherPid(ss[k].procs, i, j); }
  }

  /** No process sleeps in wait while it has a zombie child. */
  lemma WaitersHaveNoZombies(ss: seq<State>, acts: seq<Action>, k: nat, p: nat, z: nat)
    requires IsRun(ss, acts) && k < |ss| && p < |ss[k].procs| && z < |ss[k].procs|
    requires InWait(ss[k].procs, p)
    ensures !IsZombieChild(ss[k].procs[z], p)
  {
    RunInv(ss, acts, k);
    assert Good(ss[k], z);
  }

  // --- whole calls ------------------------------------------------------------------------

  /** fork with nothing in between: a runnable child with a pid no one has had, and no one else is changed. */
  lemma ForkMakesChild(s: State, p: nat, np: nat)
    requires Inv(s) && Enabled(s, Fork(p, np))
    ensures var s1 := Step(s, Fork(p, np));
            Enabled(s1, ForkAdopt(p)) && Enabled(s1, ForkFail(p)) && Enabled(Step(s1, ForkAdopt(p)), ForkDone(p))
    ensures var r := Step(Step(Step(s, Fork(p, np)), ForkAdopt(p)), ForkDone(p));
            && r == s.(procs := r.procs, nextpid := s.nextpid + 1) && |r.procs| == |s.procs|
            && r.procs[np] == s.procs[np].(state := Runnable, pid := s.nextpid, parent := Some(p))
            && forall i | 0 <= i < |s.procs| && i != np :: r.procs[i] == s.procs[i] && s.procs[i].pid != s.nextpid
    ensures Step(Step(s, Fork(p, np)), ForkFail(p)).procs[np].state == Unused
  {
    assert Good(s, np);
    forall i: nat | i < |s.procs|
      ensures s.procs[i].pid != s.nextpid
    {
      assert Good(s, i);
    }
    var r := Step(Step(Step(s, Fork(p, np)), ForkAdopt(p)), ForkDone(p));
    assert r.forking == s.forking && r.forker == s.forker;
  }

  /** A process is put back exactly as it was when it gives the processor up again. */
  lemma RunThenYield(s: State, p: nat)
    requires Enabled(s, Run(p))
    ensures Step(s, Run(p)).procs[p].state == Running
    ensures Enabled(Step(s, Run(p)), Yield(p)) && Step(Step(s, Run(p)), Yield(p)) == s
  {
    assert Step(Step(s, Run(p)), Yield(p)).procs == s.procs;
  }

  /** What wakes a sleeper: a kill, its own wakeup, that of its channel, and, in wait, the exit of a child. */
  ghost predicate Rouses(s: State, a: Action, p: nat)
    requires Enabled(s, a) && p < |s.procs|
  {
    match a
    case Kill(q) => q == p
    case WakeOne(q) => q == p
    case WakeAll(id) => s.procs[p].chan == OnOther(id)
    case Exit(c) => WokenByExit(s.procs, c, s.init, p)
    case _ => false
  }

  predicate Asleep(s: State, p: nat, chan: Chan) {
    p < |s.procs| && s.procs[p].state == Sleeping && s.procs[p].chan == chan
  }

  lemma SleeperStep(s: State, a: Action, p: nat, chan: Chan)
    requires Inv(s) && Enabled(s, a) && Asleep(s, p, chan)
    ensures var r := Step(s, a);
            |r.procs| == |s.procs| && if Rouses(s, a, p) then r.procs[p].state == Runnable else Asleep(r, p, chan)
  {
    assert Good(s, p);
    if a.Exit? {
      ExitMeans(s.procs, a.p, s.init);
    } else if a.ForkFail? || a.ForkAdopt? || a.ForkDone? {
      assert Good(s, a.p) && Good(s, s.forking[a.p].value);
    }
  }

  /** p goes to sleep in step k, on a channel or in wait, and nothing up to j wakes it. */
  ghost predicate SleepsFrom(ss: seq<State>, acts: seq<Action>, k: nat, j: nat, p: nat, chan: Chan) {
    && IsRun(ss, acts) && k < j <= |acts|
    && ((acts[k] == WaitSleep(p) && chan == OnProc(p)) || (chan.OnOther? && acts[k] == SleepOn(p, chan.id)))
    && forall i | k < i < j :: p < |ss[i].procs| && !Rouses(ss[i], acts[i], p)
  }

  /** A process sleeps exactly until something that wakes it, and is runnable then. */
  lemma {:induction false} SleepsUntil(ss: seq<State>, acts: seq<Action>, k: nat, j: nat, p: nat, chan: Chan)
    requires SleepsFrom(ss, acts, k, j, p, chan)
    ensures Asleep(ss[j], p, chan)
    ensures j < |acts| ==> p < |ss[j + 1].procs|
                           && (Rouses(ss[j], acts[j], p) <==> ss[j + 1].procs[p].state == Runnable)
    decreases j
  {
    hide Inv, Enabled, Step, Rouses;
    RunInv(ss, acts, j - 1);
    RunInv(ss, acts, j);
    if j > k + 1 {
      SleepsUntil(ss, acts, k, j - 1, p, chan);
      SleeperStep(ss[j - 1], acts[j - 1], p, chan);
    } else {
      FallsAsleep(ss[k], acts[k], p, chan);
    }
    if j < |acts| { SleeperStep(ss[j], acts[j], p, chan); }
  }

  lemma FallsAsleep(s: State, a: Action, p: nat, chan: Chan)
    requires Enabled(s, a)
    requires (a == WaitSleep(p) && chan == OnProc(p)) || (chan.OnOther? && a == SleepOn(p, chan.id))
    ensures Asleep(Step(s, a), p, chan)
  {
  }

  // --- the child of a process -------------------------------------------------------------

  /** The child c of p exits in step k; up to j neither wait takes it nor p exits. */
  ghost predicate Unreaped(ss: seq<State>, acts: seq<Action>, k: nat, j: nat, c: nat, p: nat) {
    && IsRun(ss, acts) && k < j < |ss| && acts[k] == Exit(c) && c < |ss[k].procs| && ss[k].procs[c].parent == Some(p)
    && forall i | k < i < j :: acts[i] != Exit(p) && !(acts[i].Reap? && acts[i].z == c)
  }

  lemma ZombieStep(s: State, a: Action, c: nat, p: nat)
    requires Inv(s) && Enabled(s, a) && c < |s.procs| && s.procs[c].parent == Some(p)
    requires a == Exit(c) || (s.procs[c].state.Zombie? && a != Exit(p) && !(a.Reap? && a.z == c))
    ensures var r := Step(s, a);
            c < |r.procs| && IsZombieChild(r.procs[c], p) && r.procs[c].pid == s.procs[c].pid
  {
    assert Good(s, c);
    if a.Exit? {
      ExitMeans(s.procs, a.p, s.init);
    } else if a.ForkFail? || a.ForkAdopt? || a.ForkDone? {
      assert Good(s, a.p) && Good(s, s.forking[a.p].value);
    }
  }

  lemma {:induction false} ZombieStays(ss: seq<State>, acts: seq<Action>, k: nat, j: nat, c: nat, p: nat)
    requires Unreaped(ss, acts, k, j, c, p)
    ensures c < |ss[j].procs| && IsZombieChild(ss[j].procs[c], p) && ss[j].procs[c].pid == ss[k].procs[c].pid
    decreases j
  {
    hide Inv, Enabled, Step;
    RunInv(ss, acts, j - 1);
    if j > k + 1 { ZombieStays(ss, acts, k, j - 1, c, p); }
    ZombieStep(ss[j - 1], acts[j - 1], c, p);
  }

  lemma {:induction false} FirstZombie(t: Table, p: nat, c: nat) returns (z: nat)
    requires c < |t| && IsZombieChild(t[c], p)
    ensures IsScan(t, p, FoundZombie(z)) && z <= c
  {
    if j: nat :| j < c && IsZombieChild(t[j], p) {
      z := FirstZombie(t, p, j);
    } else {
      z := c;
    }
  }

  /** From the exit of a child on, its parent is not asleep in wait, and any wait of it takes a zombie at once. */
  lemma WaitTakes(ss: seq<State>, acts: seq<Action>, k: nat, j: nat, c: nat, p: nat)
    requires Unreaped(ss, acts, k, j, c, p)
    ensures !InWait(ss[j].procs, p)
    ensures Calls(ss[j], p) ==> !Enabled(ss[j], WaitSleep(p)) && exists z: nat :: z <= c && Enabled(ss[j], Reap(p, z))
  {
    ZombieStays(ss, acts, k, j, c, p);
    if InWait(ss[j].procs, p) { WaitersHaveNoZombies(ss, acts, j, p, c); }
    var z := FirstZombie(ss[j].procs, p, c);
    assert Calls(ss[j], p) ==> Enabled(ss[j], Reap(p, z));
  }

  /** When wait takes it, wait returns the pid the child exited with, and the slot is as allocproc wants it. */
  lemma ReapReturns(ss: seq<State>, acts: seq<Action>, k: nat, j: nat, c: nat, p: nat)
    requires Unreaped(ss, acts, k, j, c, p) && j < |acts| && acts[j] == Reap(p, c)
    ensures ss[j + 1].reaped == ss[j].reaped + [ss[k].procs[c].pid]
    ensures c < |ss[j + 1].procs| && ss[j + 1].procs[c] == FREE.(chan := ss[j].procs[c].chan)
    ensures |ss[j + 1].procs| == |ss[j].procs|
    ensures forall i | 0 <= i < |ss[j].procs| && i != c :: ss[j + 1].procs[i] == ss[j].procs[i]
  {
    ZombieStays(ss, acts, k, j, c, p);
    assert Enabled(ss[j], acts[j]) && ss[j + 1] == Step(ss[j], acts[j]);
  }

  // --- killed processes -------------------------------------------------------------------

  lemma KilledStep(s: State, a: Action, p: nat)
    requires Inv(s) && Enabled(s, a) && p < |s.procs|
    requires a == Kill(p) || (s.procs[p].killed && !(a.Reap? && a.z == p))
    ensures p < |Step(s, a).procs| && Step(s, a).procs[p].killed
  {
    if a.Exit? { ExitMeans(s.procs, a.p, s.init); }
  }

  /** Once killed, a process does not go to sleep in wait, until its slot is free again. */
  lemma {:induction false} KilledNeverWaits(ss: seq<State>, acts: seq<Action>, k: nat, j: nat, p: nat)
    requires IsRun(ss, acts) && k < j <= |acts| && acts[k] == Kill(p)
    requires forall i | k < i < j :: !(acts[i].Reap? && acts[i].z == p)
    ensures p < |ss[j].procs| && ss[j].procs[p].killed && (j < |acts| ==> acts[j] != WaitSleep(p))
    decreases j
  {
    hide Inv, Step;
    RunInv(ss, acts, j - 1);
    if j > k + 1 { KilledNeverWaits(ss, acts, k, j - 1, p); }
    assert Enabled(ss[j - 1], acts[j - 1]) && ss[j] == Step(ss[j - 1], acts[j - 1]);
    KilledStep(ss[j - 1], acts[j - 1], p);
    assert j < |acts| ==> Enabled(ss[j], acts[j]);
  }
}
