/**
  sleeplock.c on top of the sleep/wakeup protocol of proc.c, over every interleaving.

  Any number of processes share one sleep lock.  Each process is at a point of the code
  (a `Pc`), and one step of a process runs it to the next point where another process can
  interfere: taking or giving up the inner spinlock, taking or giving up ptable.lock, or
  parking.  Process p has pid p + 1, so pids are distinct and not 0.
*/
module SleepLock {
  import opened Options

  datatype Pc =
    | Out           // does not hold the sleep lock, and is outside the code below
    | WantLk        // acquiresleep: acquire(&lk->lk)
    | Test          // while (lk->locked), holding lk->lk
    | SleepEnter    // sleep: acquire(&ptable.lock), holding lk->lk
    | SleepHeld     // sleep: release(lk), holding both
    | SleepPark     // sleep: chan = lk, state = SLEEPING, sched(), holding ptable.lock
    | Asleep        // SLEEPING on lk
    | Woken         // RUNNABLE, not yet scheduled
    | SleepTidy     // sleep: chan = 0, release(&ptable.lock), holding ptable.lock
    | Retake        // sleep: acquire(lk)
    | Owner         // acquiresleep has returned
    | WantRelease   // releasesleep: acquire(&lk->lk)
    | TestRelease   // if (lk->pid != myproc()->pid), holding lk->lk
    | WakeEnter     // wakeup: acquire(&ptable.lock), holding lk->lk; the lock has been cleared
    | WakeHeld      // wakeup1(lk), release(&ptable.lock), holding both
    | WakeDone      // release(&lk->lk)

  datatype State = State(
    pcs: seq<Pc>,
    lk: Option<nat>,      // who holds the inner spinlock
    pt: Option<nat>,      // who holds ptable.lock
    locked: bool,         // lk->locked
    pid: nat)             // lk->pid

  /** A process starts one of the two calls, runs on, or is killed (which wakes it if it is asleep). */
  datatype Action = Acquire(p: nat) | Release(p: nat) | Run(p: nat) | Kill(p: nat)

  predicate HoldsLk(pc: Pc) {
    || pc.Test? || pc.SleepEnter? || pc.SleepHeld? || pc.TestRelease?
    || pc.WakeEnter? || pc.WakeHeld? || pc.WakeDone?
  }

  predicate HoldsPt(pc: Pc) {
    pc.SleepHeld? || pc.SleepPark? || pc.SleepTidy? || pc.WakeHeld?
  }

  predicate Enabled(s: State, a: Action) {
    && a.p < |s.pcs|
    && match a
       case Acquire(p) => s.pcs[p] == Out
       case Release(p) => s.pcs[p].Out? || s.pcs[p].Owner?
       case Kill(p) => s.pt.None?
       case Run(p) =>
         match s.pcs[p]
         case Out | Owner | Asleep => false
         case WantLk | Retake | WantRelease => s.lk.None?
         case SleepEnter | WakeEnter | Woken => s.pt.None?
         case _ => true
  }

  function At(s: State, p: nat, pc: Pc): State
    requires p < |s.pcs|
  {
    s.(pcs := s.pcs[p := pc])
  }

  /** `wakeup1`: every process asleep on the lock becomes runnable. */
  function WakeAll(pcs: seq<Pc>): (r: seq<Pc>)
    ensures |r| == |pcs|
    ensures forall p | 0 <= p < |pcs| :: r[p] == if pcs[p] == Asleep then Woken else pcs[p]
  {
    seq(|pcs|, p requires 0 <= p < |pcs| => if pcs[p] == Asleep then Woken else pcs[p])
  }

  function Step(s: State, a: Action): State
    requires Enabled(s, a)
  {
    var p := a.p;
    match a
    case Acquire(_) => At(s, p, WantLk)
    case Release(_) => At(s, p, WantRelease)
    case Kill(_) => if s.pcs[p] == Asleep then At(s, p, Woken) else s
    case Run(_) =>
      match s.pcs[p]
      case WantLk => At(s, p, Test).(lk := Some(p))
      case Test =>
        if s.locked then At(s, p, SleepEnter)
        else At(s, p, Owner).(locked := true, pid := p + 1, lk := None)
      case SleepEnter => At(s, p, SleepHeld).(pt := Some(p))
      case SleepHeld => At(s, p, SleepPark).(lk := None)
      case SleepPark => At(s, p, Asleep).(pt := None)
      case Woken => At(s, p, SleepTidy).(pt := Some(p))
      case SleepTidy => At(s, p, Retake).(pt := None)
      case Retake => At(s, p, Test).(lk := Some(p))
      case WantRelease => At(s, p, TestRelease).(lk := Some(p))
      case TestRelease =>
        if s.pid != p + 1 then At(s, p, Out).(lk := None)
        else At(s, p, WakeEnter).(locked := false, pid := 0)
      case WakeEnter => At(s, p, WakeHeld).(pt := Some(p))
      case WakeHeld => At(s, p, WakeDone).(pcs := WakeAll(s.pcs[p := WakeDone]), pt := None)
      case WakeDone => At(s, p, Out).(lk := None)
      case _ => s
  }

  predicate GoingToSleep(pc: Pc) { pc.SleepEnter? || pc.SleepHeld? }

  predicate Sleeping(pc: Pc) { pc.SleepPark? || pc.Asleep? }

  /** The process named by lk->pid has the lock, or is on its way to give it back. */
  predicate Keeps(pc: Pc) { pc.Owner? || pc.WantRelease? || pc.TestRelease? }

  /** Someone has cleared the lock and has yet to wake the sleepers; it holds the inner spinlock. */
  ghost predicate AboutToWake(s: State) {
    s.lk.Some? && s.lk.value < |s.pcs| && (s.pcs[s.lk.value].WakeEnter? || s.pcs[s.lk.value].WakeHeld?)
  }

  /**
    What holds of each process: it holds the spinlocks its place in the code says, lk->pid names
    it exactly when it has the lock, and if it has decided to sleep or sleeps, then it waits for
    a held lock or for a wakeup that is under way.
  */
  ghost predicate Good(s: State, p: nat)
    requires p < |s.pcs|
  {
    var pc := s.pcs[p];
    && (HoldsLk(pc) <==> s.lk == Some(p))
    && (HoldsPt(pc) <==> s.pt == Some(p))
    && (pc.Owner? ==> s.pid == p + 1)
    && (s.pid == p + 1 ==> Keeps(pc))
    && (GoingToSleep(pc) ==> s.locked)
    && (Sleeping(pc) ==> s.locked || AboutToWake(s))
  }

  ghost predicate Inv(s: State) {
    && (forall p: nat | p < |s.pcs| :: Good(s, p))
    && (s.lk.Some? ==> s.lk.value < |s.pcs|)
    && (s.pt.Some? ==> s.pt.value < |s.pcs|)
    && (s.locked <==> s.pid != 0)
    && s.pid <= |s.pcs|
  }

  lemma CallGood(s: State, a: Action, q: nat)
    requires Inv(s) && Enabled(s, a) && !a.Run? && q < |s.pcs|
    ensures Good(Step(s, a), q)
  {
    assert Good(s, q) && Good(s, a.p);
  }

  lemma AcquireGood(s: State, p: nat, q: nat)
    requires Inv(s) && Enabled(s, Run(p)) && q < |s.pcs| && (s.pcs[p].WantLk? || s.pcs[p].Test? || s.pcs[p].Retake?)
    ensures Good(Step(s, Run(p)), q)
  {
    assert Good(s, q) && Good(s, p);
  }

  lemma SleepGood(s: State, p: nat, q: nat)
    requires Inv(s) && Enabled(s, Run(p)) && q < |s.pcs|
             && (s.pcs[p].SleepEnter? || s.pcs[p].SleepHeld? || s.pcs[p].SleepPark?)
    ensures Good(Step(s, Run(p)), q)
  {
    assert Good(s, q) && Good(s, p);
  }

  lemma ResumeGood(s: State, p: nat, q: nat)
    requires Inv(s) && Enabled(s, Run(p)) && q < |s.pcs| && (s.pcs[p].Woken? || s.pcs[p].SleepTidy?)
    ensures Good(Step(s, Run(p)), q)
  {
    assert Good(s, q) && Good(s, p);
  }

  lemma ReleaseGood(s: State, p: nat, q: nat)
    requires Inv(s) && Enabled(s, Run(p)) && q < |s.pcs| && (s.pcs[p].WantRelease? || s.pcs[p].TestRelease?)
    ensures Good(Step(s, Run(p)), q)
  {
    assert Good(s, q) && Good(s, p);
  }

  lemma WakeGood(s: State, p: nat, q: nat)
    requires Inv(s) && Enabled(s, Run(p)) && q < |s.pcs|
             && (s.pcs[p].WakeEnter? || s.pcs[p].WakeHeld? || s.pcs[p].WakeDone?)
    ensures Good(Step(s, Run(p)), q)
  {
    assert Good(s, q) && Good(s, p);
  }

  /** A step of one process is good for every process q. */
  lemma StepGood(s: State, a: Action, q: nat)
    requires Inv(s) && Enabled(s, a) && q < |s.pcs|
    ensures Good(Step(s, a), q)
  {
    if !a.Run? { CallGood(s, a, q); }
    else {
      match s.pcs[a.p]
      case WantLk | Test | Retake => AcquireGood(s, a.p, q);
      case SleepEnter | SleepHeld | SleepPark => SleepGood(s, a.p, q);
      case Woken | SleepTidy => ResumeGood(s, a.p, q);
      case WantRelease | TestRelease => ReleaseGood(s, a.p, q);
      case WakeEnter | WakeHeld | WakeDone => WakeGood(s, a.p, q);
    }
  }

  /** Every step of every process keeps the invariant. */
  lemma StepKeepsInv(s: State, a: Action)
    requires Inv(s) && Enabled(s, a)
    ensures Inv(Step(s, a))
  {
    var s' := Step(s, a);
    forall q: nat | q < |s'.pcs| ensures Good(s', q) { StepGood(s, a, q); }
  }

  /** Only the process that owns the lock clears it. */
  lemma OnlyOwnerReleases(s: State, a: Action)
    requires Inv(s) && Enabled(s, a) && s.locked && !Step(s, a).locked
    ensures a == Run(a.p) && s.pid == a.p + 1 && Keeps(s.pcs[a.p])
  {
    assert Good(s, a.p);
  }

  ghost predicate IsRun(ss: seq<State>, acts: seq<Action>) {
    && |ss| == |acts| + 1
    && (forall p | 0 <= p < |ss[0].pcs| :: ss[0].pcs[p] == Out)
    && ss[0] == State(ss[0].pcs, None, None, false, 0)
    && forall i | 0 <= i < |acts| :: Enabled(ss[i], acts[i]) && ss[i + 1] == Step(ss[i], acts[i])
  }

  lemma {:induction false} RunInv(ss: seq<State>, acts: seq<Action>, i: nat)
    requires IsRun(ss, acts) && i < |ss|
    ensures Inv(ss[i])
  {
    if i > 0 {
      RunInv(ss, acts, i - 1);
      StepKeepsInv(ss[i - 1], acts[i - 1]);
    }
  }

  /** In every reachable state at most one process owns the lock. */
  lemma MutualExclusion(ss: seq<State>, acts: seq<Action>, i: nat, p: nat, q: nat)
    requires IsRun(ss, acts) && i < |ss| && p < |ss[i].pcs| && q < |ss[i].pcs|
    requires ss[i].pcs[p] == Owner && ss[i].pcs[q] == Owner
    ensures p == q && ss[i].locked
  {
    RunInv(ss, acts, i);
    assert Good(ss[i], p) && Good(ss[i], q);
  }

  /**
    No wakeup is lost: in every reachable state in which the inner spinlock is free, a process
    asleep on the lock is waiting for a lock that some other process holds and has yet to release.
  */
  lemma NoLostWakeup(ss: seq<State>, acts: seq<Action>, i: nat, p: nat)
    requires IsRun(ss, acts) && i < |ss| && p < |ss[i].pcs|
    requires ss[i].pcs[p] == Asleep && ss[i].lk.None?
    ensures ss[i].locked && 1 <= ss[i].pid <= |ss[i].pcs| && ss[i].pid != p + 1
    ensures Keeps(ss[i].pcs[ss[i].pid - 1])
  {
    RunInv(ss, acts, i);
    assert Good(ss[i], p) && Good(ss[i], ss[i].pid - 1);
  }

  ghost predicate NobodySleeps(s: State) {
    forall p: nat | p < |s.pcs| :: !GoingToSleep(s.pcs[p]) && !Sleeping(s.pcs[p])
  }

  /** A release in progress cannot be overtaken: when it is done, nobody is asleep on the lock. */
  lemma WakeupReachesAll(ss: seq<State>, acts: seq<Action>, i: nat, p: nat)
    requires IsRun(ss, acts) && i < |acts| && p < |ss[i].pcs|
    requires acts[i] == Run(p) && ss[i].pcs[p] == WakeHeld
    ensures NobodySleeps(ss[i + 1])
  {
    RunInv(ss, acts, i);
    assert Good(ss[i], p);
    var s' := ss[i + 1];
    forall q: nat | q < |s'.pcs| ensures !GoingToSleep(s'.pcs[q]) && !Sleeping(s'.pcs[q]) {
      assert Good(ss[i], q);
    }
  }

  // --- whole calls ------------------------------------------------------------------------

  /** Process p can take its next n steps by itself. */
  predicate Goes(s: State, p: nat, n: nat)
    decreases n
  {
    n == 0 || (Enabled(s, Run(p)) && Goes(Step(s, Run(p)), p, n - 1))
  }

  function Alone(s: State, p: nat, n: nat): State
    requires Goes(s, p, n)
    decreases n
  {
    if n == 0 then s else Alone(Step(s, Run(p)), p, n - 1)
  }

  lemma Next(s: State, p: nat, n: nat)
    requires Enabled(s, Run(p)) && Goes(Step(s, Run(p)), p, n)
    ensures Goes(s, p, n + 1) && Alone(s, p, n + 1) == Alone(Step(s, Run(p)), p, n)
    ensures n == 0 ==> Alone(s, p, n + 1) == Step(s, Run(p))
  {
  }

  /** A lock that is free is taken. */
  lemma AcquireTakes(ss: seq<State>, acts: seq<Action>, i: nat, p: nat)
    requires IsRun(ss, acts) && i < |ss| && p < |ss[i].pcs|
    requires ss[i].pcs[p] == Out && !ss[i].locked && ss[i].lk.None?
    ensures Enabled(ss[i], Acquire(p)) && Goes(Step(ss[i], Acquire(p)), p, 2)
    ensures Alone(Step(ss[i], Acquire(p)), p, 2) == ss[i].(pcs := ss[i].pcs[p := Owner], locked := true, pid := p + 1)
  {
    var s0 := Step(ss[i], Acquire(p));
    var s1 := Step(s0, Run(p));
    Next(s1, p, 0);
    Next(s0, p, 1);
  }

  /** For a lock that is held the caller goes to sleep, and changes nothing else. */
  lemma AcquireWaits(ss: seq<State>, acts: seq<Action>, i: nat, p: nat)
    requires IsRun(ss, acts) && i < |ss| && p < |ss[i].pcs|
    requires ss[i].pcs[p] == Out && ss[i].locked && ss[i].lk.None? && ss[i].pt.None?
    ensures Enabled(ss[i], Acquire(p)) && Goes(Step(ss[i], Acquire(p)), p, 5)
    ensures Alone(Step(ss[i], Acquire(p)), p, 5) == ss[i].(pcs := ss[i].pcs[p := Asleep])
  {
    var s0 := Step(ss[i], Acquire(p));
    var s1 := Step(s0, Run(p));
    var s2 := Step(s1, Run(p));
    var s3 := Step(s2, Run(p));
    var s4 := Step(s3, Run(p));
    Next(s4, p, 0);
    Next(s3, p, 1);
    Next(s2, p, 2);
    Next(s1, p, 3);
    Next(s0, p, 4);
  }

  /** A woken process takes the lock if it is free by then, and else goes to sleep again. */
  lemma WokenRetries(ss: seq<State>, acts: seq<Action>, i: nat, p: nat)
    requires IsRun(ss, acts) && i < |ss| && p < |ss[i].pcs|
    requires ss[i].pcs[p] == Woken && ss[i].lk.None? && ss[i].pt.None?
    ensures !ss[i].locked ==>
      && Goes(ss[i], p, 4)
      && Alone(ss[i], p, 4) == ss[i].(pcs := ss[i].pcs[p := Owner], locked := true, pid := p + 1)
    ensures ss[i].locked ==> Goes(ss[i], p, 7) && Alone(ss[i], p, 7) == ss[i].(pcs := ss[i].pcs[p := Asleep])
  {
    var s1 := Step(ss[i], Run(p));
    var s2 := Step(s1, Run(p));
    var s3 := Step(s2, Run(p));
    var s4 := Step(s3, Run(p));
    if !ss[i].locked {
      Next(s3, p, 0);
      Next(s2, p, 1);
      Next(s1, p, 2);
      Next(ss[i], p, 3);
    } else {
      var s5 := Step(s4, Run(p));
      var s6 := Step(s5, Run(p));
      Next(s6, p, 0);
      Next(s5, p, 1);
      Next(s4, p, 2);
      Next(s3, p, 3);
      Next(s2, p, 4);
      Next(s1, p, 5);
      Next(ss[i], p, 6);
    }
  }

  /** The owner's release clears the lock and wakes everybody who is asleep on it. */
  lemma ReleaseReleases(ss: seq<State>, acts: seq<Action>, i: nat, p: nat)
    requires IsRun(ss, acts) && i < |ss| && p < |ss[i].pcs|
    requires ss[i].pcs[p] == Owner && ss[i].lk.None? && ss[i].pt.None?
    ensures Enabled(ss[i], Release(p)) && Goes(Step(ss[i], Release(p)), p, 5)
    ensures var s, t := ss[i], Alone(Step(ss[i], Release(p)), p, 5);
            && !t.locked && t.pid == 0 && t.lk.None? && t.pt.None? && |t.pcs| == |s.pcs| && t.pcs[p] == Out
            && forall q | 0 <= q < |s.pcs| && q != p :: t.pcs[q] == if s.pcs[q] == Asleep then Woken else s.pcs[q]
  {
    RunInv(ss, acts, i);
    assert Good(ss[i], p);
    hide Good, Inv, IsRun, Goes, Alone;
    var s0 := Step(ss[i], Release(p));
    var s1 := Step(s0, Run(p));
    var s2 := Step(s1, Run(p));
    WakesAlone(s2, p);
    Next(s1, p, 3);
    Next(s0, p, 4);
  }

  /** The end of a release, from the call of wakeup on. */
  lemma WakesAlone(s: State, p: nat)
    requires p < |s.pcs| && s.pcs[p] == WakeEnter && s.pt.None?
    ensures Goes(s, p, 3)
    ensures var t := Alone(s, p, 3);
            && t == s.(pcs := t.pcs, lk := None) && |t.pcs| == |s.pcs| && t.pcs[p] == Out
            && forall q | 0 <= q < |s.pcs| && q != p :: t.pcs[q] == if s.pcs[q] == Asleep then Woken else s.pcs[q]
  {
    hide Goes, Alone;
    var s1 := Step(s, Run(p));
    var s2 := Step(s1, Run(p));
    Next(s2, p, 0);
    Next(s1, p, 1);
    Next(s, p, 2);
  }

  /** A release by a process that does not own the lock changes nothing. */
  lemma StrangerReleases(ss: seq<State>, acts: seq<Action>, i: nat, p: nat)
    requires IsRun(ss, acts) && i < |ss| && p < |ss[i].pcs| && ss[i].pcs[p] == Out && ss[i].lk.None?
    ensures Enabled(ss[i], Release(p)) && Goes(Step(ss[i], Release(p)), p, 2)
    ensures Alone(Step(ss[i], Release(p)), p, 2) == ss[i]
  {
    RunInv(ss, acts, i);
    assert Good(ss[i], p);
    var s0 := Step(ss[i], Release(p));
    var s1 := Step(s0, Run(p));
    Next(s1, p, 0);
    Next(s0, p, 1);
    assert Step(s1, Run(p)).pcs == ss[i].pcs;
  }

  /** A kill lets a process that is asleep on the lock try again, and touches nothing else. */
  lemma KillWakes(s: State, p: nat)
    requires p < |s.pcs| && s.pt.None?
    ensures Enabled(s, Kill(p))
    ensures Step(s, Kill(p)) == s.(pcs := s.pcs[p := if s.pcs[p] == Asleep then Woken else s.pcs[p]])
  {
    assert s.pcs[p := s.pcs[p]] == s.pcs;
  }
}
