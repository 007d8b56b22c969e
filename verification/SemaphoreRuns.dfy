/**
  The semaphore of proc.c over every interleaving of acquire and release, in runs without `kill`.

  As for the sleep lock, a process is at a point of the code and one step takes it to the next
  point where another process can interfere.  The processes are the NPROC slots of the table.
*/
module SemaphoreRuns {
  import opened Params
  import opened Options
  import opened Semaphore

  datatype Pc =
    | Out             // in no call; may hold any number of slots
    | WantAcquire     // semaphore_acquire: acquire(&sem->lk)
    | SleepEnter      // queued; sleep: acquire(&ptable.lock), holding sem->lk
    | SleepHeld       // queued; sleep: release(lk), holding both
    | SleepPark       // queued; sleep: state = SLEEPING, sched(), holding ptable.lock
    | Asleep          // queued and SLEEPING
    | Woken           // RUNNABLE; the slot has been handed over
    | SleepTidy       // sleep: release(&ptable.lock), holding ptable.lock
    | Retake          // sleep: acquire(lk)
    | Leave           // release(&sem->lk), holding sem->lk
    | WantRelease     // semaphore_release by a holder: acquire(&sem->lk)
    | WantSignal      // semaphore_release by a process that holds nothing
    | WakeEnter       // wakeupproc: acquire(&ptable.lock), holding sem->lk
    | WakeHeld        // wakeupproc: state = RUNNABLE, release(&ptable.lock), holding both
    | WakeDone        // release(&sem->lk)

  datatype State = State(
    pcs: seq<Pc>,
    held: seq<nat>,      // the slots each process has acquired and not given back
    lk: Option<nat>,     // who holds sem->lk
    pt: Option<nat>,     // who holds ptable.lock
    value: int,
    wfirst: nat,
    q: seq<nat>,         // the waiters, from wfirst on
    credit: int)         // the initial value, plus one for every release by a process that held nothing

  /** `q` in Run is the order that the sort leaves when the process enqueues itself. */
  datatype Action = Acquire(p: nat) | Release(p: nat) | Run(p: nat, prio: seq<int>, q: seq<nat>)

  predicate HoldsLk(pc: Pc) {
    pc.SleepEnter? || pc.SleepHeld? || pc.Leave? || pc.WakeEnter? || pc.WakeHeld? || pc.WakeDone?
  }

  predicate HoldsPt(pc: Pc) { pc.SleepHeld? || pc.SleepPark? || pc.SleepTidy? || pc.WakeHeld? }

  /** In the queue of waiters. */
  predicate Queued(pc: Pc) { pc.SleepEnter? || pc.SleepHeld? || pc.SleepPark? || pc.Asleep? }

  /** Has been handed a slot, but semaphore_acquire has not returned yet. */
  predicate Arriving(pc: Pc) { pc.Woken? || pc.SleepTidy? || pc.Retake? || pc.Leave? }

  ghost predicate Enabled(s: State, a: Action) {
    && a.p < |s.pcs| == |s.held|
    && match a
       case Acquire(p) => s.pcs[p].Out?
       case Release(p) => s.pcs[p].Out?
       case Run(p, prio, q) =>
         match s.pcs[p]
         case Out | Asleep => false
         case WantAcquire => s.lk.None? && (s.value <= 0 ==> Enqueued(s.q, s.wfirst, p, prio, q))
         case Retake | WantSignal => s.lk.None?
         case WantRelease => s.lk.None? && s.held[p] > 0
         case SleepEnter | WakeEnter | Woken => s.pt.None?
         case _ => true
  }

  ghost function At(s: State, p: nat, pc: Pc): State
    requires p < |s.pcs|
  {
    s.(pcs := s.pcs[p := pc])
  }

  ghost function Step(s: State, a: Action): State
    requires Enabled(s, a)
  {
    var p := a.p;
    match a
    case Acquire(_) => At(s, p, WantAcquire)
    case Release(_) => At(s, p, if s.held[p] > 0 then WantRelease else WantSignal)
    case Run(_, prio, q) =>
      match s.pcs[p]
      case WantAcquire =>
        if s.value <= 0 then At(s, p, SleepEnter).(lk := Some(p), value := s.value - 1, q := q)
        else Grant(s, p).(value := s.value - 1)
      case SleepEnter => At(s, p, SleepHeld).(pt := Some(p))
      case SleepHeld => At(s, p, SleepPark).(lk := None)
      case SleepPark => At(s, p, Asleep).(pt := None)
      case Woken => At(s, p, SleepTidy).(pt := Some(p))
      case SleepTidy => At(s, p, Retake).(pt := None)
      case Retake => At(s, p, Leave).(lk := Some(p))
      case Leave => Grant(s, p).(lk := None)
      case WantRelease => Raise(s, p).(held := s.held[p := s.held[p] - 1])
      case WantSignal => Raise(s, p).(credit := s.credit + 1)
      case WakeEnter => At(s, p, WakeHeld).(pt := Some(p))
      case WakeHeld => At(WakeFirst(s), p, WakeDone).(pt := None)
      case WakeDone => At(s, p, Out).(lk := None)
      case _ => s
  }

  /** semaphore_acquire returns. */
  ghost function Grant(s: State, p: nat): State
    requires p < |s.pcs| == |s.held|
  {
    At(s, p, Out).(held := s.held[p := s.held[p] + 1])
  }

  /** `++sem->value`, and on to `wakeupproc` if someone is waiting. */
  ghost function Raise(s: State, p: nat): State
    requires p < |s.pcs|
  {
    At(s, p, if s.value + 1 <= 0 then WakeEnter else WakeDone).(lk := Some(p), value := s.value + 1)
  }

  /** `wakeupproc(sem->waiting[sem->wfirst])` sets the state whatever it was; then the cell is given up. */
  ghost function WakeFirst(s: State): State {
    if s.q == [] || s.q[0] >= |s.pcs| then s
    else At(s, s.q[0], Woken).(q := s.q[1..], wfirst := Cell(s.wfirst, 1))
  }

  ghost function Occurs(q: seq<nat>, x: nat): nat { multiset(q)[x] }

  ghost predicate NoRepeat(q: seq<nat>) {
    forall x: nat :: Occurs(q, x) <= 1
  }

  ghost predicate Good(s: State, p: nat)
    requires p < |s.pcs| == |s.held|
  {
    var pc := s.pcs[p];
    && (HoldsLk(pc) <==> s.lk == Some(p))
    && (HoldsPt(pc) <==> s.pt == Some(p))
    && (Queued(pc) <==> p in s.q)
    && (pc.WantRelease? ==> s.held[p] > 0)
  }

  /** A release has raised the value but has not yet handed the slot over. */
  ghost function InTransit(s: State): nat {
    if s.lk.Some? && s.lk.value < |s.pcs| && (s.pcs[s.lk.value].WakeEnter? || s.pcs[s.lk.value].WakeHeld?) then 1
    else 0
  }

  ghost function Max0(n: int): nat { if n > 0 then n else 0 }

  ghost function Arrivals(pcs: seq<Pc>): nat {
    if pcs == [] then 0 else (if Arriving(pcs[0]) then 1 else 0) + Arrivals(pcs[1..])
  }

  ghost function Sum(held: seq<nat>): nat {
    if held == [] then 0 else held[0] + Sum(held[1..])
  }

  /** The slots handed out and not given back. */
  ghost function Grants(s: State): nat { Arrivals(s.pcs) + Sum(s.held) }

  ghost predicate Inv(s: State) {
    && |s.pcs| == |s.held| == NPROC && s.wfirst < NPROC
    && (forall p: nat | p < |s.pcs| :: Good(s, p))
    && (s.lk.Some? ==> s.lk.value < |s.pcs|)
    && (s.pt.Some? ==> s.pt.value < |s.pcs|)
    && NoRepeat(s.q) && (forall i | 0 <= i < |s.q| :: s.q[i] < |s.pcs|)
    && |s.q| == Max0(-s.value) + InTransit(s)
    && Grants(s) + Max0(s.value) + InTransit(s) == s.credit
  }

  // --- facts about queues and counts ------------------------------------------------------

  lemma {:induction false} ArrivalsUpdate(pcs: seq<Pc>, p: nat, pc: Pc)
    requires p < |pcs|
    ensures Arrivals(pcs[p := pc]) + (if Arriving(pcs[p]) then 1 else 0)
         == Arrivals(pcs) + (if Arriving(pc) then 1 else 0)
  {
    if p == 0 {
      assert pcs[0 := pc][1..] == pcs[1..];
    } else {
      assert pcs[p := pc][1..] == pcs[1..][p - 1 := pc];
      ArrivalsUpdate(pcs[1..], p - 1, pc);
    }
  }

  lemma {:induction false} SumUpdate(held: seq<nat>, p: nat, n: nat)
    requires p < |held|
    ensures Sum(held[p := n]) + held[p] == Sum(held) + n
  {
    if p == 0 {
      assert held[0 := n][1..] == held[1..];
    } else {
      assert held[p := n][1..] == held[1..][p - 1 := n];
      SumUpdate(held[1..], p - 1, n);
    }
  }

  lemma {:induction false} NothingGranted(pcs: seq<Pc>, held: seq<nat>)
    requires |pcs| == |held| && forall p | 0 <= p < |pcs| :: pcs[p].Out? && held[p] == 0
    ensures Arrivals(pcs) == Sum(held) == 0
  {
    if pcs != [] { NothingGranted(pcs[1..], held[1..]); }
  }

  lemma EnqueuedMembers(q: seq<nat>, wfirst: nat, p: nat, prio: seq<int>, q': seq<nat>)
    requires Enqueued(q, wfirst, p, prio, q') && NoRepeat(q) && p !in q
    ensures NoRepeat(q') && |q'| == |q| + 1 && forall x :: x in q' <==> x in q || x == p
  {
    var one: seq<nat> := [p];
    assert |multiset(q')| == |multiset(q + one)|;
    forall x: nat ensures Occurs(q', x) <= 1 && (x in q' <==> x in q || x == p) {
      assert Occurs(q + one, x) == Occurs(q, x) + Occurs(one, x);
      assert x in q' <==> x in multiset(q');
      assert x in q <==> x in multiset(q);
    }
  }

  lemma DequeuedMembers(q: seq<nat>)
    requires NoRepeat(q) && q != []
    ensures NoRepeat(q[1..]) && forall x :: x in q[1..] <==> x in q && x != q[0]
  {
    var one: seq<nat> := [q[0]];
    assert q == one + q[1..];
    forall x: nat ensures Occurs(q[1..], x) <= 1 && (x in q[1..] <==> x in q && x != q[0]) {
      assert Occurs(q, x) == Occurs(one, x) + Occurs(q[1..], x);
      assert x in q[1..] <==> x in multiset(q[1..]);
    }
  }

  ghost function Slots(n: nat): (ps: set<nat>)
    ensures |ps| == n && forall p :: p in ps <==> 0 <= p < n
  {
    if n == 0 then {} else Slots(n - 1) + {n - 1}
  }

  lemma {:induction false} QueueFits(q: seq<nat>, ps: set<nat>)
    requires NoRepeat(q) && forall x :: x in q ==> x in ps
    ensures |q| <= |ps|
    decreases |q|
  {
    if q != [] {
      DequeuedMembers(q);
      QueueFits(q[1..], ps - {q[0]});
    }
  }

  /** The enqueuing process is not queued already, so the ring has a free cell for it. */
  lemma RingHasRoom(s: State, p: nat)
    requires Inv(s) && p < |s.pcs| && s.pcs[p].WantAcquire?
    ensures |s.q| < NPROC
  {
    hide Grants, NoRepeat;
    assert Good(s, p);
    var ps := Slots(|s.pcs|) - {p};
    forall x | x in s.q ensures x in ps {}
    QueueFits(s.q, ps);
  }

  /** The process that a release wakes is already asleep: nobody else in the queue can be anywhere but asleep. */
  lemma FirstIsAsleep(s: State, p: nat)
    requires Inv(s) && p < |s.pcs| && s.pcs[p].WakeHeld?
    ensures s.q != [] && s.q[0] < |s.pcs| && s.pcs[s.q[0]].Asleep? && s.q[0] != p
  {
    assert Good(s, p);
    assert InTransit(s) == 1;
    assert s.q[0] in s.q;
    assert Good(s, s.q[0]);
  }

  // --- every step keeps the invariant -----------------------------------------------------

  lemma CallKeepsInv(s: State, a: Action)
    requires Inv(s) && Enabled(s, a) && !a.Run?
    ensures Inv(Step(s, a))
  {
    hide Arrivals, Sum, NoRepeat, Enqueued;
    var s', p := Step(s, a), a.p;
    assert Good(s, p);
    ArrivalsUpdate(s.pcs, p, s'.pcs[p]);
    SumUpdate(s.held, p, s'.held[p]);
    forall q: nat | q < |s'.pcs| ensures Good(s', q) { assert Good(s, q); }
    assert InTransit(s') == InTransit(s);
  }

  lemma AcquireKeepsInv(s: State, a: Action)
    requires Inv(s) && Enabled(s, a) && a.Run? && s.pcs[a.p].WantAcquire?
    ensures Inv(Step(s, a))
  {
    hide Arrivals, Sum, NoRepeat, Enqueued;
    var s', p := Step(s, a), a.p;
    assert Good(s, p);
    ArrivalsUpdate(s.pcs, p, s'.pcs[p]);
    SumUpdate(s.held, p, s'.held[p]);
    if s.value <= 0 { EnqueuedMembers(s.q, s.wfirst, p, a.prio, a.q); }
    forall q: nat | q < |s'.pcs| ensures Good(s', q) { assert Good(s, q); }
    forall i | 0 <= i < |s'.q| ensures s'.q[i] < NPROC { assert s'.q[i] in s'.q; }
  }

  lemma SleepKeepsInv(s: State, a: Action)
    requires Inv(s) && Enabled(s, a) && a.Run?
    requires s.pcs[a.p].SleepEnter? || s.pcs[a.p].SleepHeld? || s.pcs[a.p].SleepPark?
    ensures Inv(Step(s, a))
  {
    hide Arrivals, Sum, NoRepeat, Enqueued;
    var s', p := Step(s, a), a.p;
    assert Good(s, p);
    ArrivalsUpdate(s.pcs, p, s'.pcs[p]);
    SumUpdate(s.held, p, s'.held[p]);
    forall q: nat | q < |s'.pcs| ensures Good(s', q) { assert Good(s, q); }
    assert InTransit(s') == InTransit(s);
  }

  lemma ResumeKeepsInv(s: State, a: Action)
    requires Inv(s) && Enabled(s, a) && a.Run?
    requires s.pcs[a.p].Woken? || s.pcs[a.p].SleepTidy? || s.pcs[a.p].Retake? || s.pcs[a.p].Leave?
    ensures Inv(Step(s, a))
  {
    hide Arrivals, Sum, NoRepeat, Enqueued;
    var s', p := Step(s, a), a.p;
    assert Good(s, p);
    ArrivalsUpdate(s.pcs, p, s'.pcs[p]);
    SumUpdate(s.held, p, s'.held[p]);
    forall q: nat | q < |s'.pcs| ensures Good(s', q) { assert Good(s, q); }
    assert InTransit(s') == InTransit(s);
  }

  lemma ReleaseKeepsInv(s: State, a: Action)
    requires Inv(s) && Enabled(s, a) && a.Run?
    requires s.pcs[a.p].WantRelease? || s.pcs[a.p].WantSignal? || s.pcs[a.p].WakeEnter? || s.pcs[a.p].WakeDone?
    ensures Inv(Step(s, a))
  {
    hide Arrivals, Sum, NoRepeat, Enqueued;
    var s', p := Step(s, a), a.p;
    assert Good(s, p);
    ArrivalsUpdate(s.pcs, p, s'.pcs[p]);
    SumUpdate(s.held, p, s'.held[p]);
    forall q: nat | q < |s'.pcs| ensures Good(s', q) { assert Good(s, q); }
  }

  lemma WakeKeepsInv(s: State, a: Action)
    requires Inv(s) && Enabled(s, a) && a.Run? && s.pcs[a.p].WakeHeld?
    ensures Inv(Step(s, a))
  {
    hide Arrivals, Sum, NoRepeat, Enqueued;
    var s', p := Step(s, a), a.p;
    FirstIsAsleep(s, p);
    var h := s.q[0];
    assert Good(s, p) && Good(s, h);
    DequeuedMembers(s.q);
    ArrivalsUpdate(s.pcs, h, Woken);
    ArrivalsUpdate(s.pcs[h := Woken], p, WakeDone);
    forall q: nat | q < |s'.pcs| ensures Good(s', q) { assert Good(s, q); }
  }

  lemma StepKeepsInv(s: State, a: Action)
    requires Inv(s) && Enabled(s, a)
    ensures Inv(Step(s, a))
  {
    if !a.Run? { CallKeepsInv(s, a); }
    else {
      match s.pcs[a.p]
      case WantAcquire => AcquireKeepsInv(s, a);
      case SleepEnter | SleepHeld | SleepPark => SleepKeepsInv(s, a);
      case Woken | SleepTidy | Retake | Leave => ResumeKeepsInv(s, a);
      case WantRelease | WantSignal | WakeEnter | WakeDone => ReleaseKeepsInv(s, a);
      case WakeHeld => WakeKeepsInv(s, a);
    }
  }

  // --- whole runs -------------------------------------------------------------------------

  ghost predicate IsStart(s: State) {
    && |s.pcs| == |s.held| == NPROC && (forall p | 0 <= p < |s.pcs| :: s.pcs[p].Out? && s.held[p] == 0)
    && s.value >= 0 && s == State(s.pcs, s.held, None, None, s.value, 0, [], s.value)
  }

  ghost predicate IsRun(ss: seq<State>, acts: seq<Action>) {
    && |ss| == |acts| + 1 && IsStart(ss[0])
    && forall i | 0 <= i < |acts| :: Enabled(ss[i], acts[i]) && ss[i + 1] == Step(ss[i], acts[i])
  }

  lemma {:induction false} RunInv(ss: seq<State>, acts: seq<Action>, i: nat)
    requires IsRun(ss, acts) && i < |ss|
    ensures Inv(ss[i])
  {
    if i > 0 {
      RunInv(ss, acts, i - 1);
      StepKeepsInv(ss[i - 1], acts[i - 1]);
    } else {
      NothingGranted(ss[0].pcs, ss[0].held);
    }
  }

  /** No more slots are out than the initial value allows (plus releases by processes that held none). */
  lemma GrantsBounded(ss: seq<State>, acts: seq<Action>, i: nat)
    requires IsRun(ss, acts) && i < |ss|
    ensures Grants(ss[i]) <= ss[i].credit
  {
    RunInv(ss, acts, i);
  }

  /** With sem->lk free, the ring holds each waiting process exactly once, max(0, -value) in all. */
  lemma QueueIsTheWaiters(ss: seq<State>, acts: seq<Action>, i: nat, p: nat)
    requires IsRun(ss, acts) && i < |ss| && ss[i].lk.None? && p < NPROC
    ensures |ss[i].q| == Max0(-ss[i].value) && |ss[i].pcs| == NPROC
    ensures Occurs(ss[i].q, p) == if Queued(ss[i].pcs[p]) then 1 else 0
  {
    RunInv(ss, acts, i);
    assert Good(ss[i], p);
    assert p in ss[i].q <==> p in multiset(ss[i].q);
  }

  /** A process sleeps on the semaphore only while every slot is held, so no wakeup is lost. */
  lemma WaitsOnlyForHolders(ss: seq<State>, acts: seq<Action>, i: nat, p: nat)
    requires IsRun(ss, acts) && i < |ss| && ss[i].lk.None? && p < |ss[i].pcs| && ss[i].pcs[p].Asleep?
    ensures ss[i].value < 0 && Grants(ss[i]) == ss[i].credit
  {
    RunInv(ss, acts, i);
    assert Good(ss[i], p);
  }

  /** Each wakeup hands the slot to the first waiter, which is asleep. */
  lemma WakeupFindsSleeper(ss: seq<State>, acts: seq<Action>, i: nat)
    requires IsRun(ss, acts) && i < |acts| && acts[i].Run? && ss[i].pcs[acts[i].p].WakeHeld?
    ensures ss[i].q != [] && ss[i].q[0] < |ss[i].pcs| && ss[i].pcs[ss[i].q[0]].Asleep?
    ensures ss[i + 1].q == ss[i].q[1..] && ss[i + 1].pcs[ss[i].q[0]].Woken?
  {
    RunInv(ss, acts, i);
    FirstIsAsleep(ss[i], acts[i].p);
  }

  // --- whole calls ------------------------------------------------------------------------

  /** Process p can take its next n steps by itself; none of them enqueues it. */
  ghost predicate Goes(s: State, p: nat, n: nat)
    decreases n
  {
    n == 0 || (Enabled(s, Run(p, [], [])) && Goes(Step(s, Run(p, [], [])), p, n - 1))
  }

  ghost function Alone(s: State, p: nat, n: nat): State
    requires Goes(s, p, n)
    decreases n
  {
    if n == 0 then s else Alone(Step(s, Run(p, [], [])), p, n - 1)
  }

  lemma Next(s: State, p: nat, n: nat)
    requires Enabled(s, Run(p, [], [])) && Goes(Step(s, Run(p, [], [])), p, n)
    ensures Goes(s, p, n + 1) && Alone(s, p, n + 1) == Alone(Step(s, Run(p, [], [])), p, n)
    ensures n == 0 ==> Alone(s, p, n + 1) == Step(s, Run(p, [], []))
  {
  }

  /** With sem->lk free: who waits, and that the first of them is asleep or about to be. */
  lemma Calm(ss: seq<State>, acts: seq<Action>, i: nat)
    requires IsRun(ss, acts) && i < |ss| && ss[i].lk.None?
    ensures |ss[i].pcs| == |ss[i].held| == NPROC && ss[i].wfirst < NPROC && (ss[i].q != [] <==> ss[i].value < 0)
    ensures ss[i].q != [] ==> ss[i].q[0] < NPROC && Queued(ss[i].pcs[ss[i].q[0]])
    ensures ss[i].q != [] && ss[i].pt.None? ==> ss[i].pcs[ss[i].q[0]] == Asleep
  {
    RunInv(ss, acts, i);
    if ss[i].q != [] {
      assert ss[i].q[0] in ss[i].q && Good(ss[i], ss[i].q[0]);
    }
  }

  /** While slots are left, semaphore_acquire takes one and returns. */
  lemma AcquireTakes(ss: seq<State>, acts: seq<Action>, i: nat, p: nat)
    requires IsRun(ss, acts) && i < |ss| && p < NPROC
    requires ss[i].lk.None? && ss[i].value > 0 && p < |ss[i].pcs| && ss[i].pcs[p] == Out
    ensures Enabled(ss[i], Acquire(p)) && Goes(Step(ss[i], Acquire(p)), p, 1) && p < |ss[i].held|
    ensures Alone(Step(ss[i], Acquire(p)), p, 1) ==
            ss[i].(value := ss[i].value - 1, held := ss[i].held[p := ss[i].held[p] + 1])
  {
    hide IsRun;
    Calm(ss, acts, i);
    var s := Step(ss[i], Acquire(p));
    Next(s, p, 0);
    assert Step(s, Run(p, [], [])).pcs == ss[i].pcs;
  }

  /** When none is left the caller goes into the ring, by priority while that is straight, and to sleep. */
  lemma AcquireWaits(ss: seq<State>, acts: seq<Action>, i: nat, p: nat, prio: seq<int>, q: seq<nat>)
    requires IsRun(ss, acts) && i < |ss| && p < NPROC && ss[i].lk.None? && ss[i].pt.None? && ss[i].value <= 0
    requires p < |ss[i].pcs| && ss[i].pcs[p] == Out && Enqueued(ss[i].q, ss[i].wfirst, p, prio, q)
    ensures Enabled(ss[i], Acquire(p)) && Enabled(Step(ss[i], Acquire(p)), Run(p, prio, q))
    ensures var s := Step(Step(ss[i], Acquire(p)), Run(p, prio, q));
            Goes(s, p, 3) && Alone(s, p, 3) ==
            ss[i].(value := ss[i].value - 1, q := q, pcs := ss[i].pcs[p := Asleep])
  {
    hide Enqueued, IsRun;
    Calm(ss, acts, i);
    var s := Step(Step(ss[i], Acquire(p)), Run(p, prio, q));
    var s1 := Step(s, Run(p, [], []));
    var s2 := Step(s1, Run(p, [], []));
    Next(s2, p, 0);
    Next(s1, p, 1);
    Next(s, p, 2);
  }

  /** A waiter that has been woken returns with the slot. */
  lemma WokenReturns(ss: seq<State>, acts: seq<Action>, i: nat, p: nat)
    requires IsRun(ss, acts) && i < |ss| && ss[i].lk.None? && ss[i].pt.None? && p < |ss[i].pcs| && ss[i].pcs[p] == Woken
    ensures p < |ss[i].held| && Goes(ss[i], p, 4)
    ensures Alone(ss[i], p, 4) == ss[i].(pcs := ss[i].pcs[p := Out], held := ss[i].held[p := ss[i].held[p] + 1])
  {
    hide IsRun;
    Calm(ss, acts, i);
    var s1 := Step(ss[i], Run(p, [], []));
    var s2 := Step(s1, Run(p, [], []));
    var s3 := Step(s2, Run(p, [], []));
    Next(s3, p, 0);
    Next(s2, p, 1);
    Next(s1, p, 2);
    Next(ss[i], p, 3);
  }

  /** After a release that finds nobody waiting: the value is one more, the caller has one slot less, or none. */
  ghost function Released(s: State, p: nat): State
    requires p < |s.held|
  {
    if s.held[p] > 0 then s.(value := s.value + 1, held := s.held[p := s.held[p] - 1])
    else s.(value := s.value + 1, credit := s.credit + 1)
  }

  /** semaphore_release with nobody waiting gives the slot back. */
  lemma ReleaseGives(ss: seq<State>, acts: seq<Action>, i: nat, p: nat)
    requires IsRun(ss, acts) && i < |ss| && ss[i].lk.None? && ss[i].q == [] && p < |ss[i].pcs| && ss[i].pcs[p] == Out
    ensures |ss[i].held| == |ss[i].pcs| && Enabled(ss[i], Release(p)) && Goes(Step(ss[i], Release(p)), p, 2)
    ensures Alone(Step(ss[i], Release(p)), p, 2) == Released(ss[i], p)
  {
    hide IsRun;
    Calm(ss, acts, i);
    var s0 := Step(ss[i], Release(p));
    var s1 := Step(s0, Run(p, [], []));
    Next(s1, p, 0);
    Next(s0, p, 1);
    assert Step(s1, Run(p, [], [])).pcs == ss[i].pcs;
  }

  /** With somebody waiting it hands the slot to the first in the ring, whose cell it gives up. */
  lemma ReleaseHands(ss: seq<State>, acts: seq<Action>, i: nat, p: nat)
    requires IsRun(ss, acts) && i < |ss| && ss[i].lk.None? && ss[i].pt.None? && ss[i].q != []
    requires p < |ss[i].pcs| && ss[i].pcs[p] == Out
    ensures |ss[i].held| == |ss[i].pcs| && Enabled(ss[i], Release(p)) && Goes(Step(ss[i], Release(p)), p, 4)
    ensures ss[i].q[0] < |ss[i].pcs| && ss[i].pcs[ss[i].q[0]] == Asleep
    ensures var t := Alone(Step(ss[i], Release(p)), p, 4);
            && t.q == ss[i].q[1..] && t.wfirst == (ss[i].wfirst + 1) % NPROC
            && t.pcs == ss[i].pcs[ss[i].q[0] := Woken]
            && Released(ss[i], p) == t.(q := ss[i].q, wfirst := ss[i].wfirst, pcs := ss[i].pcs)
  {
    hide IsRun;
    Calm(ss, acts, i);
    var s, first := ss[i], ss[i].q[0];
    var s0 := Step(s, Release(p));
    var s1 := Step(s0, Run(p, [], []));
    assert s1 == Released(s, p).(pcs := s.pcs[p := WakeEnter], lk := Some(p)) by {
      assert s0.pcs[p := WakeEnter] == s.pcs[p := WakeEnter];
    }
    var s2 := Step(s1, Run(p, [], []));
    var s3 := Step(s2, Run(p, [], []));
    WokeFirst(s2, s.pcs, p, first);
    Next(s3, p, 0);
    Next(s2, p, 1);
    Next(s1, p, 2);
    Next(s0, p, 3);
  }

  /** The step of wakeupproc, and what is left of the ring. */
  lemma WokeFirst(s: State, pcs: seq<Pc>, p: nat, first: nat)
    requires p < |pcs| == |s.held| && first < |pcs| && first != p && pcs[p] == Out
    requires s.pcs == pcs[p := WakeEnter][p := WakeHeld]
    requires s.q != [] && s.q[0] == first && s.wfirst < NPROC
    ensures Enabled(s, Run(p, [], []))
    ensures Step(s, Run(p, [], [])) ==
            s.(pcs := pcs[first := Woken][p := WakeDone], q := s.q[1..], wfirst := (s.wfirst + 1) % NPROC, pt := None)
    ensures pcs[first := Woken][p := WakeDone][p := Out] == pcs[first := Woken]
  {
    assert s.pcs[first := Woken][p := WakeDone] == pcs[first := Woken][p := WakeDone];
  }

  // --- kill -------------------------------------------------------------------------------

  /** `kill`, which takes ptable.lock, makes a sleeping process runnable and leaves the ring as it is. */
  ghost function Kill(s: State, p: nat): State
    requires p < |s.pcs| && s.pt.None?
  {
    if s.pcs[p].Asleep? then At(s, p, Woken) else s
  }

  /** A kill leaves the bound on the slots alone unless it wakes a waiter that no release has paid for. */
  lemma KillBoundIff(s: State, p: nat)
    requires Inv(s) && p < |s.pcs| && s.pt.None?
    ensures Grants(Kill(s, p)) <= s.credit <==> !s.pcs[p].Asleep? || InTransit(s) == 1
    ensures s.pcs[p].Asleep? ==> Grants(Kill(s, p)) == Grants(s) + 1
  {
    assert Good(s, p);
    if s.pcs[p].Asleep? { ArrivalsUpdate(s.pcs, p, Woken); }
  }

  /** The handover of a release, with p woken beforehand. */
  lemma WakeAfterKill(s: State, p: nat, a: Action)
    requires Inv(s) && Enabled(s, a) && a.Run? && s.pcs[a.p].WakeHeld? && p < |s.pcs| && s.pcs[p].Asleep?
    ensures Enabled(At(s, p, Woken), a) && s.q != []
    ensures Grants(Step(At(s, p, Woken), a)) <= s.credit <==> p == s.q[0]
  {
    FirstIsAsleep(s, a.p);
    assert Good(s, a.p) && Good(s, p);
    var h := s.q[0];
    ArrivalsUpdate(s.pcs, p, Woken);
    ArrivalsUpdate(s.pcs[p := Woken], h, Woken);
    ArrivalsUpdate(s.pcs[p := Woken][h := Woken], a.p, WakeDone);
  }

  /**
    A kill can come in between, when a release has raised the value and has yet to take ptable.lock
    for its wakeup.  The release pays for the waiter at the head of the ring: once its two steps of
    wakeupproc are done, the bound holds exactly if that is the process that was killed.
  */
  lemma KillInWakeupIff(s: State, p: nat, a: Action)
    requires Inv(s) && s.pt.None? && Enabled(s, a) && a.Run? && s.pcs[a.p].WakeEnter?
    requires p < |s.pcs| && s.pcs[p].Asleep?
    ensures Enabled(Kill(s, p), a) && Enabled(Step(Kill(s, p), a), a) && s.q != []
    ensures Grants(Step(Step(Kill(s, p), a), a)) <= s.credit <==> p == s.q[0]
  {
    hide Grants, NoRepeat, Enqueued;
    StepKeepsInv(s, a);
    var s1 := Step(s, a);
    assert s.pcs[a.p := WakeHeld][p := Woken] == s.pcs[p := Woken][a.p := WakeHeld];
    assert At(s1, p, Woken) == Step(Kill(s, p), a);
    WakeAfterKill(s1, p, a);
  }

  /** One step of process p, which enqueues itself alone if it has to wait. */
  ghost function RunAlone(p: nat): Action { Run(p, seq(NPROC, _ => 0), [p]) }

  /** A process that finds the semaphore taken and nobody waiting is asleep four steps later. */
  lemma FallsAsleep(s: State, p: nat) returns (ss: seq<State>)
    requires |s.pcs| == |s.held| == NPROC && p < NPROC && s.pcs[p].WantAcquire? && s.value <= 0
    requires s.q == [] && s.wfirst == 0 && s.lk.None? && s.pt.None?
    ensures |ss| == 5 && ss[0] == s
    ensures forall i | 0 <= i < 4 :: Enabled(ss[i], RunAlone(p)) && ss[i + 1] == Step(ss[i], RunAlone(p))
    ensures ss[4] == s.(pcs := s.pcs[p := Asleep], value := s.value - 1, q := [p])
  {
    var one: seq<nat> := [p];
    assert s.q + one == one;
    var a := RunAlone(p);
    var s1 := Step(s, a);
    var s2 := Step(s1, a);
    var s3 := Step(s2, a);
    var s4 := Step(s3, a);
    assert s4.pcs == s.pcs[p := Asleep];
    ss := [s, s1, s2, s3, s4];
  }

  /** On every run, killing a waiter while sem->lk is free hands out one slot more than there are. */
  lemma KillOverGrants(ss: seq<State>, acts: seq<Action>, i: nat, p: nat)
    requires IsRun(ss, acts) && i < |ss| && ss[i].lk.None? && ss[i].pt.None?
    requires p < |ss[i].pcs| && ss[i].pcs[p].Asleep?
    ensures Grants(Kill(ss[i], p)) == ss[i].credit + 1
  {
    hide Inv, Grants;
    WaitsOnlyForHolders(ss, acts, i, p);
    RunInv(ss, acts, i);
    KillBoundIff(ss[i], p);
  }

  /** Such a run exists: process 0 takes the one slot, process 1 waits for it, and the kill lets both in. */
  lemma KillReached() returns (ss: seq<State>, acts: seq<Action>)
    ensures |acts| == 7 && IsRun(ss, acts) && ss[0].value == 1
    ensures |ss[7].pcs| == |ss[7].held| == NPROC && ss[7].held[0] == 1 && ss[7].pcs[1].Asleep?
    ensures ss[7].pt.None? && ss[7].credit == 1 && Grants(Kill(ss[7], 1)) == 2
  {
    hide Inv, Grants, Kill;
    var run := RunAlone(1);
    var s0 := State(seq(NPROC, _ => Out), seq(NPROC, _ => 0), None, None, 1, 0, [], 1);
    var s1 := Step(s0, Acquire(0));
    var s2 := Step(s1, RunAlone(0));
    var s3 := Step(s2, Acquire(1));
    var tail := FallsAsleep(s3, 1);
    acts := [Acquire(0), RunAlone(0), Acquire(1), run, run, run, run];
    ss := [s0, s1, s2, s3, tail[1], tail[2], tail[3], tail[4]];
    KillOverGrants(ss, acts, 7, 1);
  }
}
