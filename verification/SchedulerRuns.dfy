/**
  The scheduler loops and `ageprocs` of proc.c over every interleaving: several processors choose
  and dispatch, the clock ticks, and `ageprocs` goes through the table one slot at a time, giving
  up ptable.lock before every `change_queue`, so that anything can happen in between.
*/
module SchedulerRuns {
  import opened Params
  import opened Scheduler

  datatype Ager =
    | Idle
    | Scan(i: nat, os: int)              // at slot i, holding ptable.lock; os is the argument osTicks
    | Found(i: nat, os: int)             // slot i is aged; has given up the lock and is about to read its pid
    | Move(i: nat, os: int, pid: int)    // is about to take the lock in change_queue

  datatype State = State(t: Table, lasts: seq<nat>, ticks: int, ager: Ager)

  /** `Other` is whatever else the kernel does to the table. */
  datatype Event = Turn(cpu: nat, pick: nat) | Tick | AgeStart | AgeScan | AgeRead | AgeMove | Other(t: Table)

  ghost predicate WellFormed(s: State) {
    && |s.t| == NPROC && PidsDistinct(s.t)
    && (forall c | 0 <= c < |s.lasts| :: s.lasts[c] < NPROC)
    && (!s.ager.Idle? ==> s.ager.i < NPROC)
  }

  ghost predicate Enabled(s: State, e: Event) {
    match e
    case Turn(cpu, pick) => cpu < |s.lasts| && IsChoice(s.t, s.lasts[cpu], pick)
    case Tick => true
    case AgeStart => s.ager.Idle?
    case AgeScan => s.ager.Scan? && s.ager.i < |s.t|
    case AgeRead => s.ager.Found? && s.ager.i < |s.t|
    case AgeMove => s.ager.Move?
    case Other(t) => |t| == NPROC && PidsDistinct(t)
  }

  /** On to the next slot, or done. */
  function Next(i: nat, os: int): Ager { if i + 1 < NPROC then Scan(i + 1, os) else Idle }

  /** `change_queue(pid, ROUND_ROBIN)`. */
  ghost function ToRoundRobin(t: Table, pid: int): (t': Table)
    ensures |t'| == |t|
  {
    if i :| FirstWithPid(t, pid, i) then t[i := t[i].(queue := ROUND_ROBIN)] else t
  }

  ghost function Step(s: State, e: Event): State
    requires Enabled(s, e)
  {
    match e
    case Turn(cpu, pick) =>
      s.(t := s.t[pick := Dispatched(s.t[pick], s.ticks)],
         lasts := if NoneReady(s.t, ROUND_ROBIN) then s.lasts else s.lasts[cpu := pick])
    case Tick => s.(ticks := s.ticks + 1)
    case AgeStart => s.(ager := Scan(0, s.ticks))
    case AgeScan =>
      var i, os := s.ager.i, s.ager.os;
      s.(ager := if Aged(s.t[i], os) then Found(i, os) else Next(i, os))
    case AgeRead => s.(ager := Move(s.ager.i, s.ager.os, s.t[s.ager.i].pid))
    case AgeMove => s.(t := ToRoundRobin(s.t, s.ager.pid), ager := Next(s.ager.i, s.ager.os))
    case Other(t) => s.(t := t)
  }

  ghost predicate IsRun(ss: seq<State>, es: seq<Event>) {
    && |ss| == |es| + 1 && WellFormed(ss[0])
    && forall k | 0 <= k < |es| :: Enabled(ss[k], es[k]) && ss[k + 1] == Step(ss[k], es[k])
  }

  lemma StepWellFormed(s: State, e: Event)
    requires WellFormed(s) && Enabled(s, e)
    ensures WellFormed(Step(s, e)) && |Step(s, e).lasts| == |s.lasts|
  {
  }

  lemma {:induction false} RunWellFormed(ss: seq<State>, es: seq<Event>, k: nat)
    requires IsRun(ss, es) && k < |ss|
    ensures WellFormed(ss[k]) && |ss[k].lasts| == |ss[0].lasts|
  {
    if k > 0 {
      RunWellFormed(ss, es, k - 1);
      StepWellFormed(ss[k - 1], es[k - 1]);
    }
  }

  // --- a process that waits ---------------------------------------------------------------

  /** Whatever else happens, p stays as it is, or is moved to round robin by another `ageprocs`. */
  ghost predicate Undisturbed(s: State, e: Event, p: nat)
    requires |s.t| == NPROC && p < NPROC
  {
    e.Other? ==> |e.t| == NPROC && (e.t[p] == s.t[p] || e.t[p] == s.t[p].(queue := ROUND_ROBIN))
  }

  /** p waits; it is in the round-robin queue, or the ager that will put it there has not passed it yet. */
  ghost predicate Waits(s: State, p: nat, since: int) {
    && WellFormed(s) && p < NPROC && s.t[p].state.Runnable? && s.t[p].lastRun == since
    && (s.t[p].queue != ROUND_ROBIN ==>
          match s.ager
          case Idle => false
          case Scan(i, os) => i <= p && os - since > AGING_THRESHOLD
          case Found(i, os) => i <= p && os - since > AGING_THRESHOLD
          case Move(i, os, pid) => os - since > AGING_THRESHOLD && (i < p || (i == p && pid == s.t[p].pid)))
  }

  lemma MovesP(t: Table, pid: int, p: nat)
    requires |t| == NPROC && PidsDistinct(t) && p < NPROC && t[p].state.Runnable?
    ensures ToRoundRobin(t, pid)[p] == if t[p].pid == pid then t[p].(queue := ROUND_ROBIN) else t[p]
  {
    if i :| FirstWithPid(t, pid, i) && ToRoundRobin(t, pid) == t[i := t[i].(queue := ROUND_ROBIN)] {
      if t[p].pid == pid {
        assert i == p;
      }
    } else {
      FirstExists(t, pid, p);
    }
  }

  lemma {:induction false} FirstExists(t: Table, pid: int, k: nat)
    requires k <= |t|
    ensures (exists i :: FirstWithPid(t, pid, i)) || forall j | 0 <= j < k :: t[j].pid != pid
  {
    if k > 0 {
      FirstExists(t, pid, k - 1);
      if !exists i :: FirstWithPid(t, pid, i) {
        assert t[k - 1].pid == pid ==> FirstWithPid(t, pid, k - 1);
      }
    }
  }

  lemma WaitsOn(s: State, e: Event, p: nat, since: int)
    requires Waits(s, p, since) && Enabled(s, e) && Undisturbed(s, e, p) && !(e.Turn? && e.pick == p)
    ensures Waits(Step(s, e), p, since)
    ensures s.t[p].queue == ROUND_ROBIN ==> Step(s, e).t[p].queue == ROUND_ROBIN
  {
    StepWellFormed(s, e);
    if e.AgeMove? { MovesP(s.t, s.ager.pid, p); }
  }

  /** The `AgeStart` at a reaches p before the ager is idle again. */
  lemma {:induction false} WaitsFrom(ss: seq<State>, es: seq<Event>, a: nat, k: nat, p: nat)
    requires IsRun(ss, es) && a < k < |ss| && p < NPROC && es[a].AgeStart?
    requires |ss[a].t| == NPROC && ss[a].t[p].state.Runnable? && ss[a].ticks - ss[a].t[p].lastRun > AGING_THRESHOLD
    requires forall j | a <= j < k ::
               |ss[j].t| == NPROC && Undisturbed(ss[j], es[j], p) && !(es[j].Turn? && es[j].pick == p)
    ensures Waits(ss[k], p, ss[a].t[p].lastRun)
  {
    hide PidsDistinct, Undisturbed, ToRoundRobin;
    RunWellFormed(ss, es, a);
    StepWellFormed(ss[a], es[a]);
    if k > a + 1 {
      WaitsFrom(ss, es, a, k - 1, p);
      WaitsOn(ss[k - 1], es[k - 1], p, ss[a].t[p].lastRun);
    }
  }

  // --- its turn comes ---------------------------------------------------------------------

  /** The turns of one processor among the events from lo up to hi. */
  function Turns(es: seq<Event>, cpu: nat, lo: nat, hi: nat): nat
    requires lo <= hi <= |es|
    decreases hi - lo
  {
    if lo == hi then 0 else Turns(es, cpu, lo, hi - 1) + if es[hi - 1].Turn? && es[hi - 1].cpu == cpu then 1 else 0
  }

  lemma TurnCloser(s: State, e: Event, cpu: nat, p: nat)
    requires WellFormed(s) && Enabled(s, e) && cpu < |s.lasts| && p < NPROC && Ready(s.t[p], ROUND_ROBIN)
    requires !(e.Turn? && e.pick == p)
    ensures |Step(s, e).lasts| == |s.lasts|
    ensures Distance(Step(s, e).lasts[cpu], p) + (if e.Turn? && e.cpu == cpu then 1 else 0) <= Distance(s.lasts[cpu], p)
  {
    if e.Turn? && e.cpu == cpu {
      assert !NoneReady(s.t, ROUND_ROBIN);
      GetsCloser(s.t, s.lasts[cpu], e.pick, p);
    }
  }

  lemma {:induction false} Approaches(ss: seq<State>, es: seq<Event>, b: nat, k: nat, cpu: nat, p: nat)
    requires IsRun(ss, es) && b <= k < |ss| && p < NPROC && cpu < |ss[0].lasts|
    requires forall j | b <= j <= k :: |ss[j].t| == NPROC && Ready(ss[j].t[p], ROUND_ROBIN)
    requires forall j | b <= j < k :: !(es[j].Turn? && es[j].pick == p)
    ensures |ss[b].lasts| == |ss[k].lasts| == |ss[0].lasts|
    ensures Distance(ss[k].lasts[cpu], p) + Turns(es, cpu, b, k) <= Distance(ss[b].lasts[cpu], p)
  {
    hide WellFormed, Step, Enabled, Ready;
    RunWellFormed(ss, es, b);
    if k > b {
      Approaches(ss, es, b, k - 1, cpu, p);
      RunWellFormed(ss, es, k - 1);
      TurnCloser(ss[k - 1], es[k - 1], cpu, p);
    }
  }

  ghost predicate Runs(es: seq<Event>, lo: nat, p: nat) {
    exists k :: lo <= k < |es| && es[k].Turn? && es[k].pick == p
  }

  /**
    No starvation.  A runnable process of any queue that has not run for more than AGING_THRESHOLD
    ticks when `ageprocs` begins is run by the time that call is over and some processor has had
    NPROC turns since, however the steps interleave, if it stays runnable and no one moves it to
    a lower queue.
  */
  lemma NoStarvation(ss: seq<State>, es: seq<Event>, a: nat, b: nat, cpu: nat, p: nat)
    requires IsRun(ss, es) && a < b <= |es| && p < NPROC && cpu < |ss[0].lasts|
    requires es[a].AgeStart? && ss[b].ager.Idle? && Turns(es, cpu, b, |es|) >= NPROC
    requires |ss[a].t| == NPROC && ss[a].t[p].state.Runnable? && ss[a].ticks - ss[a].t[p].lastRun > AGING_THRESHOLD
    requires forall j | a <= j < |es| :: |ss[j].t| == NPROC && Undisturbed(ss[j], es[j], p)
    ensures Runs(es, a, p)
  {
    hide WellFormed, Step, Enabled, Undisturbed, PidsDistinct, Turns;
    if !Runs(es, a, p) {
      var n := |es|;
      forall j | a <= j < n
        ensures !(es[j].Turn? && es[j].pick == p)
      {
      }
      forall k | b <= k <= n
        ensures |ss[k].t| == NPROC && Ready(ss[k].t[p], ROUND_ROBIN)
      {
        InRoundRobin(ss, es, a, b, k, p);
      }
      Approaches(ss, es, b, n, cpu, p);
      LastsInside(ss, es, b, cpu);
      LastsInside(ss, es, n, cpu);
      assert false;
    }
  }

  lemma LastsInside(ss: seq<State>, es: seq<Event>, k: nat, cpu: nat)
    requires IsRun(ss, es) && k < |ss| && cpu < |ss[0].lasts|
    ensures cpu < |ss[k].lasts| && ss[k].lasts[cpu] < NPROC
  {
    RunWellFormed(ss, es, k);
  }

  lemma {:induction false} InRoundRobin(ss: seq<State>, es: seq<Event>, a: nat, b: nat, k: nat, p: nat)
    requires IsRun(ss, es) && a < b <= k < |ss| && p < NPROC && es[a].AgeStart? && ss[b].ager.Idle?
    requires |ss[a].t| == NPROC && ss[a].t[p].state.Runnable? && ss[a].ticks - ss[a].t[p].lastRun > AGING_THRESHOLD
    requires forall j | a <= j < k ::
               |ss[j].t| == NPROC && Undisturbed(ss[j], es[j], p) && !(es[j].Turn? && es[j].pick == p)
    ensures |ss[k].t| == NPROC && Ready(ss[k].t[p], ROUND_ROBIN)
    decreases k
  {
    hide Step, Undisturbed, PidsDistinct;
    WaitsFrom(ss, es, a, k, p);
    if k > b {
      InRoundRobin(ss, es, a, b, k - 1, p);
      WaitsFrom(ss, es, a, k - 1, p);
      WaitsOn(ss[k - 1], es[k - 1], p, ss[a].t[p].lastRun);
    }
  }

  // --- only those who have waited move ----------------------------------------------------

  /** From turn k on, which ran p, nothing has run p again or changed the time it last ran. */
  ghost predicate QuietSince(ss: seq<State>, es: seq<Event>, k: nat, j: nat, p: nat) {
    && IsRun(ss, es) && k < j <= |es| && p < NPROC && es[k].Turn? && es[k].pick == p
    && forall i | k < i < j :: !(es[i].Turn? && es[i].pick == p)
                                && (es[i].Other? ==> |es[i].t| == NPROC && |ss[i].t| == NPROC
                                                     && es[i].t[p].lastRun == ss[i].t[p].lastRun)
  }

  lemma {:induction false} LastRunStays(ss: seq<State>, es: seq<Event>, k: nat, j: nat, p: nat)
    requires QuietSince(ss, es, k, j, p)
    ensures |ss[j].t| == NPROC && ss[j].t[p].lastRun == ss[k].ticks
    decreases j
  {
    RunWellFormed(ss, es, k);
    RunWellFormed(ss, es, j);
    if j > k + 1 {
      LastRunStays(ss, es, k, j - 1, p);
      assert ss[j] == Step(ss[j - 1], es[j - 1]);
    } else {
      assert ss[j] == Step(ss[k], es[k]);
    }
  }

  /** `ageprocs` moves only a process that is runnable and last ran more than 8000 ticks before the call began. */
  lemma AgedHasWaited(ss: seq<State>, es: seq<Event>, k: nat, j: nat, p: nat)
    requires QuietSince(ss, es, k, j, p) && j < |es| && es[j].AgeScan? && ss[j].ager.i == p
    ensures ss[j + 1].ager.Found? <==>
            ss[j].t[p].state == Runnable && ss[j].t[p].queue != ROUND_ROBIN && ss[j].ager.os - ss[k].ticks > 8000
  {
    LastRunStays(ss, es, k, j, p);
    assert Enabled(ss[j], es[j]) && ss[j + 1] == Step(ss[j], es[j]);
  }

  /** The ticks of the clock among the events from lo up to hi. */
  function Ticks(es: seq<Event>, lo: nat, hi: nat): nat
    requires lo <= hi <= |es|
    decreases hi - lo
  {
    if lo == hi then 0 else Ticks(es, lo, hi - 1) + if es[hi - 1].Tick? then 1 else 0
  }

  lemma {:induction false} ClockCounts(ss: seq<State>, es: seq<Event>, lo: nat, hi: nat)
    requires IsRun(ss, es) && lo <= hi < |ss|
    ensures ss[hi].ticks == ss[lo].ticks + Ticks(es, lo, hi)
    decreases hi
  {
    if lo < hi {
      ClockCounts(ss, es, lo, hi - 1);
      assert ss[hi] == Step(ss[hi - 1], es[hi - 1]);
    }
  }

  // --- a call by itself -------------------------------------------------------------------

  /** One turn runs the process it chose, and only a choice from the round-robin queue moves the place in it. */
  lemma TurnRuns(s: State, cpu: nat, pick: nat)
    requires WellFormed(s) && Enabled(s, Turn(cpu, pick))
    ensures var r := Step(s, Turn(cpu, pick));
            && r.t[pick] == s.t[pick].(state := Running, lastRun := s.ticks, cycles := s.t[pick].cycles + 0.1)
            && (forall i | 0 <= i < NPROC && i != pick :: r.t[i] == s.t[i])
            && r.lasts == (if s.t[pick].queue == ROUND_ROBIN then s.lasts[cpu := pick] else s.lasts)
  {
    if s.t[pick].queue == ROUND_ROBIN {
      assert Ready(s.t[pick], ROUND_ROBIN);
    }
  }

  /** What the ager does next. */
  function AgerStep(s: State): Event {
    if s.ager.Scan? then AgeScan else if s.ager.Found? then AgeRead else AgeMove
  }

  /** The state n steps of the ager later, or as soon as it is idle, when no one else does anything. */
  ghost function AgerAlone(s: State, n: nat): State
    requires WellFormed(s)
    decreases n
  {
    if n == 0 || s.ager.Idle? then s
    else
      StepWellFormed(s, AgerStep(s));
      AgerAlone(Step(s, AgerStep(s)), n - 1)
  }

  /** At most three steps take the ager past a slot, moving its process when it has waited long enough. */
  lemma SlotAlone(s: State, m: nat) returns (n: nat, r: State)
    requires WellFormed(s) && s.ager.Scan? && m >= 3
    ensures 1 <= n <= 3 && WellFormed(r) && AgerAlone(s, m) == AgerAlone(r, m - n)
    ensures r == s.(t := s.t[s.ager.i := AgedProc(s.t[s.ager.i], s.ager.os)], ager := Next(s.ager.i, s.ager.os))
  {
    var i := s.ager.i;
    var s1 := Step(s, AgeScan);
    StepWellFormed(s, AgeScan);
    if Aged(s.t[i], s.ager.os) {
      var s2 := Step(s1, AgeRead);
      StepWellFormed(s1, AgeRead);
      n, r := 3, Step(s2, AgeMove);
      StepWellFormed(s2, AgeMove);
      assert AgerAlone(s1, m - 1) == AgerAlone(s2, m - 2) == AgerAlone(r, m - 3);
      forall j | 0 <= j < NPROC
        ensures r.t[j] == if j == i then AgedProc(s.t[i], s.ager.os) else s.t[j]
      {
        MovesOne(s.t, i, j);
      }
    } else {
      n, r := 1, s1;
      assert r.t == s.t[i := s.t[i]];
    }
  }

  lemma MovesOne(t: Table, i: nat, j: nat)
    requires |t| == NPROC && PidsDistinct(t) && i < NPROC && t[i].state.Runnable? && j < NPROC
    ensures ToRoundRobin(t, t[i].pid)[j] == if j == i then t[i].(queue := ROUND_ROBIN) else t[j]
  {
    MovesP(t, t[i].pid, i);
    if k :| FirstWithPid(t, t[i].pid, k) && ToRoundRobin(t, t[i].pid) == t[k := t[k].(queue := ROUND_ROBIN)] {
      assert k == i;
    }
  }

  lemma {:induction false} ScanAlone(s: State, n: nat)
    requires WellFormed(s) && s.ager.Scan? && n >= 3 * (NPROC - s.ager.i)
    ensures var r := AgerAlone(s, n);
            && |r.t| == NPROC && r.ager.Idle? && r.ticks == s.ticks && r.lasts == s.lasts
            && forall j | 0 <= j < NPROC :: r.t[j] == if j < s.ager.i then s.t[j] else AgedProc(s.t[j], s.ager.os)
    decreases n
  {
    hide Aged, PidsDistinct;
    var m, r := SlotAlone(s, n);
    if r.ager.Scan? { ScanAlone(r, n - m); }
  }

  /**
    `ageprocs` with nothing in between does what the loop over the table says, and is over after
    three steps a slot: exactly the runnable processes that last ran more than 8000 ticks ago
    are put in the round-robin queue.
  */
  lemma AgeprocsAlone(s: State)
    requires WellFormed(s) && s.ager.Idle?
    ensures WellFormed(Step(s, AgeStart))
    ensures var r := AgerAlone(Step(s, AgeStart), 3 * NPROC);
            && |r.t| == NPROC && r.ager.Idle? && r.ticks == s.ticks && r.lasts == s.lasts
            && forall j | 0 <= j < NPROC ::
              r.t[j] == if s.t[j].state == Runnable && s.ticks - s.t[j].lastRun > 8000
                        then s.t[j].(queue := ROUND_ROBIN) else s.t[j]
  {
    StepWellFormed(s, AgeStart);
    ScanAlone(Step(s, AgeStart), 3 * NPROC);
  }
}
