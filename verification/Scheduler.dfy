/**
  The three-level scheduler of proc.c: round robin, then last come first served, then best job
  first, with aging into round robin.  Ranks are real numbers here, floats in the source.
*/
module Scheduler {
  import opened Params
  import opened Options

  const AGING_THRESHOLD := 8000

  const UNSET := 0
  const ROUND_ROBIN := 1
  const LCFS := 2
  const BJF := 3

  datatype ProcState = Unused | Embryo | Sleeping | Runnable | Running | Zombie

  datatype Proc = Proc(
    state: ProcState, pid: int, queue: int, lastRun: int, arrival: int,
    priority: int, priorityRatio: real, arrivalRatio: real, cycles: real, cyclesRatio: real)

  type Table = seq<Proc>

  predicate Ready(p: Proc, queue: int) { p.state.Runnable? && p.queue == queue }

  ghost predicate NoneReady(t: Table, queue: int) {
    forall i | 0 <= i < |t| :: !Ready(t[i], queue)
  }

  /** `bjfrank`. */
  function Rank(p: Proc): real {
    p.priority as real * p.priorityRatio + p.arrival as real * p.arrivalRatio + p.cycles * p.cyclesRatio
  }

  // --- what each level chooses ------------------------------------------------------------

  /** How many slots a round-robin scan that starts after `last` skips before it looks at slot i. */
  function Distance(last: int, i: int): int {
    if i > last then i - last - 1 else i - last - 1 + NPROC
  }

  /** The next ready process after `last`, going round the table. */
  ghost predicate IsRoundRobin(t: Table, last: int, idx: int) {
    && 0 <= idx < |t| && Ready(t[idx], ROUND_ROBIN)
    && forall j | 0 <= j < |t| && Ready(t[j], ROUND_ROBIN) :: Distance(last, idx) <= Distance(last, j)
  }

  /** The latest arrival; of equals, the one in the lowest slot. */
  ghost predicate IsLastCome(t: Table, idx: int) {
    && 0 <= idx < |t| && Ready(t[idx], LCFS)
    && forall j | 0 <= j < |t| && Ready(t[j], LCFS) ::
         t[j].arrival < t[idx].arrival || (t[j].arrival == t[idx].arrival && idx <= j)
  }

  /** The lowest rank; of equals, the one in the lowest slot. */
  ghost predicate IsBestJob(t: Table, idx: int) {
    && 0 <= idx < |t| && Ready(t[idx], BJF)
    && forall j | 0 <= j < |t| && Ready(t[j], BJF) ::
         Rank(t[idx]) < Rank(t[j]) || (Rank(t[idx]) == Rank(t[j]) && idx <= j)
  }

  /** What the scheduler loop runs next: a lower level only when no process is ready on a higher one. */
  ghost predicate IsChoice(t: Table, last: int, idx: int) {
    if !NoneReady(t, ROUND_ROBIN) then IsRoundRobin(t, last, idx)
    else if !NoneReady(t, LCFS) then IsLastCome(t, idx)
    else IsBestJob(t, idx)
  }

  method RoundRobin(t: Table, last: nat) returns (idx: int)
    requires |t| == NPROC && last < NPROC
    ensures if idx == -1 then NoneReady(t, ROUND_ROBIN) else IsRoundRobin(t, last, idx)
  {
    var i := last;
    ghost var seen := 0;
    while true
      invariant 0 <= i < NPROC && 0 <= seen < NPROC
      invariant i == (if last + seen < NPROC then last + seen else last + seen - NPROC)
      invariant forall j | 0 <= j < NPROC && Distance(last, j) < seen :: !Ready(t[j], ROUND_ROBIN)
      decreases NPROC - seen
    {
      i := i + 1;
      if i >= NPROC { i := 0; }
      assert Distance(last, i) == seen;
      if Ready(t[i], ROUND_ROBIN) {
        return i;
      }
      seen := seen + 1;
      assert forall j | 0 <= j < NPROC && Distance(last, j) == seen - 1 :: j == i;
      if i == last {
        return -1;
      }
    }
  }

  method LastCome(t: Table) returns (r: Option<nat>)
    ensures if r.None? then NoneReady(t, LCFS) else IsLastCome(t, r.value)
  {
    r := None;
    var maxArrival := 0;
    for i := 0 to |t|
      invariant r.None? ==> forall j | 0 <= j < i :: !Ready(t[j], LCFS)
      invariant r.Some? ==> r.value < i && IsLastCome(t[..i], r.value) && maxArrival == t[r.value].arrival
    {
      if Ready(t[i], LCFS) && (r.None? || t[i].arrival > maxArrival) {
        r, maxArrival := Some(i), t[i].arrival;
      }
      assert forall j | 0 <= j < i :: t[..i + 1][j] == t[..i][j];
    }
    assert t[..|t|] == t;
  }

  method BestJob(t: Table) returns (r: Option<nat>)
    ensures if r.None? then NoneReady(t, BJF) else IsBestJob(t, r.value)
    ensures r.Some? ==> forall j | 0 <= j < |t| && Ready(t[j], BJF) ::
      var p, q := t[r.value], t[j];
      p.priority as real * p.priorityRatio + p.arrival as real * p.arrivalRatio + p.cycles * p.cyclesRatio <=
      q.priority as real * q.priorityRatio + q.arrival as real * q.arrivalRatio + q.cycles * q.cyclesRatio
  {
    r := None;
    var minRank := 0.0;
    for i := 0 to |t|
      invariant r.None? ==> forall j | 0 <= j < i :: !Ready(t[j], BJF)
      invariant r.Some? ==> r.value < i && IsBestJob(t[..i], r.value) && minRank == Rank(t[r.value])
    {
      if Ready(t[i], BJF) && (r.None? || Rank(t[i]) < minRank) {
        r, minRank := Some(i), Rank(t[i]);
      }
      assert forall j | 0 <= j < i :: t[..i + 1][j] == t[..i][j];
    }
    assert t[..|t|] == t;
  }

  /** With equal ratios, none negative, a job that comes before another in priority, arrival and cycles is no worse. */
  lemma RankOrders(p: Proc, q: Proc)
    requires p.priorityRatio == q.priorityRatio >= 0.0 && p.arrivalRatio == q.arrivalRatio >= 0.0
    requires p.cyclesRatio == q.cyclesRatio >= 0.0
    requires p.priority <= q.priority && p.arrival <= q.arrival && p.cycles <= q.cycles
    ensures Rank(p) <= Rank(q)
    ensures p.priority < q.priority && p.priorityRatio > 0.0 ==> Rank(p) < Rank(q)
    ensures p.arrival < q.arrival && p.arrivalRatio > 0.0 ==> Rank(p) < Rank(q)
    ensures p.cycles < q.cycles && p.cyclesRatio > 0.0 ==> Rank(p) < Rank(q)
  {
    Scaled(p.priority as real, q.priority as real, p.priorityRatio);
    Scaled(p.arrival as real, q.arrival as real, p.arrivalRatio);
    Scaled(p.cycles, q.cycles, p.cyclesRatio);
  }

  lemma Scaled(x: real, y: real, r: real)
    requires x <= y && r >= 0.0
    ensures x * r <= y * r && (x < y && r > 0.0 ==> x * r < y * r)
  {
    assert (y - x) * r >= 0.0;
    assert x < y && r > 0.0 ==> (y - x) * r > 0.0;
  }

  /** One turn of the loop of `scheduler` up to the switch: whom to run, and where round robin goes on next time. */
  method Choose(t: Table, last: nat) returns (r: Option<nat>, last': nat)
    requires |t| == NPROC && last < NPROC
    ensures last' < NPROC
    ensures r.None? <==> NoneReady(t, ROUND_ROBIN) && NoneReady(t, LCFS) && NoneReady(t, BJF)
    ensures r.Some? ==> IsChoice(t, last, r.value)
    ensures last' == if r.Some? && !NoneReady(t, ROUND_ROBIN) then r.value else last
    ensures r.None? <==> forall j | 0 <= j < NPROC :: t[j].state != Runnable || t[j].queue !in {1, 2, 3}
    ensures r.Some? ==>
      && r.value < NPROC && t[r.value].state == Runnable && t[r.value].queue in {1, 2, 3}
      && forall j | 0 <= j < NPROC && t[j].state == Runnable && t[j].queue in {1, 2, 3} ::
           && t[r.value].queue <= t[j].queue
           && (t[r.value].queue == t[j].queue == 2 ==> t[j].arrival <= t[r.value].arrival)
  {
    last' := last;
    var idx := RoundRobin(t, last);
    if idx != -1 {
      return Some(idx), idx;
    }
    r := LastCome(t);
    if r.None? {
      r := BestJob(t);
    }
  }

  /** The choice is determined by the table and by where the last round-robin choice was. */
  lemma ChoiceUnique(t: Table, last: nat, i: nat, j: nat)
    requires |t| == NPROC && last < NPROC && IsChoice(t, last, i) && IsChoice(t, last, j)
    ensures i == j
  {}

  // --- the table --------------------------------------------------------------------------

  /** Pids of processes in use tell them apart; an unused slot may have pid 0 or an old pid. */
  ghost predicate PidsDistinct(t: Table) {
    && (forall i, j | 0 <= i < j < |t| && t[i].pid == t[j].pid :: t[i].pid == 0)
    && (forall i | 0 <= i < |t| && t[i].state.Runnable? :: t[i].pid != 0)
  }

  ghost predicate FirstWithPid(t: Table, pid: int, i: int) {
    0 <= i < |t| && t[i].pid == pid && forall j | 0 <= j < i :: t[j].pid != pid
  }

  ghost predicate NoPid(t: Table, pid: int) { forall i | 0 <= i < |t| :: t[i].pid != pid }

  /** The first slot with this pid, and no other, goes from one queue to another. */
  ghost predicate Moved(t: Table, t': Table, pid: int, from: int, to: int) {
    exists i :: FirstWithPid(t, pid, i) && t[i].queue == from && t' == t[i := t[i].(queue := to)]
  }

  predicate Aged(p: Proc, ticks: int) {
    p.state.Runnable? && p.queue != ROUND_ROBIN && ticks - p.lastRun > AGING_THRESHOLD
  }

  function AgedProc(p: Proc, ticks: int): Proc {
    if Aged(p, ticks) then p.(queue := ROUND_ROBIN) else p
  }

  function Dispatched(p: Proc, ticks: int): Proc {
    p.(state := Running, lastRun := ticks, cycles := p.cycles + 0.1)
  }

  class ProcTable {
    const procs: array<Proc>

    constructor (init: Proc)
      ensures procs.Length == NPROC && fresh(procs) && forall i | 0 <= i < NPROC :: procs[i] == init
    {
      procs := new Proc[NPROC](_ => init);
    }

    /** One turn of the loop of `scheduler`: the chosen process is marked running and charged for it. */
    method Dispatch(last: nat, ticks: int) returns (r: Option<nat>, last': nat)
      requires procs.Length == NPROC && last < NPROC
      modifies procs
      ensures last' < NPROC
      ensures if r.None?
              then procs[..] == old(procs[..]) && last' == last
                   && forall q | ROUND_ROBIN <= q <= BJF :: NoneReady(old(procs[..]), q)
              else IsChoice(old(procs[..]), last, r.value)
                   && last' == (if NoneReady(old(procs[..]), ROUND_ROBIN) then last else r.value)
                   && procs[..] == old(procs[..])[r.value := Dispatched(old(procs[r.value]), ticks)]
      ensures r.Some? ==>
        && procs[r.value].state == Running && procs[r.value].lastRun == ticks
        && procs[r.value].cycles == old(procs[r.value].cycles) + 0.1
    {
      r, last' := Choose(procs[..], last);
      if r.Some? {
        procs[r.value] := Dispatched(procs[r.value], ticks);
      }
    }

    /** `change_queue`: the first slot with this pid moves; the old queue is returned, or -1. */
    method ChangeQueue(pid: int, newQueue: int) returns (oldQueue: int)
      requires procs.Length == NPROC
      modifies procs
      ensures var q := if newQueue != UNSET then newQueue else if pid == 1 then ROUND_ROBIN else LCFS;
              if (newQueue == UNSET && pid < 1) || NoPid(old(procs[..]), pid)
              then oldQueue == -1 && procs[..] == old(procs[..])
              else Moved(old(procs[..]), procs[..], pid, oldQueue, q)
    {
      oldQueue := -1;
      var q := newQueue;
      if q == UNSET {
        if pid == 1 { q := ROUND_ROBIN; }
        else if pid > 1 { q := LCFS; }
        else { return; }
      }
      var i := 0;
      while i < NPROC
        invariant 0 <= i <= NPROC && procs[..] == old(procs[..]) && oldQueue == -1
        invariant forall j | 0 <= j < i :: procs[j].pid != pid
      {
        if procs[i].pid == pid {
          oldQueue := procs[i].queue;
          assert FirstWithPid(procs[..], pid, i);
          procs[i] := procs[i].(queue := q);
          return;
        }
        i := i + 1;
      }
    }

    /** `ageprocs`: exactly the processes that have waited too long move to round robin. */
    method AgeProcs(ticks: int)
      requires procs.Length == NPROC && PidsDistinct(procs[..])
      modifies procs
      ensures forall i | 0 <= i < NPROC :: procs[i] == AgedProc(old(procs[i]), ticks)
      ensures forall i | 0 <= i < NPROC ::
        procs[i] == old(procs[i]).(queue := procs[i].queue) &&
        procs[i].queue == if old(procs[i]).state == Runnable && ticks - old(procs[i]).lastRun > 8000 then ROUND_ROBIN
                          else old(procs[i]).queue
    {
      var i := 0;
      while i < NPROC
        invariant 0 <= i <= NPROC
        invariant forall j | 0 <= j < NPROC ::
                    procs[j] == if j < i then AgedProc(old(procs[j]), ticks) else old(procs[j])
      {
        if Aged(procs[i], ticks) {
          ghost var t := procs[..];
          var _ := ChangeQueue(procs[i].pid, ROUND_ROBIN);
          assert procs[..] == t[i := t[i].(queue := ROUND_ROBIN)] by {
            var k :| FirstWithPid(t, t[i].pid, k) && procs[..] == t[k := t[k].(queue := ROUND_ROBIN)];
            assert old(procs[..])[k].pid == old(procs[..])[i].pid;
          }
        }
        i := i + 1;
      }
    }
  }

  // --- fairness ---------------------------------------------------------------------------

  /** A choice other than p brings round robin strictly closer to p. */
  lemma GetsCloser(t: Table, last: nat, idx: nat, p: nat)
    requires |t| == NPROC && last < NPROC && p < NPROC && Ready(t[p], ROUND_ROBIN)
    requires IsRoundRobin(t, last, idx) && idx != p
    ensures Distance(idx, p) < Distance(last, p)
  {}

  /**
    The picks of one scheduler loop: at its i-th turn the table is ts[i], whatever other
    processors and system calls have done to it since, and it runs picks[i].
  */
  ghost predicate IsLoop(ts: seq<Table>, lasts: seq<nat>, picks: seq<nat>) {
    && |ts| == |picks| && |lasts| == |picks| + 1 && lasts[0] < NPROC
    && forall i | 0 <= i < |picks| ::
         && |ts[i]| == NPROC && IsChoice(ts[i], lasts[i], picks[i])
         && lasts[i + 1] == if NoneReady(ts[i], ROUND_ROBIN) then lasts[i] else picks[i]
  }

  lemma {:induction false} PickedBefore(ts: seq<Table>, lasts: seq<nat>, picks: seq<nat>, p: nat, i: nat)
    requires IsLoop(ts, lasts, picks) && p < NPROC && i <= |picks|
    requires forall k | 0 <= k < |ts| :: |ts[k]| == NPROC && Ready(ts[k][p], ROUND_ROBIN)
    requires forall k | 0 <= k < i :: picks[k] != p
    ensures lasts[i] < NPROC && Distance(lasts[i], p) + i <= Distance(lasts[0], p)
  {
    if i > 0 {
      PickedBefore(ts, lasts, picks, p, i - 1);
      assert Ready(ts[i - 1][p], ROUND_ROBIN);
      GetsCloser(ts[i - 1], lasts[i - 1], picks[i - 1], p);
    }
  }

  /** A process that stays ready in the round-robin queue is run within NPROC turns of any scheduler loop. */
  lemma RunsWithinNproc(ts: seq<Table>, lasts: seq<nat>, picks: seq<nat>, p: nat)
    requires IsLoop(ts, lasts, picks) && p < NPROC && |picks| >= NPROC
    requires forall k | 0 <= k < |ts| :: |ts[k]| == NPROC && Ready(ts[k][p], ROUND_ROBIN)
    ensures exists i :: 0 <= i < NPROC && picks[i] == p
  {
    if forall i | 0 <= i < NPROC :: picks[i] != p {
      PickedBefore(ts, lasts, picks, p, NPROC);
    }
  }
}
