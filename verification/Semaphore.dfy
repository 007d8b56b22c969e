/**
  The counting semaphore of proc.c: a value and a ring of waiting processes that each
  enqueue sorts by priority, as long as the ring has not wrapped around.
*/
module Semaphore {
  import opened Params
  import opened Options

  /** Non-increasing priority. */
  ghost predicate Sorted(q: seq<nat>, prio: seq<int>) {
    && (forall i | 0 <= i < |q| :: q[i] < |prio|)
    && forall i, j | 0 <= i < j < |q| :: prio[q[i]] >= prio[q[j]]
  }

  /** The ring cells in use lie in one piece and end before the end of the array (wfirst < wlast). */
  predicate Straight(wfirst: nat, count: nat) { wfirst + count < NPROC }

  /** What enqueueing process p does to the waiters. */
  ghost predicate Enqueued(q: seq<nat>, wfirst: nat, p: nat, prio: seq<int>, q': seq<nat>) {
    && multiset(q') == multiset(q + [p])
    && if Straight(wfirst, |q| + 1) then Sorted(q', prio) else q' == q + [p]
  }

  /** The ring cell of the k-th waiter. */
  function Cell(wfirst: nat, k: nat): nat {
    if wfirst + k < NPROC then wfirst + k else wfirst + k - NPROC
  }

  class Semaphore {
    var value: int
    const waiting: array<int>   // process numbers; -1 is a null pointer
    var wfirst: nat
    var wlast: nat

    /** The number of waiters is not stored: it is how far the value is below zero. */
    function Count(): nat
      reads this`value
    {
      if value < 0 then -value else 0
    }

    /** The cells from wfirst on hold the waiters, each a process number, and the other cells are null. */
    ghost predicate Valid()
      reads this, waiting
    {
      && waiting.Length == NPROC && wfirst < NPROC && wlast < NPROC && Count() <= NPROC
      && wlast == Cell(wfirst, Count())
      && (forall k: nat | k < Count() :: waiting[Cell(wfirst, k)] >= 0)
      && (forall k: nat | Count() <= k < NPROC :: waiting[Cell(wfirst, k)] == -1)
    }

    ghost function Queue(): (q: seq<nat>)
      reads this, waiting
      requires Valid()
      ensures |q| == Count() && forall k | 0 <= k < |q| :: q[k] == waiting[Cell(wfirst, k)]
    {
      seq(Count(), k requires 0 <= k < Count() && Valid() reads this, waiting => waiting[Cell(wfirst, k)])
    }

    /** `semaphore_init`. */
    constructor (v: nat)
      ensures Valid() && value == v && wfirst == 0 && fresh(waiting) && Queue() == []
    {
      value, waiting, wfirst, wlast := v, new int[NPROC](_ => -1), 0, 0;
    }

    /**
      `semaphore_acquire` up to the point where it sleeps or returns.  A process is never
      queued twice and there are NPROC of them, so the ring has a free cell.
    */
    method Acquire(me: nat, prio: seq<int>) returns (mustSleep: bool)
      requires Valid() && |Queue()| < NPROC && me < |prio|
      requires forall k | 0 <= k < |Queue()| :: Queue()[k] < |prio|
      modifies this`value, this`wlast, waiting
      ensures Valid() && value == old(value) - 1 && mustSleep == (value < 0)
      ensures !mustSleep ==> Queue() == []
      ensures mustSleep ==> Enqueued(old(Queue()), wfirst, me, prio, Queue())
    {
      ghost var q := Queue();
      value := value - 1;
      mustSleep := value < 0;
      if mustSleep {
        waiting[wlast] := me;
        wlast := (wlast + 1) % NPROC;
        assert waiting[Cell(wfirst, |q|)] == me;
        assert forall k: nat | k < |q| :: Cell(wfirst, k) != Cell(wfirst, |q|) && waiting[Cell(wfirst, k)] == q[k];
        assert Valid() && Queue() == q + [me];
        SortRing(prio);
      }
    }

    /** Sorting the cells between wfirst and wlast sorts the whole queue, unless the ring has wrapped. */
    method SortRing(prio: seq<int>)
      requires Valid() && Count() > 0 && forall k | 0 <= k < |Queue()| :: Queue()[k] < |prio|
      modifies waiting
      ensures Valid() && multiset(Queue()) == multiset(old(Queue()))
      ensures if Straight(wfirst, Count()) then Sorted(Queue(), prio) else Queue() == old(Queue())
    {
      ghost var q, w := Queue(), waiting[..];
      if wfirst < wlast {
        StraightCells();
        forall k | wfirst <= k < wlast ensures 0 <= w[k] < |prio| {
          assert w[k] == w[wfirst..wlast][k - wfirst] == Ints(q)[k - wfirst];
        }
      }
      SortWaiters(prio);
      if wfirst < wlast {
        SortedValid(w);
        StraightCells();
        SameMultiset(q, Queue());
        SliceSorted(waiting[..], wfirst, wlast, Queue(), prio);
      } else {
        assert waiting[..] == w;
        assert Queue() == q;
      }
    }

    lemma SortedValid(w: seq<int>)
      requires waiting.Length == NPROC == |w| && wfirst < wlast == wfirst + Count() < NPROC
      requires forall k | 0 <= k < NPROC && !(wfirst <= k < wlast) :: waiting[k] == w[k] == -1
      requires forall k | wfirst <= k < wlast :: waiting[k] >= 0
      ensures Valid()
    {}

    lemma StraightCells()
      requires Valid() && wfirst < wlast
      ensures wlast == wfirst + Count() && waiting[wfirst..wlast] == waiting[..][wfirst..wlast] == Ints(Queue())
      ensures forall k | 0 <= k < NPROC && !(wfirst <= k < wlast) :: waiting[k] == -1
    {
      var q := Queue();
      forall k | 0 <= k < |q| ensures waiting[wfirst + k] == q[k] { assert Cell(wfirst, k) == wfirst + k; }
      forall k | 0 <= k < NPROC && !(wfirst <= k < wlast) ensures waiting[k] == -1 {
        assert Cell(wfirst, if k < wfirst then k + NPROC - wfirst else k - wfirst) == k;
      }
    }

    /** `semaphore_release`: the process to wake, if any, is the first waiter. */
    method Release() returns (wake: Option<nat>)
      requires Valid()
      modifies this`value, this`wfirst, waiting
      ensures Valid() && value == old(value) + 1
      ensures if old(Queue()) == [] then wake == None && Queue() == []
              else wake == Some(old(Queue())[0]) && Queue() == old(Queue())[1..]
    {
      ghost var q := Queue();
      value := value + 1;
      wake := None;
      if value <= 0 {
        assert waiting[Cell(wfirst, 0)] == q[0];
        wake := Some(waiting[wfirst]);
        waiting[wfirst] := -1;
        wfirst := (wfirst + 1) % NPROC;
        assert forall k: nat | k < NPROC - 1 :: Cell(wfirst, k) == Cell(old(wfirst), k + 1);
        assert Cell(wfirst, NPROC - 1) == old(wfirst);
      }
    }

    /** The exchange sort of `semaphore_acquire` over waiting[wfirst .. wlast]. */
    method SortWaiters(prio: seq<int>)
      requires waiting.Length == NPROC && wlast <= NPROC && Known(waiting[..], wfirst, wlast, prio)
      modifies waiting
      ensures SameOutside(old(waiting[..]), waiting[..], wfirst, wlast)
      ensures Known(waiting[..], wfirst, wlast, prio) && SortedUpTo(waiting[..], wfirst, wlast, wlast, prio)
    {
      var i := wfirst;
      while i < wlast - 1
        invariant wfirst <= i && (wfirst <= wlast ==> i <= wlast)
        invariant SameOutside(old(waiting[..]), waiting[..], wfirst, wlast)
        invariant Known(waiting[..], wfirst, wlast, prio) && SortedUpTo(waiting[..], wfirst, i, wlast, prio)
      {
        SelectHighest(i, prio);
        i := i + 1;
      }
    }

    /** The inner loop: the highest priority of waiting[i .. wlast] moves to cell i. */
    method SelectHighest(i: nat, prio: seq<int>)
      requires waiting.Length == NPROC && wfirst <= i < wlast <= NPROC
      requires Known(waiting[..], wfirst, wlast, prio) && SortedUpTo(waiting[..], wfirst, i, wlast, prio)
      modifies waiting
      ensures SameOutside(old(waiting[..]), waiting[..], wfirst, wlast)
      ensures Known(waiting[..], wfirst, wlast, prio) && SortedUpTo(waiting[..], wfirst, i + 1, wlast, prio)
    {
      var j := i + 1;
      while j < wlast
        invariant i < j <= wlast
        invariant SameOutside(old(waiting[..]), waiting[..], wfirst, wlast)
        invariant Known(waiting[..], wfirst, wlast, prio) && SortedUpTo(waiting[..], wfirst, i, wlast, prio)
        invariant HighestSoFar(waiting[..], i, j, prio)
      {
        if prio[waiting[i]] < prio[waiting[j]] {
          SwapKeeps(waiting[..], wfirst, i, j, wlast, prio);
          Swap(i, j);
        }
        j := j + 1;
      }
    }

    method Swap(i: nat, j: nat)
      requires waiting.Length == NPROC && wfirst <= i < j < wlast <= NPROC
      modifies waiting
      ensures waiting[..] == old(waiting[..])[i := old(waiting[j])][j := old(waiting[i])]
      ensures SameOutside(old(waiting[..]), waiting[..], wfirst, wlast)
    {
      SwapPermutes(waiting[..], wfirst, i, j, wlast);
      var temp := waiting[i];
      waiting[i] := waiting[j];
      waiting[j] := temp;
    }
  }

  ghost predicate Known(w: seq<int>, lo: nat, hi: nat, prio: seq<int>)
    requires hi <= |w|
  {
    forall k | lo <= k < hi :: 0 <= w[k] < |prio|
  }

  /** The cells from lo to i have the highest priorities up to hi, in order. */
  ghost predicate SortedUpTo(w: seq<int>, lo: nat, i: nat, hi: nat, prio: seq<int>)
    requires hi <= |w| && Known(w, lo, hi, prio)
  {
    forall j, k | lo <= j < i && j < k < hi :: prio[w[j]] >= prio[w[k]]
  }

  lemma SwapPermutes(w: seq<int>, lo: nat, i: nat, j: nat, hi: nat)
    requires lo <= i < j < hi <= |w|
    ensures SameOutside(w, w[i := w[j]][j := w[i]], lo, hi)
  {
    var s := w[lo..hi];
    var w', t := w[i := w[j]][j := w[i]], s[i - lo := s[j - lo]][j - lo := s[i - lo]];
    forall k | 0 <= k < |t| ensures w'[lo..hi][k] == t[k] { assert w'[lo..hi][k] == w'[lo + k]; }
    assert w'[lo..hi] == t;
  }

  lemma SliceSorted(w: seq<int>, lo: nat, hi: nat, q: seq<nat>, prio: seq<int>)
    requires lo <= hi <= |w| && Known(w, lo, hi, prio) && SortedUpTo(w, lo, hi, hi, prio)
    requires w[lo..hi] == Ints(q)
    ensures Sorted(q, prio)
  {
    forall i | 0 <= i < |q| ensures q[i] == w[lo + i] { assert Ints(q)[i] == w[lo..hi][i]; }
    forall i, j | 0 <= i < j < |q| ensures prio[q[i]] >= prio[q[j]] {
      assert prio[w[lo + i]] >= prio[w[lo + j]];
    }
  }

  ghost predicate HighestSoFar(w: seq<int>, i: nat, j: nat, prio: seq<int>)
    requires i < j <= |w| && Known(w, i, j, prio)
  {
    forall k | i < k < j :: prio[w[i]] >= prio[w[k]]
  }

  lemma SwapKeeps(w: seq<int>, lo: nat, i: nat, j: nat, hi: nat, prio: seq<int>)
    requires lo <= i < j < hi <= |w| && Known(w, lo, hi, prio)
    requires SortedUpTo(w, lo, i, hi, prio) && HighestSoFar(w, i, j, prio) && prio[w[i]] < prio[w[j]]
    ensures var w' := w[i := w[j]][j := w[i]];
            Known(w', lo, hi, prio) && SortedUpTo(w', lo, i, hi, prio) && HighestSoFar(w', i, j + 1, prio)
  {}

  /** The cells from lo to hi are permuted, the others are unchanged. */
  ghost predicate SameOutside(w: seq<int>, w': seq<int>, lo: nat, hi: nat)
  {
    && |w'| == |w| && hi <= |w|
    && (forall k | 0 <= k < |w| && !(lo <= k < hi) :: w'[k] == w[k])
    && (lo <= hi ==> multiset(w'[lo..hi]) == multiset(w[lo..hi]))
  }

  ghost function Ints(q: seq<nat>): seq<int> { seq(|q|, i requires 0 <= i < |q| => q[i] as int) }

  lemma {:induction false} CountSame(q: seq<nat>, x: nat)
    ensures multiset(Ints(q))[x] == multiset(q)[x]
  {
    if q != [] {
      var r := q[..|q| - 1];
      CountSame(r, x);
      assert q == r + [q[|q| - 1]] && Ints(q) == Ints(r) + [q[|q| - 1] as int];
    }
  }

  lemma SameMultiset(q: seq<nat>, r: seq<nat>)
    requires multiset(Ints(q)) == multiset(Ints(r))
    ensures multiset(q) == multiset(r)
  {
    forall x: nat ensures multiset(q)[x] == multiset(r)[x] {
      CountSame(q, x);
      CountSame(r, x);
    }
  }

  // --- which waiter the next release wakes ------------------------------------------------

  ghost predicate HighestFirst(q: seq<nat>, prio: seq<int>) {
    q != [] && forall i | 0 <= i < |q| :: q[0] < |prio| && q[i] < |prio| && prio[q[0]] >= prio[q[i]]
  }

  /** While the ring is straight, an enqueue leaves a highest-priority waiter first. */
  lemma StraightWakesHighest(q: seq<nat>, wfirst: nat, p: nat, prio: seq<int>, q': seq<nat>)
    requires Enqueued(q, wfirst, p, prio, q') && Straight(wfirst, |q| + 1)
    ensures HighestFirst(q', prio)
  {
    assert |multiset(q')| == |q| + 1;
  }

  /**
    Once the ring has wrapped the newcomer stays last, so a highest-priority waiter is first
    exactly when one already was and the newcomer does not outrank it.
  */
  lemma WrappedWakesHighestIff(q: seq<nat>, wfirst: nat, p: nat, prio: seq<int>, q': seq<nat>)
    requires Enqueued(q, wfirst, p, prio, q') && !Straight(wfirst, |q| + 1) && q != []
    requires p < |prio| && forall i | 0 <= i < |q| :: q[i] < |prio|
    ensures HighestFirst(q', prio) <==> HighestFirst(q, prio) && prio[q[0]] >= prio[p]
  {
    if HighestFirst(q', prio) {
      assert q'[|q|] == p;
      forall i | 0 <= i < |q| ensures prio[q[0]] >= prio[q[i]] { assert q'[i] == q[i]; }
    }
  }

  // --- a sequence of acquires with no release between -------------------------------------

  /** Processes ps enqueue one after the other; qs are the waiters before, between and after them. */
  ghost predicate Arrive(qs: seq<seq<nat>>, wfirst: nat, ps: seq<nat>, prio: seq<int>) {
    && |qs| == |ps| + 1 && Sorted(qs[0], prio) && Straight(wfirst, |qs[0]|)
    && (forall k | 0 <= k < |ps| :: ps[k] < |prio|)
    && forall k | 0 <= k < |ps| :: Enqueued(qs[k], wfirst, ps[k], prio, qs[k + 1])
  }

  /** How many more can enqueue before the ring wraps. */
  function Room(wfirst: nat, count: nat): nat
    requires Straight(wfirst, count)
  {
    NPROC - 1 - wfirst - count
  }

  /** The arrivals that find room are sorted in. */
  lemma {:induction false} EarlyArrivals(qs: seq<seq<nat>>, wfirst: nat, ps: seq<nat>, prio: seq<int>, m: nat)
    requires Arrive(qs, wfirst, ps, prio) && m <= |ps| && m <= Room(wfirst, |qs[0]|)
    ensures |qs[m]| == |qs[0]| + m && multiset(qs[m]) == multiset(qs[0] + ps[..m]) && Sorted(qs[m], prio)
  {
    hide Sorted;
    if m == 0 {
      assert qs[0] + ps[..0] == qs[0];
    } else {
      EarlyArrivals(qs, wfirst, ps, prio, m - 1);
      assert Enqueued(qs[m - 1], wfirst, ps[m - 1], prio, qs[m]);
      assert |multiset(qs[m])| == |qs[m - 1]| + 1;
      assert qs[0] + ps[..m] == qs[0] + ps[..m - 1] + [ps[m - 1]];
    }
  }

  lemma WrappedAppends(q: seq<nat>, wfirst: nat, p: nat, prio: seq<int>, q': seq<nat>)
    requires Enqueued(q, wfirst, p, prio, q') && !Straight(wfirst, |q| + 1)
    ensures q' == q + [p]
  {}

  /** Those that come after the ring has wrapped stand behind them in order of arrival. */
  lemma {:induction false} LateArrivals(qs: seq<seq<nat>>, wfirst: nat, ps: seq<nat>, prio: seq<int>, n: nat)
    requires Arrive(qs, wfirst, ps, prio) && Room(wfirst, |qs[0]|) <= n <= |ps|
    ensures var m := Room(wfirst, |qs[0]|); qs[n] == qs[m] + ps[m..n]
  {
    hide Sorted, Enqueued;
    var m := Room(wfirst, |qs[0]|);
    if n == m {
      assert qs[m] + ps[m..m] == qs[m];
    } else {
      LateArrivals(qs, wfirst, ps, prio, n - 1);
      EarlyArrivals(qs, wfirst, ps, prio, m);
      WrappedAppends(qs[n - 1], wfirst, ps[n - 1], prio, qs[n]);
      assert ps[m..n] == ps[m..n - 1] + [ps[n - 1]];
    }
  }

  ghost predicate AllKnown(q: seq<nat>, prio: seq<int>) { forall i | 0 <= i < |q| :: q[i] < |prio| }

  /** One of the early arrivals is outranked by none of the late ones. */
  ghost predicate EarlyBest(early: seq<nat>, late: seq<nat>, prio: seq<int>)
    requires AllKnown(early, prio) && AllKnown(late, prio)
  {
    exists i | 0 <= i < |early| :: forall j | 0 <= j < |late| :: prio[early[i]] >= prio[late[j]]
  }

  lemma HeadIsEarly(q: seq<nat>, early: seq<nat>, prio: seq<int>)
    requires multiset(q) == multiset(early) && Sorted(q, prio) && q != []
    ensures q[0] in early && AllKnown(early, prio) && forall x :: x in early ==> prio[q[0]] >= prio[x]
  {
    assert q[0] in multiset(early);
    forall x | x in early ensures x < |prio| && prio[q[0]] >= prio[x] {
      assert x in multiset(q);
      var i :| 0 <= i < |q| && q[i] == x;
    }
    forall i | 0 <= i < |early| ensures early[i] < |prio| { assert early[i] in early; }
  }

  lemma HeadBestIff(q: seq<nat>, early: seq<nat>, late: seq<nat>, prio: seq<int>)
    requires multiset(q) == multiset(early) && Sorted(q, prio) && q != [] && AllKnown(late, prio)
    ensures AllKnown(early, prio) && (HighestFirst(q + late, prio) <==> EarlyBest(early, late, prio))
  {
    HeadIsEarly(q, early, prio);
    var all := q + late;
    if EarlyBest(early, late, prio) {
      var i :| 0 <= i < |early| && forall j | 0 <= j < |late| :: prio[early[i]] >= prio[late[j]];
      assert early[i] in early;
    }
    if HighestFirst(all, prio) {
      var i :| 0 <= i < |early| && early[i] == q[0];
      forall j | 0 <= j < |late| ensures prio[early[i]] >= prio[late[j]] { assert all[|q| + j] == late[j]; }
    }
  }

  /**
    After any number of acquires the next release wakes a highest-priority waiter exactly when one
    of those that came before the ring wrapped is outranked by none that came after.
  */
  lemma ArrivalsWakeHighestIff(qs: seq<seq<nat>>, wfirst: nat, ps: seq<nat>, prio: seq<int>, n: nat, m: nat)
    requires Arrive(qs, wfirst, ps, prio) && m <= n <= |ps| && qs[0] + ps[..m] != []
    requires m == if n <= Room(wfirst, |qs[0]|) then n else Room(wfirst, |qs[0]|)
    ensures AllKnown(qs[0] + ps[..m], prio) && AllKnown(ps[m..n], prio)
    ensures HighestFirst(qs[n], prio) <==> EarlyBest(qs[0] + ps[..m], ps[m..n], prio)
  {
    hide Sorted, HighestFirst, EarlyBest;
    EarlyArrivals(qs, wfirst, ps, prio, m);
    assert qs[n] == qs[m] + ps[m..n] by {
      if m < n { LateArrivals(qs, wfirst, ps, prio, n); } else { assert qs[m] + ps[m..m] == qs[m]; }
    }
    assert |qs[m]| == |qs[0] + ps[..m]|;
    HeadBestIff(qs[m], qs[0] + ps[..m], ps[m..n], prio);
  }

  /** A waiter in the last cell, and a second one of higher priority: the first is woken. */
  lemma WrappedCounterexample()
    ensures Enqueued([0], 9, 1, [3, 20], [0, 1]) && !HighestFirst([0, 1], [3, 20])
  {
    assert [0] + [1] == [0, 1];
    assert [0, 1][1] == 1;
  }
}
