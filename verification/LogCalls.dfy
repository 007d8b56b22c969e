/**
  Histories of calls: what `Log`'s commits and recoveries do to the disk, one call after another,
  each perhaps cut short by a crash, is a run of the machine of `LogRuns`.
*/
module LogCalls {
  import opened Params
  import opened LogDisk
  import opened LogRuns
  import opened BufferCache
  import opened Log

  /** A call of `commit` or `recover_from_log` of which the first k writes reached the disk. */
  datatype Call = Commit(t: Txn, k: nat) | Recover(k: nat)

  ghost function Writes(l: Layout, d: Disk, c: Call): seq<Write>
    requires HasHead(l, d) && (c.Commit? ==> IsTxn(l, |d|, c.t))
  {
    match c
    case Commit(t, _) => CommitWrites(l, d, t)
    case Recover(_) => RecoveryWrites(l, d)
  }

  ghost predicate Possible(l: Layout, d: Disk, c: Call) {
    && HasHead(l, d) && (c.Commit? ==> IsTxn(l, |d|, c.t))
    && c.k <= |Writes(l, d, c)| && InRange(|d|, Writes(l, d, c)[..c.k])
  }

  /** The call did everything it had to, and returned. */
  ghost predicate Complete(l: Layout, d: Disk, c: Call)
    requires Possible(l, d, c)
  {
    c.k == |Writes(l, d, c)|
  }

  /** ds are the disks before, between and after the calls; only a recovery follows a call that was cut short. */
  ghost predicate IsHistory(l: Layout, ds: seq<Disk>, cs: seq<Call>) {
    && |ds| == |cs| + 1 && IsDisk(l, ds[0]) && IdleDisk(l, ds[0], ds[0])
    && (forall j | 0 <= j < |cs| ::
          Possible(l, ds[j], cs[j]) && ds[j + 1] == ApplyAll(ds[j], Writes(l, ds[j], cs[j])[..cs[j].k]))
    && forall j | 0 < j < |cs| && cs[j].Commit? :: Complete(l, ds[j - 1], cs[j - 1])
  }

  /** The transactions handed to `commit`. */
  ghost function Txns(cs: seq<Call>): seq<Txn> {
    if cs == [] then [] else
      var c := cs[|cs| - 1];
      Txns(cs[..|cs| - 1]) + if c.Commit? then [c.t] else []
  }

  ghost function LastOf(ms: seq<Machine>): Machine
    requires ms != []
  {
    ms[|ms| - 1]
  }

  lemma RunMore(l: Layout, ms: seq<Machine>, es: seq<Event>, e: Event)
    requires IsRun(l, ms, es) && Enabled(l, LastOf(ms), e)
    ensures IsRun(l, ms + [Step(l, LastOf(ms), e)], es + [e])
  {
    hide IsDisk, IdleDisk, Step, Enabled;
  }

  /** Code with nothing left to write is idle. */
  lemma NothingLeft(l: Layout, init: Disk, m: Machine)
    requires Inv(l, init, m) && m.todo == []
    ensures m.phase.Idle?
  {
  }

  /** A commit is under way whose end will be reported to its caller. */
  ghost predicate Acks(m: Machine) {
    m.started != [] && m.todo != [] && (m.phase.Logging? || (m.phase.Installing? && m.phase.ack))
  }

  lemma WriteStep(l: Layout, init: Disk, m: Machine)
    requires Inv(l, init, m) && m.todo != []
    ensures HasHead(l, m.disk)
    ensures var m' := Step(l, m, DoWrite);
            && m'.disk == Put(m.disk, m.todo[0]) && m'.todo == m.todo[1..] && m'.started == m.started
            && m.returned <= m'.returned
            && (Acks(m) ==> Acks(m') || (m'.todo == [] && |m.started| - 1 in m'.returned))
  {
    hide HasHead, Inv;
    RebootFinds(l, init, m);
    StepKeepsInv(l, init, m, DoWrite);
    var m' := Step(l, m, DoWrite);
    if m'.todo == [] { NothingLeft(l, init, m'); }
  }

  /** Performing the next k writes. */
  lemma {:induction false} DoWrites(l: Layout, ms: seq<Machine>, es: seq<Event>, k: nat)
    returns (ms': seq<Machine>, es': seq<Event>)
    requires IsRun(l, ms, es) && k <= |LastOf(ms).todo| && InRange(|LastOf(ms).disk|, LastOf(ms).todo[..k])
    ensures IsRun(l, ms', es') && ms'[0] == ms[0]
    ensures LastOf(ms').disk == ApplyAll(LastOf(ms).disk, LastOf(ms).todo[..k])
    ensures LastOf(ms').todo == LastOf(ms).todo[k..] && LastOf(ms').started == LastOf(ms).started
    ensures LastOf(ms).returned <= LastOf(ms').returned
    ensures Acks(LastOf(ms)) && k == |LastOf(ms).todo| ==> |LastOf(ms).started| - 1 in LastOf(ms').returned
    decreases k
  {
    hide Step, Inv, IsDisk, IdleDisk;
    var m := LastOf(ms);
    if k == 0 {
      ms', es' := ms, es;
    } else {
      RunLast(l, ms, es);
      WriteStep(l, ms[0].disk, m);
      RunMore(l, ms, es, DoWrite);
      var m1 := Step(l, m, DoWrite);
      var ws := m.todo[..k];
      assert ws[1..] == m1.todo[..k - 1] && m1.disk == m.disk[ws[0].blockno := ws[0].data];
      assert forall i | 0 <= i < k - 1 :: ws[1..][i] == ws[i + 1];
      ms', es' := DoWrites(l, ms + [m1], es + [DoWrite], k - 1);
      assert m1.todo[k - 1..] == m.todo[k..];
    }
  }

  lemma RunLast(l: Layout, ms: seq<Machine>, es: seq<Event>)
    requires IsRun(l, ms, es)
    ensures ms != [] && Inv(l, ms[0].disk, LastOf(ms))
  {
    RunInv(l, ms, es, |ms| - 1);
  }

  /** What beginning a call does to the machine. */
  ghost function Begins(c: Call): Event {
    match c
    case Commit(t, _) => Start(t)
    case Recover(_) => Crash
  }

  lemma BeginStep(l: Layout, m: Machine, c: Call)
    requires HasHead(l, m.disk) && Enabled(l, m, Begins(c)) && (m.phase.Idle? ==> m.todo == [])
    ensures c.Commit? ==> IsTxn(l, |m.disk|, c.t)
    ensures var m' := Step(l, m, Begins(c));
            && m'.disk == m.disk && m'.todo == Writes(l, m.disk, c)
            && m'.started == m.started + (if c.Commit? then [c.t] else []) && m.returned <= m'.returned
            && (c.Commit? && m'.todo != [] ==> Acks(m')) && (c.Commit? && m'.todo == [] ==> |m.started| in m'.returned)
  {
  }

  /** The commits that returned, by their position among the commits. */
  ghost predicate Returned(l: Layout, ds: seq<Disk>, cs: seq<Call>, j: nat)
    requires IsHistory(l, ds, cs)
  {
    j < |cs| && cs[j].Commit? && Complete(l, ds[j], cs[j])
  }

  /** Every history of calls is a run of the machine. */
  lemma {:induction false} HistoryIsRun(l: Layout, ds: seq<Disk>, cs: seq<Call>)
    returns (ms: seq<Machine>, es: seq<Event>)
    requires IsHistory(l, ds, cs)
    ensures IsRun(l, ms, es) && ms[0].disk == ds[0] && LastOf(ms).disk == ds[|cs|] && LastOf(ms).started == Txns(cs)
    ensures cs == [] || Complete(l, ds[|cs| - 1], cs[|cs| - 1]) ==> LastOf(ms).phase.Idle?
    ensures forall j: nat | Returned(l, ds, cs, j) :: |Txns(cs[..j])| in LastOf(ms).returned
    decreases |cs|
  {
    hide IsDisk, IdleDisk, Step, Inv, Writes, Acks;
    if cs == [] {
      ms, es := [Machine(ds[0], [], Idle, [], [], {})], [];
    } else {
      var n := |cs| - 1;
      var c := cs[n];
      HistoryPrefix(l, ds, cs);
      var ms0, es0 := HistoryIsRun(l, ds[..n + 1], cs[..n]);
      var m := LastOf(ms0);
      RunLast(l, ms0, es0);
      IdleTodo(l, ms0[0].disk, m);
      BeginStep(l, m, c);
      RunMore(l, ms0, es0, Begins(c));
      var m1 := Step(l, m, Begins(c));
      ms, es := DoWrites(l, ms0 + [m1], es0 + [Begins(c)], c.k);
      RunLast(l, ms, es);
      if c.k == |m1.todo| {
        NothingLeft(l, ms[0].disk, LastOf(ms));
      }
      forall j: nat | Returned(l, ds, cs, j)
        ensures |Txns(cs[..j])| in LastOf(ms).returned
      {
        if j < n {
          assert Returned(l, ds[..n + 1], cs[..n], j) && cs[..n][..j] == cs[..j];
        }
      }
    }
  }

  lemma HistoryPrefix(l: Layout, ds: seq<Disk>, cs: seq<Call>)
    requires IsHistory(l, ds, cs) && cs != []
    ensures IsHistory(l, ds[..|cs|], cs[..|cs| - 1])
  {
    hide IsDisk, IdleDisk, Possible, Complete, Writes;
  }

  lemma IdleTodo(l: Layout, init: Disk, m: Machine)
    requires Inv(l, init, m)
    ensures HasHead(l, m.disk) && (m.phase.Idle? ==> m.todo == [])
  {
    RebootFinds(l, init, m);
  }

  /**
    Stop after any history of commits and recoveries, each complete or cut short at any write: recovery
    leaves every home block as after whole transactions, in order, and an empty log.  The transaction of
    every commit that returned is among them.
  */
  lemma HistoryAtomicity(l: Layout, ds: seq<Disk>, cs: seq<Call>) returns (ids: seq<nat>)
    requires IsHistory(l, ds, cs)
    ensures HasHead(l, ds[|cs|]) && InRange(|ds[|cs|]|, RecoveryWrites(l, ds[|cs|]))
    ensures (forall i | 0 <= i < |Txns(cs)| :: IsTxn(l, |ds[0]|, Txns(cs)[i]))
    ensures (forall i | 0 <= i < |ids| :: ids[i] < |Txns(cs)|) && forall i | 0 < i < |ids| :: ids[i - 1] < ids[i]
    ensures forall j: nat | Returned(l, ds, cs, j) :: |Txns(cs[..j])| in ids
    ensures IdleDisk(l, Expected(l, ds[0], Txns(cs), ids), ApplyAll(ds[|cs|], RecoveryWrites(l, ds[|cs|])))
  {
    var ms, es := HistoryIsRun(l, ds, cs);
    CrashAtomicity(l, ms, es, |ms| - 1);
    ids := LastOf(ms).committed;
  }

  // --- the calls of the log ---------------------------------------------------------------

  /** What `Log.Commit` issues is a complete commit call of the transaction that the cache holds. */
  lemma CommitIsCall(l: Layout, bufs: seq<Buf>, d: Disk, w: seq<Write>, lh: seq<nat>, d': Disk, w': seq<Write>)
    requires IsDisk(l, d) && Coherent(bufs, d) && IsHeader(l, |d|, lh) && Lists(d[l.start], [])
    requires Issued(d, w, CommitWrites(l, d, PendingTxn(bufs, d, lh)), d', w')
    ensures var t := PendingTxn(bufs, d, lh);
            var c := Commit(t, |CommitWrites(l, d, t)|);
            && Possible(l, d, c) && Complete(l, d, c) && d' == ApplyAll(d, Writes(l, d, c)[..c.k])
  {
    var t := PendingTxn(bufs, d, lh);
    var ws := CommitWrites(l, d, t);
    forall i | 0 <= i < |lh| ensures |t.data[i]| == BLOCK_WORDS {
      ViewSize(bufs, d, lh[i]);
    }
    assert ws[..|ws|] == ws;
  }

  lemma ViewSize(bufs: seq<Buf>, d: Disk, b: nat)
    requires Coherent(bufs, d) && b < |d|
    ensures |View(bufs, d, b)| == BLOCK_WORDS
  {
    if i :| 0 <= i < |bufs| && Holds(bufs[i], b) {
      ViewCached(bufs, d, i);
    }
  }

  /** What `Log.Recover` issues is a complete recovery call. */
  lemma RecoverIsCall(l: Layout, d: Disk, w: seq<Write>, s: seq<nat>, d': Disk, w': seq<Write>)
    requires IsDisk(l, d) && IsHeader(l, |d|, s) && Lists(d[l.start], s)
    requires Issued(d, w, RecoveryWrites(l, d), d', w')
    ensures var c := Recover(|RecoveryWrites(l, d)|);
            && Possible(l, d, c) && Complete(l, d, c) && d' == ApplyAll(d, Writes(l, d, c)[..c.k])
  {
    var ws := RecoveryWrites(l, d);
    assert ws[..|ws|] == ws;
  }
}
