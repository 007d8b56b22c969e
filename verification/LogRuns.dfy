/**
  Crash atomicity of the redo log over whole runs.

  A run interleaves starting a group commit, performing the next single-block write, and
  crashing.  A crash may come between any two writes, also during recovery, and is followed
  by recovery from whatever is on the disk.
*/
module LogRuns {
  import opened Params
  import opened LogDisk

  /**
    Where the code is: idle, copying the current transaction into the log (k blocks done), or
    copying the listed blocks home (k done).  `ack` says that this is a commit that will
    return to its caller rather than a recovery.
  */
  datatype Phase = Idle | Logging(k: nat) | Installing(s: seq<nat>, k: nat, ack: bool)

  datatype Machine = Machine(
    disk: Disk,
    todo: seq<Write>,        // the writes the running code has still to issue
    phase: Phase,
    started: seq<Txn>,       // every transaction handed to commit, in order
    committed: seq<nat>,     // the indices of those whose header write reached the disk
    returned: set<nat>)      // the indices of those whose commit returned

  datatype Event = Start(t: Txn) | DoWrite | Crash

  ghost predicate Enabled(l: Layout, m: Machine, e: Event) {
    match e
    case Start(t) => m.phase.Idle? && IsTxn(l, |m.disk|, t)
    case DoWrite => m.todo != []
    case Crash => true
  }

  ghost predicate HasHead(l: Layout, d: Disk) {
    && l.start < |d| && |d[l.start]| == BLOCK_WORDS
    && d[l.start][0] <= LOGSIZE && l.start + d[l.start][0] < |d|
  }

  ghost function Put(d: Disk, w: Write): Disk {
    if w.blockno < |d| then d[w.blockno := w.data] else d
  }

  /** One write of `write_log`, or the `write_head` that commits. */
  ghost function LogStep(l: Layout, m: Machine): Machine
    requires m.todo != [] && m.phase.Logging?
  {
    var m' := m.(disk := Put(m.disk, m.todo[0]), todo := m.todo[1..]);
    if m.todo[0].blockno == l.start && m.started != [] then
      var id := |m.started| - 1;
      m'.(phase := Installing(m.started[id].blocks, 0, true), committed := m.committed + [id])
    else m'.(phase := Logging(m.phase.k + 1))
  }

  /** One write of `install_trans`, or the `write_head` that erases the log. */
  ghost function InstallStep(m: Machine): Machine
    requires m.todo != []
  {
    var m' := m.(disk := Put(m.disk, m.todo[0]), todo := m.todo[1..]);
    if !m.phase.Installing? then m'
    else if |m.todo| > 1 then m'.(phase := m.phase.(k := m.phase.k + 1))
    else
      var last := if m.phase.ack && m.started != [] then {|m.started| - 1} else {};
      m'.(phase := Idle, returned := m.returned + last)
  }

  /** Recovery from a header that does not fit the disk is not defined; `RebootFinds` shows that there is none. */
  ghost function Step(l: Layout, m: Machine, e: Event): Machine
    requires Enabled(l, m, e)
  {
    if !HasHead(l, m.disk) then m
    else
    match e
    case Start(t) =>
      var started := m.started + [t];
      if t.blocks == [] then
        m.(started := started, committed := m.committed + [|m.started|], returned := m.returned + {|m.started|})
      else
        m.(started := started, todo := CommitWrites(l, m.disk, t), phase := Logging(0))
    case DoWrite => if m.phase.Logging? then LogStep(l, m) else InstallStep(m)
    case Crash =>
      m.(todo := RecoveryWrites(l, m.disk), phase := Installing(ReadHead(m.disk[l.start]), 0, false))
  }

  /** The state after exactly the given transactions, in order. */
  ghost function Expected(l: Layout, init: Disk, ts: seq<Txn>, ids: seq<nat>): (d: Disk)
    requires forall i | 0 <= i < |ts| :: IsTxn(l, |init|, ts[i])
    requires forall i | 0 <= i < |ids| :: ids[i] < |ts|
    ensures |d| == |init|
  {
    if ids == [] then init else ApplyTxn(Expected(l, init, ts, ids[..|ids| - 1]), ts[ids[|ids| - 1]])
  }

  ghost predicate SameHome(l: Layout, d: Disk, e: Disk) {
    |d| == |e| && forall b: nat {:trigger IsHome(l, |d|, b)} | IsHome(l, |d|, b) :: d[b] == e[b]
  }

  /** The record of transactions makes sense. */
  ghost predicate Bookkeeping(l: Layout, init: Disk, m: Machine) {
    && IsDisk(l, init) && IsDisk(l, m.disk) && |init| == |m.disk|
    && (forall i | 0 <= i < |m.started| :: IsTxn(l, |init|, m.started[i]))
    && (forall i | 0 <= i < |m.committed| :: m.committed[i] < |m.started|)
    && (forall i | 0 < i < |m.committed| :: m.committed[i - 1] < m.committed[i])
    && (forall i | i in m.returned :: i in m.committed)
  }

  ghost predicate Inv(l: Layout, init: Disk, m: Machine) {
    && Bookkeeping(l, init, m)
    && PhaseInv(l, Expected(l, init, m.started, m.committed), m)
  }

  ghost predicate PhaseInv(l: Layout, e: Disk, m: Machine) {
    match m.phase
    case Idle => m.todo == [] && IdleDisk(l, e, m.disk)
    case Logging(k) =>
      && m.started != [] && |m.started| - 1 !in m.committed
      && LoggingDisk(l, e, m.disk, m.todo, m.started[|m.started| - 1], k)
    case Installing(s, k, ack) =>
      && (ack ==> m.started != [] && |m.started| - 1 in m.committed)
      && InstallingDisk(l, e, m.disk, m.todo, s, k)
  }

  /** The log is empty and the home blocks are the expected ones. */
  ghost predicate IdleDisk(l: Layout, e: Disk, d: Disk) {
    l.start < |d| && Lists(d[l.start], []) && SameHome(l, d, e)
  }

  /** The first k blocks of t are in the log; nothing else has changed. */
  ghost predicate LoggingDisk(l: Layout, e: Disk, d: Disk, todo: seq<Write>, t: Txn, k: nat) {
    && IdleDisk(l, e, d) && IsDisk(l, d)
    && IsTxn(l, |d|, t) && t.blocks != [] && k <= |t.blocks|
    && todo == CommitFrom(l, d[l.start], t, k)
    && forall i | 0 <= i < k :: d[l.start + 1 + i] == t.data[i]
  }

  /**
    The log holds the expected contents of the listed blocks, and only unlisted or installed ones are sure to be
    home.
  */
  ghost predicate InstallingDisk(l: Layout, e: Disk, d: Disk, todo: seq<Write>, s: seq<nat>, k: nat) {
    && IsDisk(l, d) && |e| == |d|
    && IsHeader(l, |d|, s) && k <= |s| && Lists(d[l.start], s)
    && todo == RecoverFrom(l, d, s, k)
    && (forall i | 0 <= i < |s| :: d[l.start + 1 + i] == e[s[i]])
    && (forall i | 0 <= i < k :: d[s[i]] == e[s[i]])
    && (forall b: nat {:trigger IsHome(l, |d|, b)} | IsHome(l, |d|, b) && b !in s :: d[b] == e[b])
  }

  lemma {:induction false} ExpectedFrame(l: Layout, init: Disk, ts: seq<Txn>, t: Txn, ids: seq<nat>)
    requires forall i | 0 <= i < |ts| :: IsTxn(l, |init|, ts[i])
    requires IsTxn(l, |init|, t)
    requires forall i | 0 <= i < |ids| :: ids[i] < |ts|
    ensures Expected(l, init, ts + [t], ids) == Expected(l, init, ts, ids)
  {
    if ids != [] { ExpectedFrame(l, init, ts, t, ids[..|ids| - 1]); }
  }

  lemma ExpectedSnoc(l: Layout, init: Disk, ts: seq<Txn>, ids: seq<nat>, id: nat)
    requires forall i | 0 <= i < |ts| :: IsTxn(l, |init|, ts[i])
    requires forall i | 0 <= i < |ids| :: ids[i] < |ts|
    requires id < |ts|
    ensures Expected(l, init, ts, ids + [id]) == ApplyTxn(Expected(l, init, ts, ids), ts[id])
  {
    assert (ids + [id])[..|ids|] == ids;
  }

  lemma LogBlockStep(l: Layout, e: Disk, d: Disk, todo: seq<Write>, t: Txn, k: nat)
    requires LoggingDisk(l, e, d, todo, t, k) && k < |t.blocks|
    ensures todo != [] && l.start < todo[0].blockno < |d|
    ensures LoggingDisk(l, e, d[todo[0].blockno := todo[0].data], todo[1..], t, k + 1)
  {
    CommitUnfold(l, d[l.start], t, k);
  }

  /** Writing the header is the commit point: from here on the transaction belongs to the expected state. */
  lemma HeadStep(l: Layout, e: Disk, d: Disk, todo: seq<Write>, t: Txn)
    requires LoggingDisk(l, e, d, todo, t, |t.blocks|)
    ensures todo != [] && todo[0].blockno == l.start
    ensures InstallingDisk(l, ApplyTxn(e, t), d[l.start := todo[0].data], todo[1..], t.blocks, 0)
  {
    var head := HeadBlock(d[l.start], t.blocks);
    assert todo[0] == Write(l.start, head);
    var d' := d[l.start := head];
    assert todo[1..] == HomeWrites(t, 0) + [ClearWrite(l, head)];
    InstallIsHome(l, d', t, 0);
    assert t.blocks[0..] == t.blocks;
    forall b: nat | b < |d|
      ensures forall i | 0 <= i < |t.blocks| && t.blocks[i] == b :: ApplyTxn(e, t)[b] == t.data[i]
      ensures b !in t.blocks ==> ApplyTxn(e, t)[b] == e[b]
    {
      ApplyTxnAt(e, t, 0, b);
    }
  }

  lemma HomeBlockStep(l: Layout, e: Disk, d: Disk, todo: seq<Write>, s: seq<nat>, k: nat)
    requires InstallingDisk(l, e, d, todo, s, k) && k < |s|
    ensures |todo| > 1 && todo[0].blockno < |d|
    ensures InstallingDisk(l, e, d[todo[0].blockno := todo[0].data], todo[1..], s, k + 1)
  {
    RecoverUnfold(l, d, s, k);
    var d' := d[s[k] := d[l.start + 1 + k]];
    InstallFrame(l, d, d', s, k + 1);
    forall i: nat | i < k ensures s[i] != s[k] { assert Apart(s, i, k); }
  }

  lemma ClearStep(l: Layout, e: Disk, d: Disk, todo: seq<Write>, s: seq<nat>)
    requires InstallingDisk(l, e, d, todo, s, |s|)
    ensures |todo| == 1 && todo[0].blockno == l.start && |todo[0].data| == BLOCK_WORDS
    ensures IdleDisk(l, e, d[l.start := todo[0].data])
  {
    assert todo == [ClearWrite(l, d[l.start])];
  }

  /** A reboot finds in the log either nothing or exactly the transaction that was being installed. */
  lemma RebootFinds(l: Layout, init: Disk, m: Machine)
    requires Inv(l, init, m)
    ensures HasHead(l, m.disk)
    ensures InstallingDisk(l, Expected(l, init, m.started, m.committed), m.disk,
                           RecoveryWrites(l, m.disk), ReadHead(m.disk[l.start]), 0)
  {
    var s := if m.phase.Installing? then m.phase.s else [];
    assert Lists(m.disk[l.start], s);
    assert ReadHead(m.disk[l.start]) == s;
  }

  lemma StartBooks(l: Layout, init: Disk, m: Machine, t: Txn)
    requires Bookkeeping(l, init, m) && IsTxn(l, |init|, t)
    ensures Bookkeeping(l, init, m.(started := m.started + [t]))
    ensures Bookkeeping(l, init, m.(started := m.started + [t], committed := m.committed + [|m.started|],
                                    returned := m.returned + {|m.started|}))
  {
    hide IsDisk, IsTxn;
  }

  lemma StartKeepsInv(l: Layout, init: Disk, m: Machine, t: Txn)
    requires Inv(l, init, m) && Enabled(l, m, Start(t)) && HasHead(l, m.disk)
    ensures Inv(l, init, Step(l, m, Start(t)))
  {
    hide IsDisk, IsTxn, Lists, SameHome, CommitFrom, Expected, ApplyTxn;
    StartBooks(l, init, m, t);
    ExpectedFrame(l, init, m.started, t, m.committed);
    if t.blocks == [] {
      ExpectedSnoc(l, init, m.started + [t], m.committed, |m.started|);
      NothingToApply(l, Expected(l, init, m.started, m.committed), t);
    } else {
      assert |m.started| !in m.committed;
      assert (m.started + [t])[|m.started|] == t;
    }
  }

  lemma NothingToApply(l: Layout, d: Disk, t: Txn)
    requires IsTxn(l, |d|, t) && t.blocks == []
    ensures ApplyTxn(d, t) == d
  {
    assert HomeWrites(t, 0) == [];
  }

  lemma LogBlockKeepsInv(l: Layout, init: Disk, m: Machine)
    requires Inv(l, init, m) && m.todo != [] && HasHead(l, m.disk) && m.phase.Logging?
    requires m.phase.k < |m.started[|m.started| - 1].blocks|
    ensures Inv(l, init, Step(l, m, DoWrite))
  {
    var e := Expected(l, init, m.started, m.committed);
    LogBlockStep(l, e, m.disk, m.todo, m.started[|m.started| - 1], m.phase.k);
  }

  lemma HeadKeepsInv(l: Layout, init: Disk, m: Machine)
    requires Inv(l, init, m) && m.todo != [] && HasHead(l, m.disk) && m.phase.Logging?
    requires m.phase.k == |m.started[|m.started| - 1].blocks|
    ensures Inv(l, init, Step(l, m, DoWrite))
  {
    hide IsDisk, IsTxn, SameHome, ApplyTxn, RecoverFrom, IsHeader, Lists, Expected, IdleDisk, CommitFrom;
    var e, id := Expected(l, init, m.started, m.committed), |m.started| - 1;
    HeadStep(l, e, m.disk, m.todo, m.started[id]);
    CommitBooks(l, init, m, id, m.disk[l.start := m.todo[0].data]);
    hide Bookkeeping;
    ExpectedSnoc(l, init, m.started, m.committed, id);
  }

  lemma CommitBooks(l: Layout, init: Disk, m: Machine, id: nat, d: Disk)
    requires Bookkeeping(l, init, m) && id == |m.started| - 1 && id !in m.committed && IsDisk(l, d) && |d| == |init|
    ensures Bookkeeping(l, init, m.(disk := d, committed := m.committed + [id]))
    ensures forall i | 0 <= i < |m.started| :: IsTxn(l, |init|, m.started[i])
    ensures forall i | 0 <= i < |m.committed| :: m.committed[i] < |m.started|
  {
    hide IsDisk, IsTxn;
  }

  lemma InstallWriteKeepsInv(l: Layout, init: Disk, m: Machine)
    requires Inv(l, init, m) && m.todo != [] && HasHead(l, m.disk) && m.phase.Installing?
    ensures Inv(l, init, Step(l, m, DoWrite))
  {
    var e, s, k := Expected(l, init, m.started, m.committed), m.phase.s, m.phase.k;
    if k < |s| {
      HomeBlockStep(l, e, m.disk, m.todo, s, k);
    } else {
      ClearStep(l, e, m.disk, m.todo, s);
    }
  }

  /** Every step keeps the invariant. */
  lemma StepKeepsInv(l: Layout, init: Disk, m: Machine, e: Event)
    requires Inv(l, init, m) && Enabled(l, m, e)
    ensures HasHead(l, m.disk)
    ensures Inv(l, init, Step(l, m, e))
  {
    RebootFinds(l, init, m);
    match e
    case Start(t) => StartKeepsInv(l, init, m, t);
    case Crash =>
    case DoWrite =>
      if !m.phase.Logging? { InstallWriteKeepsInv(l, init, m); }
      else if m.phase.k < |m.started[|m.started| - 1].blocks| { LogBlockKeepsInv(l, init, m); }
      else { HeadKeepsInv(l, init, m); }
  }

  // --- whole runs -------------------------------------------------------------------------

  /** `ms` is a run from a disk whose log is empty (as mkfs leaves it), one enabled event a step. */
  ghost predicate IsRun(l: Layout, ms: seq<Machine>, es: seq<Event>) {
    && |ms| == |es| + 1
    && IsDisk(l, ms[0].disk) && IdleDisk(l, ms[0].disk, ms[0].disk)
    && ms[0] == Machine(ms[0].disk, [], Idle, [], [], {})
    && forall i | 0 <= i < |es| ::
         Enabled(l, ms[i], es[i]) && ms[i + 1] == Step(l, ms[i], es[i])
  }

  lemma {:induction false} RunInv(l: Layout, ms: seq<Machine>, es: seq<Event>, i: nat)
    requires IsRun(l, ms, es) && i < |ms|
    ensures Inv(l, ms[0].disk, ms[i])
  {
    if i > 0 {
      RunInv(l, ms, es, i - 1);
      StepKeepsInv(l, ms[0].disk, ms[i - 1], es[i - 1]);
    }
  }

  /** Running recovery to its end. */
  lemma {:induction false} InstallToEnd(l: Layout, e: Disk, d: Disk, todo: seq<Write>, s: seq<nat>, k: nat)
    requires InstallingDisk(l, e, d, todo, s, k)
    ensures InRange(|d|, todo) && IdleDisk(l, e, ApplyAll(d, todo))
    decreases |s| - k
  {
    if k < |s| {
      HomeBlockStep(l, e, d, todo, s, k);
      var d' := d[todo[0].blockno := todo[0].data];
      InstallToEnd(l, e, d', todo[1..], s, k + 1);
      assert todo == [todo[0]] + todo[1..];
    } else {
      ClearStep(l, e, d, todo, s);
      assert ApplyAll(d[l.start := todo[0].data], todo[1..]) == d[l.start := todo[0].data];
    }
  }

  /**
    Crash atomicity.  Stop any run anywhere: recovery empties the log and leaves every home
    block as after the committed transactions and no part of any other.  The committed ones
    are in the order they were started, and every transaction whose commit returned is among them.
  */
  lemma CrashAtomicity(l: Layout, ms: seq<Machine>, es: seq<Event>, i: nat)
    requires IsRun(l, ms, es) && i < |ms|
    ensures Bookkeeping(l, ms[0].disk, ms[i]) && HasHead(l, ms[i].disk)
    ensures InRange(|ms[i].disk|, RecoveryWrites(l, ms[i].disk))
    ensures IdleDisk(l, Expected(l, ms[0].disk, ms[i].started, ms[i].committed),
                     ApplyAll(ms[i].disk, RecoveryWrites(l, ms[i].disk)))
  {
    RunInv(l, ms, es, i);
    RebootFinds(l, ms[0].disk, ms[i]);
    InstallToEnd(l, Expected(l, ms[0].disk, ms[i].started, ms[i].committed), ms[i].disk,
                 RecoveryWrites(l, ms[i].disk), ReadHead(ms[i].disk[l.start]), 0);
  }
}
