/**
  The interrupt-driven disk driver ide.c, and memide.c as its specification.

  First the request queue as a linked list through the buffers; then the driver over every
  interleaving of requests, disk completions and interrupts, compared with a driver that
  serves each request on the spot.
*/
module Ide {
  import opened Options

  type Block = seq<nat>

  // --- the queue as a linked list ---------------------------------------------------------

  class QNode {
    var qnext: QNode?

    constructor ()
      ensures qnext == null
    {
      qnext := null;
    }
  }

  ghost function NodeAt(nodes: seq<QNode>, i: nat): QNode? {
    if i < |nodes| then nodes[i] else null
  }

  class Queue {
    var idequeue: QNode?
    ghost var nodes: seq<QNode>   // the requests, the active one first

    ghost predicate Valid()
      reads this, nodes
    {
      && (forall i, j | 0 <= i < j < |nodes| :: nodes[i] != nodes[j])
      && idequeue == NodeAt(nodes, 0)
      && forall i | 0 <= i < |nodes| :: nodes[i].qnext == NodeAt(nodes, i + 1)
    }

    constructor ()
      ensures Valid() && nodes == []
    {
      idequeue, nodes := null, [];
    }

    /** The insertion of `iderw`: walk to the end and link b in; tell whether b is now the active request. */
    method Append(b: QNode) returns (active: bool)
      requires Valid() && b !in nodes
      modifies this, nodes, b
      ensures Valid() && nodes == old(nodes) + [b]
      ensures active == (old(nodes) == [])
    {
      b.qnext := null;
      if idequeue == null {
        idequeue := b;
      } else {
        var p := idequeue;
        ghost var k := 0;
        while p.qnext != null
          invariant 0 <= k < |nodes| && p == nodes[k]
          modifies {}
          decreases |nodes| - k
        {
          p, k := p.qnext, k + 1;
        }
        p.qnext := b;
      }
      assert forall i | 0 <= i < |nodes| :: (nodes + [b])[i] == nodes[i];
      nodes := nodes + [b];
      active := idequeue == b;
    }

    /** The removal of `ideintr`. */
    method Pop() returns (b: QNode?)
      requires Valid()
      modifies this
      ensures Valid()
      ensures if old(nodes) == [] then b == null && nodes == []
              else b == old(nodes)[0] && nodes == old(nodes)[1..]
    {
      b := idequeue;
      if b != null {
        assert forall i | 0 <= i < |nodes[1..]| :: nodes[1..][i] == nodes[i + 1];
        idequeue := b.qnext;
        nodes := nodes[1..];
      }
    }
  }

  // --- one request ------------------------------------------------------------------------

  /** The part of a buffer that the driver reads and writes. */
  datatype Buf = Buf(valid: bool, dirty: bool, blockno: nat, data: Block)

  /** What the disk has been told to do; a write carries the data sent with the command. */
  datatype Cmd = ReadCmd(blockno: nat) | WriteCmd(blockno: nat, data: Block)

  /** `iderw` of memide.c, on the disk and on the buffer. */
  function MemDisk(disk: seq<Block>, b: Buf): seq<Block>
    requires b.blockno < |disk|
  {
    if b.dirty then disk[b.blockno := b.data] else disk
  }

  function MemBuf(disk: seq<Block>, b: Buf): Buf
    requires b.blockno < |disk|
  {
    if b.dirty then b.(dirty := false, valid := true) else b.(data := disk[b.blockno], valid := true)
  }

  /** `idestart`. */
  function Start(b: Buf): Cmd { if b.dirty then WriteCmd(b.blockno, b.data) else ReadCmd(b.blockno) }

  /** What the disk itself does with a command. */
  function Perform(disk: seq<Block>, c: Cmd): seq<Block> {
    if c.WriteCmd? && c.blockno < |disk| then disk[c.blockno := c.data] else disk
  }

  /** What `ideintr` does to the buffer of a finished request; ok is the outcome of `idewait(1)`. */
  function Finish(disk: seq<Block>, b: Buf, ok: bool): Buf {
    var b' := if !b.dirty && ok && b.blockno < |disk| then b.(data := disk[b.blockno]) else b;
    b'.(valid := true, dirty := false)
  }

  /**
    Starting, performing and finishing a request is `iderw` of memide.c, unless a read fails
    and the buffer held something else.
  */
  lemma RequestIsMemRw(disk: seq<Block>, b: Buf, ok: bool)
    requires b.blockno < |disk|
    ensures Perform(disk, Start(b)) == MemDisk(disk, b)
    ensures Finish(Perform(disk, Start(b)), b, ok) == MemBuf(disk, b)
       <==> ok || b.dirty || b.data == disk[b.blockno]
  {
    assert b.(data := b.data) == b;
  }

  /** A buffer that has just been given to block 0: when the read fails, its old data passes for the block. */
  lemma FailedReadIsStale(x: Block, y: Block)
    requires x != y
    ensures var disk, b := [x], Buf(false, false, 0, y);
            var got := Finish(Perform(disk, Start(b)), b, false);
            got.valid && !got.dirty && got.data == y != MemBuf(disk, b).data == x
  {
    RequestIsMemRw([x], Buf(false, false, 0, y), false);
  }

  // --- every interleaving -----------------------------------------------------------------

  /** The process that holds a buffer: outside iderw, asleep in it, or awake in its loop. */
  datatype Pc = Idle | Asleep | Runnable

  datatype State = State(
    disk: seq<Block>,
    bufs: seq<Buf>,
    pcs: seq<Pc>,            // of the process that holds each buffer
    queue: seq<nat>,         // buffers in the request queue, the active one first
    cmd: Option<Cmd>,        // what the disk is working on
    done: bool,              // the disk has finished and its interrupt is pending
    // the run that the synchronous driver makes of the same requests
    mdisk: seq<Block>,
    mbufs: seq<Buf>,
    served: seq<nat>,        // for each buffer, how often it has been served since its last request
    submitted: seq<nat>,     // the requests in the order they were made
    completed: seq<nat>)     // the requests in the order they were served

  datatype Action =
    | Modify(b: nat, buf: Buf)   // the holder changes or recycles its buffer, outside iderw
    | Submit(b: nat)             // iderw up to its sleep
    | DiskDone                   // the disk performs the active command
    | Interrupt                  // ideintr
    | Run(b: nat)                // one turn of the loop of iderw after a wakeup
    | Kill(b: nat)               // the sleeping process is woken for another reason

  predicate Settled(b: Buf) { b.valid && !b.dirty }

  predicate Enabled(s: State, a: Action) {
    match a
    case Modify(b, buf) => b < |s.bufs| == |s.pcs| && s.pcs[b].Idle? && buf.blockno < |s.disk|
    case Submit(b) => b < |s.bufs| == |s.pcs| && s.pcs[b].Idle? && !Settled(s.bufs[b])
    case DiskDone => s.cmd.Some? && !s.done
    case Interrupt => s.done || s.queue == []
    case Run(b) => b < |s.bufs| == |s.pcs| && s.pcs[b].Runnable?
    case Kill(b) => b < |s.pcs| && s.pcs[b].Asleep?
  }

  predicate WellFormed(s: State) {
    && |s.pcs| == |s.bufs| == |s.mbufs| == |s.served| && |s.mdisk| == |s.disk|
    && (forall b | 0 <= b < |s.bufs| :: s.bufs[b].blockno < |s.disk| && s.mbufs[b].blockno < |s.disk|)
    && (forall i | 0 <= i < |s.queue| :: s.queue[i] < |s.bufs|)
  }

  function Active(bufs: seq<Buf>, queue: seq<nat>): Option<Cmd> {
    if queue == [] || queue[0] >= |bufs| then None else Some(Start(bufs[queue[0]]))
  }

  function Step(s: State, a: Action): State
    requires WellFormed(s) && Enabled(s, a)
  {
    match a
    case Modify(b, buf) => s.(bufs := s.bufs[b := buf], mbufs := s.mbufs[b := buf])
    case Submit(b) =>
      var queue := s.queue + [b];
      s.(queue := queue, cmd := if s.queue == [] then Active(s.bufs, queue) else s.cmd, pcs := s.pcs[b := Asleep],
         served := s.served[b := 0], submitted := s.submitted + [b])
    case DiskDone => s.(disk := Perform(s.disk, s.cmd.value), done := true)
    case Interrupt =>
      if s.queue == [] then s
      else
        var b := s.queue[0];
        var bufs := s.bufs[b := Finish(s.disk, s.bufs[b], true)];
        s.(bufs := bufs, queue := s.queue[1..], cmd := Active(bufs, s.queue[1..]), done := false,
           pcs := if s.pcs[b].Asleep? then s.pcs[b := Runnable] else s.pcs,
           mdisk := MemDisk(s.mdisk, s.mbufs[b]), mbufs := s.mbufs[b := MemBuf(s.mdisk, s.mbufs[b])],
           served := s.served[b := s.served[b] + 1], completed := s.completed + [b])
    case Run(b) => s.(pcs := s.pcs[b := if Settled(s.bufs[b]) then Idle else Asleep])
    case Kill(b) => s.(pcs := s.pcs[b := Runnable])
  }

  ghost predicate Good(s: State, b: nat)
    requires WellFormed(s) && b < |s.bufs|
  {
    && (b in s.queue <==> !s.pcs[b].Idle? && s.served[b] == 0)
    && (b in s.queue ==> !Settled(s.bufs[b]))
    && (!s.pcs[b].Idle? && s.served[b] != 0 ==> s.served[b] == 1 && Settled(s.bufs[b]))
    && (s.pcs[b].Asleep? ==> b in s.queue)
  }

  ghost predicate NoRepeat(q: seq<nat>) {
    forall i: nat, j: nat | i < j < |q| :: q[i] != q[j]
  }

  ghost predicate Inv(s: State) {
    && WellFormed(s) && NoRepeat(s.queue)
    && (forall b: nat | b < |s.bufs| :: Good(s, b))
    && s.cmd == Active(s.bufs, s.queue)
    && (s.done ==> s.cmd.Some?)
    // the synchronous driver has the same buffers, and the same disk up to a write the disk has just finished
    && s.mbufs == s.bufs
    && s.disk == (if s.done then Perform(s.mdisk, s.cmd.value) else s.mdisk)
    && s.submitted == s.completed + s.queue
  }

  lemma InterruptKeepsInv(s: State)
    requires Inv(s) && Enabled(s, Interrupt)
    ensures Inv(Step(s, Interrupt))
  {
    hide NoRepeat, Perform, MemDisk, MemBuf, Start;
    if s.queue != [] {
      var s', b := Step(s, Interrupt), s.queue[0];
      assert Good(s, b);
      Popped(s.queue);
      assert s.submitted == s'.completed + s'.queue;
      RequestIsMemRw(s.mdisk, s.bufs[b], true);
      forall c: nat | c < |s'.bufs| ensures Good(s', c) { assert Good(s, c); }
    }
  }

  lemma Popped(q: seq<nat>)
    requires NoRepeat(q) && q != []
    ensures NoRepeat(q[1..]) && forall c :: c in q[1..] <==> c in q && c != q[0]
  {
    assert forall i | 0 <= i < |q[1..]| :: q[1..][i] == q[i + 1];
    assert q == [q[0]] + q[1..];
  }

  lemma SubmitKeepsInv(s: State, b: nat)
    requires Inv(s) && Enabled(s, Submit(b))
    ensures Inv(Step(s, Submit(b)))
  {
    var s' := Step(s, Submit(b));
    assert Good(s, b);
    forall c: nat | c < |s'.bufs| ensures Good(s', c) { assert Good(s, c); }
    assert s'.submitted == s.completed + s'.queue;
  }

  lemma HolderKeepsInv(s: State, a: Action, b: nat)
    requires Inv(s) && Enabled(s, a) && b < |s.bufs|
    requires (a.Modify? && a.b == b) || a == Run(b) || a == Kill(b)
    ensures Inv(Step(s, a))
  {
    var s' := Step(s, a);
    assert Good(s, b);
    if s.queue != [] { assert Good(s, s.queue[0]); }
    forall c: nat | c < |s'.bufs| ensures Good(s', c) { assert Good(s, c); }
  }

  lemma StepKeepsInv(s: State, a: Action)
    requires Inv(s) && Enabled(s, a)
    ensures Inv(Step(s, a))
  {
    match a
    case Interrupt => InterruptKeepsInv(s);
    case Submit(b) => SubmitKeepsInv(s, b);
    case DiskDone => forall c: nat | c < |s.bufs| ensures Good(Step(s, a), c) { assert Good(s, c); }
    case Modify(b, _) => HolderKeepsInv(s, a, b);
    case Run(b) => HolderKeepsInv(s, a, b);
    case Kill(b) => HolderKeepsInv(s, a, b);
  }

  // --- whole runs -------------------------------------------------------------------------

  ghost predicate IsStart(s: State) {
    && WellFormed(s) && (forall b | 0 <= b < |s.pcs| :: s.pcs[b].Idle?)
    && s == State(s.disk, s.bufs, s.pcs, [], None, false, s.disk, s.bufs, s.served, [], [])
  }

  ghost predicate IsRun(ss: seq<State>, acts: seq<Action>) {
    && |ss| == |acts| + 1 && IsStart(ss[0])
    && forall i | 0 <= i < |acts| :: WellFormed(ss[i]) && Enabled(ss[i], acts[i]) && ss[i + 1] == Step(ss[i], acts[i])
  }

  lemma {:induction false} RunInv(ss: seq<State>, acts: seq<Action>, i: nat)
    requires IsRun(ss, acts) && i < |ss|
    ensures Inv(ss[i])
  {
    if i > 0 {
      RunInv(ss, acts, i - 1);
      StepKeepsInv(ss[i - 1], acts[i - 1]);
    }
  }

  /**
    The queued driver is the synchronous driver: in every reachable state the buffers are those
    that memide.c would have produced by serving the completed requests one at a time, in the
    order in which they were made, and so is the disk, up to a write whose interrupt is pending.
  */
  lemma RefinesMemide(ss: seq<State>, acts: seq<Action>, i: nat)
    requires IsRun(ss, acts) && i < |ss|
    ensures ss[i].bufs == ss[i].mbufs
    ensures !ss[i].done ==> ss[i].disk == ss[i].mdisk
    ensures ss[i].submitted == ss[i].completed + ss[i].queue
  {
    RunInv(ss, acts, i);
  }

  /** A call of iderw returns exactly when its request has been served, exactly once, and leaves the buffer settled. */
  lemma ReturnsWhenServed(ss: seq<State>, acts: seq<Action>, i: nat, b: nat)
    requires IsRun(ss, acts) && i < |acts| && acts[i] == Run(b)
    ensures ss[i + 1].pcs[b].Idle? <==> ss[i].served[b] == 1
    ensures ss[i + 1].pcs[b].Idle? ==> Settled(ss[i + 1].bufs[b]) && b !in ss[i + 1].queue
    ensures !ss[i + 1].pcs[b].Idle? ==> b in ss[i + 1].queue && ss[i].served[b] == 0
  {
    RunInv(ss, acts, i);
    assert Good(ss[i], b);
  }

  /** A process asleep in iderw has its buffer in the queue, once, so an interrupt will wake it. */
  lemma SleepersAreQueued(ss: seq<State>, acts: seq<Action>, i: nat, b: nat)
    requires IsRun(ss, acts) && i < |ss| && b < |ss[i].pcs| && ss[i].pcs[b].Asleep?
    ensures b in ss[i].queue && NoRepeat(ss[i].queue) && ss[i].cmd.Some?
  {
    RunInv(ss, acts, i);
    assert Good(ss[i], b);
  }

  /** A whole call on an idle disk: request, command, interrupt, return.  The buffer is written, or read. */
  lemma RequestServed(ss: seq<State>, acts: seq<Action>, i: nat, b: nat)
    requires IsRun(ss, acts) && i < |ss| && b < |ss[i].bufs| == |ss[i].pcs| && ss[i].pcs[b].Idle? && ss[i].queue == []
    requires ss[i].bufs[b].dirty || !ss[i].bufs[b].valid
    ensures WellFormed(ss[i]) && Enabled(ss[i], Submit(b))
    ensures var s1 := Step(ss[i], Submit(b)); WellFormed(s1) && Enabled(s1, DiskDone)
    ensures var s2 := Step(Step(ss[i], Submit(b)), DiskDone); WellFormed(s2) && Enabled(s2, Interrupt)
    ensures var s3 := Step(Step(Step(ss[i], Submit(b)), DiskDone), Interrupt); WellFormed(s3) && Enabled(s3, Run(b))
    ensures var s, t := ss[i], Step(Step(Step(Step(ss[i], Submit(b)), DiskDone), Interrupt), Run(b));
            var x := s.bufs[b];
            && t.pcs == s.pcs && t.queue == [] && t.cmd.None? && !t.done
            && t.disk == (if x.dirty then s.disk[x.blockno := x.data] else s.disk)
            && t.bufs == s.bufs[b := Buf(true, false, x.blockno, if x.dirty then x.data else s.disk[x.blockno])]
  {
    RunInv(ss, acts, i);
    hide Good, NoRepeat;
    var s := ss[i];
    var s1 := Step(s, Submit(b));
    assert s1.queue == [b];
    ServedAlone(s1, b);
    assert s1.pcs[b := Idle] == s.pcs;
  }

  /** The disk finishes the only request, and the process that waits for it returns. */
  lemma ServedAlone(s: State, b: nat)
    requires WellFormed(s) && b < |s.bufs| && s.queue == [b] && s.pcs[b].Asleep? && !s.done
    requires s.cmd == Some(Start(s.bufs[b]))
    ensures Enabled(s, DiskDone)
    ensures var s1 := Step(s, DiskDone); WellFormed(s1) && Enabled(s1, Interrupt)
    ensures var s2 := Step(Step(s, DiskDone), Interrupt); WellFormed(s2) && Enabled(s2, Run(b))
    ensures var t, x := Step(Step(Step(s, DiskDone), Interrupt), Run(b)), s.bufs[b];
            && t.pcs == s.pcs[b := Idle] && t.queue == [] && t.cmd.None? && !t.done
            && t.disk == (if x.dirty then s.disk[x.blockno := x.data] else s.disk)
            && t.bufs == s.bufs[b := Buf(true, false, x.blockno, if x.dirty then x.data else s.disk[x.blockno])]
  {
    var s2 := Step(Step(s, DiskDone), Interrupt);
    assert s2.queue == [];
    assert Step(s2, Run(b)).pcs == s.pcs[b := Idle];
  }

  /** A process that is woken before its request has been served goes back to sleep. */
  lemma SpuriousWakeup(ss: seq<State>, acts: seq<Action>, i: nat, b: nat)
    requires IsRun(ss, acts) && i < |ss| && b < |ss[i].pcs| && ss[i].pcs[b].Asleep?
    ensures WellFormed(ss[i]) && Enabled(ss[i], Kill(b))
    ensures var s1 := Step(ss[i], Kill(b)); WellFormed(s1) && Enabled(s1, Run(b)) && Step(s1, Run(b)) == ss[i]
  {
    RunInv(ss, acts, i);
    assert Good(ss[i], b);
    assert ss[i].pcs[b := Runnable][b := Asleep] == ss[i].pcs;
  }
}
