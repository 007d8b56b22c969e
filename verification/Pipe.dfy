/**
  pipe.c: a bounded first-in first-out buffer over 32-bit counters that wrap around, shared by
  any number of sleeping readers and writers.

  A call holds the pipe lock from its start, or from its last sleep, until it returns or goes
  to sleep; such a stretch is one step here, and one call of a method of the class.
*/
module Pipe {

  const PIPESIZE := 512
  const U32 := 0x1_0000_0000

  /** How a stretch of a call ends: it returns, it returns -1, or it goes to sleep. */
  datatype Outcome = Done | Fail | Sleep

  function Min(a: int, b: int): int { if a < b then a else b }

  /** How many bytes of `left` remaining ones a writer copies before it is done or the pipe is full. */
  function Copied(used: nat, left: nat): nat
    requires used <= PIPESIZE
  {
    Min(PIPESIZE - used, left)
  }

  function WriteOutcome(used: nat, left: nat, readopen: bool, killed: bool): Outcome
    requires used <= PIPESIZE
  {
    if left <= PIPESIZE - used then Done else if !readopen || killed then Fail else Sleep
  }

  function ReadOutcome(used: nat, writeopen: bool, killed: bool): Outcome {
    if used > 0 || !writeopen then Done else if killed then Fail else Sleep
  }

  // --- the ring ---------------------------------------------------------------------------

  /** A count as the 32-bit field holds it. */
  ghost function Low32(k: nat): nat { k % U32 }

  /** The ring cell of the k-th byte. */
  ghost function Slot(k: nat): nat { k % PIPESIZE }

  lemma Low32Is(k: nat, q: nat, r: nat)
    requires k == U32 * q + r && r < U32
    ensures Low32(k) == r
  {}

  lemma Low32Add(k: nat, d: nat)
    requires d <= PIPESIZE
    ensures Low32(k) < U32
    ensures Low32(k + d) == if Low32(k) + d < U32 then Low32(k) + d else Low32(k) + d - U32
  {
    var q, r := k / U32, Low32(k);
    if r + d < U32 { Low32Is(k + d, q, r + d); } else { Low32Is(k + d, q + 1, r + d - U32); }
  }

  lemma SlotIs(k: nat, q: nat, r: nat)
    requires k == PIPESIZE * q + r && r < PIPESIZE
    ensures Slot(k) == r
  {}

  lemma SlotLow32(k: nat)
    ensures Low32(k) % PIPESIZE == Slot(k)
  {
    var q, m := k / U32, Low32(k) / PIPESIZE;
    SlotIs(k, q * (U32 / PIPESIZE) + m, Low32(k) % PIPESIZE);
  }

  lemma SlotsApart(k: nat, w: nat)
    requires k < w < k + PIPESIZE
    ensures Slot(k) != Slot(w)
  {
    var q, r, d := k / PIPESIZE, Slot(k), w - k;
    if r + d < PIPESIZE { SlotIs(w, q, r + d); } else { SlotIs(w, q + 1, r + d - PIPESIZE); }
  }

  /** Counters that are at most PIPESIZE apart are told apart modulo 2^32. */
  lemma CountersAgree(r: nat, w: nat)
    requires r <= w <= r + PIPESIZE
    ensures Low32(w) == Low32(r) <==> w == r
    ensures Low32(w) == (Low32(r) + PIPESIZE) % U32 <==> w == r + PIPESIZE
    ensures Low32(w + 1) == (Low32(w) + 1) % U32 && Low32(r + 1) == (Low32(r) + 1) % U32
    ensures Low32(r) % PIPESIZE == Slot(r) && Low32(w) % PIPESIZE == Slot(w)
  {
    hide Low32, Slot;
    Low32Add(r, w - r);
    Low32Add(r, 1);
    Low32Add(w, 1);
    SlotLow32(r);
    SlotLow32(w);
    Once(Low32(r), PIPESIZE);
    Once(Low32(r), 1);
    Once(Low32(w), 1);
  }

  lemma Once(x: nat, d: nat)
    requires x < U32 && d <= PIPESIZE
    ensures (x + d) % U32 == if x + d < U32 then x + d else x + d - U32
  {
  }

  lemma EmptyIff(r: nat, w: nat)
    requires r <= w <= r + PIPESIZE
    ensures Low32(w) == Low32(r) <==> w == r
  {
    CountersAgree(r, w);
  }

  class Pipe {
    const data: array<int>
    var nread: nat
    var nwrite: nat
    var readopen: bool
    var writeopen: bool
    var readers: set<nat>          // the processes asleep on &p->nread
    var writers: set<nat>          // and on &p->nwrite
    ghost var accepted: seq<int>   // every byte that a writer has put in
    ghost var returned: seq<int>   // every byte that a reader has taken out

    /** What has come out is a prefix of what went in, and the ring holds the rest. */
    ghost predicate Valid()
      reads this, data
    {
      && data.Length == PIPESIZE
      && returned <= accepted && |accepted| <= |returned| + PIPESIZE
      && nread == Low32(|returned|) && nwrite == Low32(|accepted|)
      && forall k | |returned| <= k < |accepted| :: data[Slot(k)] == accepted[k]
    }

    ghost function Used(): nat
      reads this
    {
      if |accepted| > |returned| then |accepted| - |returned| else 0
    }

    /** The pipe as the machine below sees it. */
    ghost function Now(): State
      requires |returned| <= |accepted|
      reads this
    {
      State(accepted[|returned|..], readopen, writeopen, readers, writers, accepted, returned)
    }

    constructor ()
      ensures Valid() && readopen && writeopen && accepted == [] && returned == [] && fresh(data)
      ensures Now() == START
    {
      data := new int[PIPESIZE];
      nread, nwrite, readopen, writeopen, readers, writers := 0, 0, true, true, {}, {};
      accepted, returned := [], [];
    }

    /** The comparison of the two counters that finds the pipe full. */
    method IsFull() returns (full: bool)
      requires Valid()
      ensures full <==> Used() == PIPESIZE
    {
      CountersAgree(|returned|, |accepted|);
      full := nwrite == (nread + PIPESIZE) % U32;
    }

    /** One byte out of the ring. */
    method Get() returns (x: int)
      requires Valid() && |returned| < |accepted|
      modifies this`nread, this`returned
      ensures Valid() && returned == old(returned) + [x]
    {
      hide Slot, Low32;
      CountersAgree(|returned|, |accepted|);
      x := data[nread % PIPESIZE];
      nread := (nread + 1) % U32;
      returned := returned + [x];
    }

    /** One byte into the ring. */
    method Put(x: int)
      requires Valid() && |accepted| < |returned| + PIPESIZE
      modifies this`nwrite, this`accepted, data
      ensures Valid() && accepted == old(accepted) + [x]
    {
      hide Slot, Low32;
      CountersAgree(|returned|, |accepted|);
      forall k | |returned| <= k < |accepted| ensures Slot(k) != Slot(|accepted|) { SlotsApart(k, |accepted|); }
      data[nwrite % PIPESIZE] := x;
      nwrite := (nwrite + 1) % U32;
      accepted := accepted + [x];
    }

    /**
      `pipewrite` by process p from byte i on, up to its end or its next sleep.  What fits goes in; the
      rest waits, unless nobody can read it or the process has been killed.
    */
    method WriteFrom(p: nat, addr: seq<int>, n: int, start: int, killed: bool) returns (i: int, r: Outcome)
      requires Valid() && 0 <= start && n <= |addr|
      modifies this`nwrite, this`accepted, this`readers, this`writers, data
      ensures Valid()
      ensures
        var left, room := if start < n then n - start else 0, PIPESIZE - old(Used());
        && i == start + (if left <= room then left else room)
        && r == (if left <= room then Done else if readopen && !killed then Sleep else Fail)
        && accepted == old(accepted) + if start < n then addr[start..i] else []
      ensures writeopen && p !in old(readers) && p !in old(writers) ==>
        var a := WriteOn(p, if start < n then addr[start..n] else [], killed);
        Enabled(old(Now()), a) && Now() == Step(old(Now()), a)
    {
      hide Step, Enabled, Slot, Low32;
      ghost var s, src := Now(), if start < n then addr[start..n] else [];
      i := start;
      while i < n
        invariant Valid() && start <= i <= start + |src| && accepted == old(accepted) + src[..i - start]
        invariant readers == old(readers) && writers == old(writers)
      {
        var full := IsFull();
        if full {
          assert src[..i - start] == addr[start..i];
          r := if !readopen || killed then Fail else Sleep;
          if writeopen && p !in readers && p !in writers { WriteIsStep(s, p, src, killed, i - start, r); }
          if r == Sleep {
            readers := {};
            writers := writers + {p};
          }
          return;
        }
        Put(addr[i]);
        assert src[..i - start + 1] == src[..i - start] + [addr[i]];
        i := i + 1;
      }
      assert src[..i - start] == src;
      if writeopen && p !in readers && p !in writers { WriteIsStep(s, p, src, killed, i - start, Done); }
      readers := {};
      r := Done;
    }

    /**
      `piperead` by process p from its start or last sleep, up to its end or its next sleep.  It sleeps, or
      fails if the process has been killed, exactly on an empty pipe whose write end is open; once that is
      closed an empty pipe gives no bytes.
    */
    method Read(p: nat, n: int, killed: bool) returns (out: seq<int>, r: Outcome)
      requires Valid()
      modifies this`nread, this`returned, this`readers, this`writers
      ensures Valid()
      ensures r == if old(Used()) > 0 || !writeopen then Done else if killed then Fail else Sleep
      ensures returned == old(returned) + out
      ensures |out| == if n <= 0 then 0 else if n < old(Used()) then n else old(Used())
      ensures readopen && p !in old(readers) && p !in old(writers) ==>
        var a := ReadOn(p, if n > 0 then n else 0, killed);
        Enabled(old(Now()), a) && Now() == Step(old(Now()), a)
    {
      hide Step, Enabled, Slot, Low32;
      ghost var s := Now();
      out := [];
      EmptyIff(|returned|, |accepted|);
      if nread == nwrite && writeopen {
        r := if killed then Fail else Sleep;
        assert returned + out == returned;
        if readopen && p !in readers && p !in writers { ReadIsStep(s, p, if n > 0 then n else 0, killed, [], r); }
        if r == Sleep {
          readers := readers + {p};
        }
        return;
      }
      var i := 0;
      while i < n
        invariant Valid() && 0 <= i == |out| && (n > 0 ==> i <= n) && (n <= 0 ==> i == 0)
        invariant returned == old(returned) + out && i <= old(Used())
        invariant readers == old(readers) && writers == old(writers)
      {
        EmptyIff(|returned|, |accepted|);
        if nread == nwrite { break; }
        var x := Get();
        out := out + [x];
        i := i + 1;
      }
      if readopen && p !in readers && p !in writers { ReadIsStep(s, p, if n > 0 then n else 0, killed, out, Done); }
      writers := {};
      r := Done;
    }

    /** `pipeclose`: one end closes, the other side is woken, and the pipe goes when both are closed. */
    method Close(writable: bool) returns (free: bool)
      requires Valid()
      modifies this`readopen, this`writeopen, this`readers, this`writers
      ensures Valid()
      ensures writeopen == (old(writeopen) && !writable) && readopen == (old(readopen) && writable)
      ensures free == (!readopen && !writeopen) && (if writable then readers == {} else writers == {})
      ensures Now() == Step(old(Now()), CloseEnd(writable))
    {
      if writable {
        writeopen, readers := false, {};
      } else {
        readopen, writers := false, {};
      }
      free := !readopen && !writeopen;
    }
  }

  /** What a stretch of pipewrite that copies k bytes does, in the machine's terms. */
  lemma WriteIsStep(s: State, p: nat, src: seq<int>, killed: bool, k: nat, r: Outcome)
    requires |s.returned| <= |s.accepted| <= |s.returned| + PIPESIZE && s.buf == s.accepted[|s.returned|..]
    requires s.writeopen && p !in s.readers && p !in s.writers && k <= |src|
    requires k == if |src| <= PIPESIZE - |s.buf| then |src| else PIPESIZE - |s.buf|
    requires r == if |src| <= PIPESIZE - |s.buf| then Done else if s.readopen && !killed then Sleep else Fail
    ensures Enabled(s, WriteOn(p, src, killed))
    ensures Step(s, WriteOn(p, src, killed)) ==
            State((s.accepted + src[..k])[|s.returned|..], s.readopen, s.writeopen,
                  if r.Fail? then s.readers else {}, if r.Sleep? then s.writers + {p} else s.writers,
                  s.accepted + src[..k], s.returned)
  {
    assert (s.accepted + src[..k])[|s.returned|..] == s.accepted[|s.returned|..] + src[..k];
  }

  lemma ReadIsStep(s: State, p: nat, n: nat, killed: bool, out: seq<int>, r: Outcome)
    requires |s.returned| <= |s.accepted| && s.buf == s.accepted[|s.returned|..] && s.returned + out <= s.accepted
    requires s.readopen && p !in s.readers && p !in s.writers
    requires r == if |s.buf| > 0 || !s.writeopen then Done else if killed then Fail else Sleep
    requires |out| == if n < |s.buf| then n else |s.buf|
    ensures Enabled(s, ReadOn(p, n, killed))
    ensures Step(s, ReadOn(p, n, killed)) ==
            State(s.accepted[|s.returned + out|..], s.readopen, s.writeopen,
                  if r.Sleep? then s.readers + {p} else s.readers, if r.Done? then {} else s.writers,
                  s.accepted, s.returned + out)
  {
    assert s.accepted[..|s.returned| + |out|] == s.returned + out;
    assert out == s.buf[..|out|] && s.accepted[|s.returned + out|..] == s.buf[|out|..];
  }

  // --- every interleaving -----------------------------------------------------------------

  datatype State = State(
    buf: seq<int>,
    readopen: bool,
    writeopen: bool,
    readers: set<nat>,       // asleep on &p->nread
    writers: set<nat>,       // asleep on &p->nwrite
    accepted: seq<int>,
    returned: seq<int>)

  const START := State([], true, true, {}, {}, [], [])

  datatype Action =
    | WriteOn(p: nat, src: seq<int>, killed: bool)    // pipewrite with these bytes still to go
    | ReadOn(p: nat, n: nat, killed: bool)
    | CloseEnd(writable: bool)
    | Disturb(p: nat)                                 // the process is woken for another reason

  predicate Enabled(s: State, a: Action) {
    match a
    case WriteOn(p, src, _) => p !in s.readers && p !in s.writers && s.writeopen && |s.buf| <= PIPESIZE
    case ReadOn(p, _, _) => p !in s.readers && p !in s.writers && s.readopen
    case _ => true
  }

  /** The bytes that went through, the state flags, and who is woken or falls asleep. */
  function Step(s: State, a: Action): State
    requires Enabled(s, a)
  {
    match a
    case WriteOn(p, src, killed) =>
      var now := src[..Copied(|s.buf|, |src|)];
      var s' := s.(buf := s.buf + now, accepted := s.accepted + now);
      (match WriteOutcome(|s.buf|, |src|, s.readopen, killed)
       case Done => s'.(readers := {})
       case Fail => s'
       case Sleep => s'.(readers := {}, writers := s.writers + {p}))
    case ReadOn(p, n, killed) =>
      (match ReadOutcome(|s.buf|, s.writeopen, killed)
       case Done =>
         var k := Min(n, |s.buf|);
         s.(buf := s.buf[k..], returned := s.returned + s.buf[..k], writers := {})
       case Fail => s
       case Sleep => s.(readers := s.readers + {p}))
    case CloseEnd(writable) =>
      if writable then s.(writeopen := false, readers := {}) else s.(readopen := false, writers := {})
    case Disturb(p) => s.(readers := s.readers - {p}, writers := s.writers - {p})
  }

  /** First in, first out, within the size of the ring. */
  ghost predicate Fifo(s: State) {
    |s.buf| <= PIPESIZE && s.accepted == s.returned + s.buf
  }

  ghost predicate WritersWaitForRoom(s: State) { s.writers != {} ==> |s.buf| == PIPESIZE && s.readopen }

  ghost predicate ReadersWaitForData(s: State) { s.readers != {} ==> s.buf == [] && s.writeopen }

  lemma Assoc(a: seq<int>, b: seq<int>, c: seq<int>)
    ensures (a + b) + c == a + (b + c)
  {}

  /** What every step keeps. */
  lemma StepKeepsFifo(s: State, a: Action)
    requires Fifo(s) && WritersWaitForRoom(s) && Enabled(s, a)
    ensures Fifo(Step(s, a)) && WritersWaitForRoom(Step(s, a))
  {
    match a
    case WriteOn(p, src, killed) =>
      Assoc(s.returned, s.buf, src[..Copied(|s.buf|, |src|)]);
    case ReadOn(p, n, killed) =>
      if ReadOutcome(|s.buf|, s.writeopen, killed).Done? {
        var k := Min(n, |s.buf|);
        Assoc(s.returned, s.buf[..k], s.buf[k..]);
        assert s.buf == s.buf[..k] + s.buf[k..];
      }
    case _ =>
  }

  /** A writer that gives up with part of its bytes in the pipe. */
  ghost predicate AbandonsReaders(s: State, a: Action)
    requires Enabled(s, a)
  {
    && a.WriteOn? && s.readers != {} && |a.src| > PIPESIZE && (a.killed || !s.readopen)
  }

  /**
    A reader asleep waits for data from a write end that is still open.  A step breaks this
    exactly when a writer that still has more bytes than fit gives up (it was killed, or the
    read end is closed) while a reader sleeps: it returns without waking anyone.
  */
  lemma StepKeepsReadersIff(s: State, a: Action)
    requires Fifo(s) && ReadersWaitForData(s) && Enabled(s, a)
    ensures ReadersWaitForData(Step(s, a)) <==> !AbandonsReaders(s, a)
  {
    if a.WriteOn? && s.readers != {} && WriteOutcome(|s.buf|, |a.src|, s.readopen, a.killed).Fail? {
      assert (s.buf + a.src[..PIPESIZE])[0] == a.src[0];
    }
  }

  ghost predicate IsRun(ss: seq<State>, acts: seq<Action>) {
    && |ss| == |acts| + 1 && ss[0] == START
    && forall i | 0 <= i < |acts| :: Enabled(ss[i], acts[i]) && ss[i + 1] == Step(ss[i], acts[i])
  }

  /** In every run, the bytes that readers got are a prefix of the bytes that writers put in. */
  lemma {:induction false} ReadsArePrefix(ss: seq<State>, acts: seq<Action>, i: nat)
    requires IsRun(ss, acts) && i < |ss|
    ensures Fifo(ss[i]) && WritersWaitForRoom(ss[i]) && ss[i].returned <= ss[i].accepted
  {
    if i > 0 {
      ReadsArePrefix(ss, acts, i - 1);
      StepKeepsFifo(ss[i - 1], acts[i - 1]);
    }
  }

  /**
    In every run in which no writer gives up that way, no reader sleeps while there is data or the write end is
    closed.
  */
  lemma {:induction false} NoReaderForgotten(ss: seq<State>, acts: seq<Action>, i: nat)
    requires IsRun(ss, acts) && i < |ss|
    requires forall k | 0 <= k < |acts| :: !AbandonsReaders(ss[k], acts[k])
    ensures ReadersWaitForData(ss[i])
  {
    if i > 0 {
      NoReaderForgotten(ss, acts, i - 1);
      ReadsArePrefix(ss, acts, i - 1);
      StepKeepsReadersIff(ss[i - 1], acts[i - 1]);
    }
  }

  /** A process that is woken for another reason, as by kill, is awake; nothing else changes. */
  lemma DisturbWakes(s: State, p: nat)
    ensures Enabled(s, Disturb(p))
    ensures var r := Step(s, Disturb(p));
            && r == s.(readers := r.readers, writers := r.writers) && p !in r.readers && p !in r.writers
            && forall q | q != p :: (q in r.readers <==> q in s.readers) && (q in r.writers <==> q in s.writers)
  {
  }

  /** A run that forgets a reader: it sleeps on an empty pipe, then a writer of 513 bytes is killed. */
  lemma KilledWriterForgetsReader(src: seq<int>)
    requires |src| == PIPESIZE + 1
    ensures var s1 := Step(START, ReadOn(1, 1, false));
            Enabled(s1, WriteOn(2, src, true)) && !ReadersWaitForData(Step(s1, WriteOn(2, src, true)))
  {
    var s1 := Step(START, ReadOn(1, 1, false));
    assert s1.readers == {1};
    StepKeepsReadersIff(s1, WriteOn(2, src, true));
  }
}
