/**
  fork, exit, wait and kill of proc.c: the process table as a tree with `init` at its root.

  First the loops that run under ptable.lock, on the table itself; then every interleaving of
  the system calls, where fork is several steps because it drops the lock.
*/
module ProcTree {
  import opened Options

  datatype ProcState = Unused | Embryo | Sleeping | Runnable | Running | Zombie

  /** What a process sleeps on: a slot of the table (as `wait` does), or anything else. */
  datatype Chan = OnProc(slot: nat) | OnOther(id: nat)

  datatype Proc = Proc(state: ProcState, pid: nat, parent: Option<nat>, chan: Chan, killed: bool)

  type Table = seq<Proc>

  // --- what the loops compute -------------------------------------------------------------

  /** `wakeup1`. */
  function Woken(p: Proc, chan: Chan): Proc {
    if p.state.Sleeping? && p.chan == chan then p.(state := Runnable) else p
  }

  function Wakeup(t: Table, chan: Chan): (r: Table)
    ensures |r| == |t| && forall i | 0 <= i < |t| :: r[i] == Woken(t[i], chan)
  {
    seq(|t|, i requires 0 <= i < |t| => Woken(t[i], chan))
  }

  predicate IsZombieChild(p: Proc, cur: nat) { p.parent == Some(cur) && p.state.Zombie? }

  /** One of the first n slots is a zombie child of `cur`. */
  predicate ZombieBefore(t: Table, cur: nat, n: nat) {
    exists i :: 0 <= i < n && i < |t| && IsZombieChild(t[i], cur)
  }

  /** After n turns of the loop in `exit`: children go to init, which is woken if one of them is a zombie. */
  function Reparent(t: Table, cur: nat, init: nat, n: nat): (r: Table)
    ensures |r| == |t|
    ensures forall i | 0 <= i < |t| :: r[i] ==
              var p := if i < n && t[i].parent == Some(cur) then t[i].(parent := Some(init)) else t[i];
              if ZombieBefore(t, cur, n) then Woken(p, OnProc(init)) else p
  {
    var moved := seq(|t|, i requires 0 <= i < |t| =>
                            if i < n && t[i].parent == Some(cur) then t[i].(parent := Some(init)) else t[i]);
    if ZombieBefore(t, cur, n) then Wakeup(moved, OnProc(init)) else moved
  }

  /** The locked part of `exit`. */
  function ExitTable(t: Table, cur: nat, init: nat): (r: Table)
    requires cur < |t|
    ensures |r| == |t|
  {
    var t1 := if t[cur].parent.Some? then Wakeup(t, OnProc(t[cur].parent.value)) else t;
    var t2 := Reparent(t1, cur, init, |t|);
    t2[cur := t2[cur].(state := Zombie)]
  }

  /** Asleep in wait on the process that exits, or as init with a zombie handed over. */
  ghost predicate WokenByExit(t: Table, cur: nat, init: nat, i: nat)
    requires cur < |t| && i < |t|
  {
    && t[i].state == Sleeping
    && ((t[cur].parent.Some? && t[i].chan == OnProc(t[cur].parent.value))
        || (t[i].chan == OnProc(init) && exists z :: 0 <= z < |t| && t[z].parent == Some(cur) && t[z].state == Zombie))
  }

  const FREE := Proc(Unused, 0, None, OnOther(0), false)

  /** What one scan of `wait` finds. */
  datatype Scan = FoundZombie(slot: nat) | NoKids | OnlyLiving

  ghost predicate IsScan(t: Table, cur: nat, r: Scan) {
    match r
    case FoundZombie(i) => i < |t| && IsZombieChild(t[i], cur) && forall j | 0 <= j < i :: !IsZombieChild(t[j], cur)
    case NoKids => forall j | 0 <= j < |t| :: t[j].parent != Some(cur)
    case OnlyLiving =>
      && (forall j | 0 <= j < |t| :: !IsZombieChild(t[j], cur))
      && exists j :: 0 <= j < |t| && t[j].parent == Some(cur)
  }

  class ProcTable {
    const procs: array<Proc>

    constructor (n: nat)
      ensures procs.Length == n && fresh(procs) && forall i | 0 <= i < n :: procs[i] == FREE
    {
      procs := new Proc[n](_ => FREE);
    }

    method WakeupLoop(chan: Chan)
      modifies procs
      ensures procs[..] == Wakeup(old(procs[..]), chan)
      ensures forall i | 0 <= i < procs.Length ::
        procs[i] == if old(procs[i]).state == Sleeping && old(procs[i]).chan == chan
                    then old(procs[i]).(state := Runnable) else old(procs[i])
    {
      var i := 0;
      while i < procs.Length
        invariant 0 <= i <= procs.Length
        invariant forall j | 0 <= j < procs.Length ::
                    procs[j] == if j < i then Woken(old(procs[j]), chan) else old(procs[j])
      {
        if procs[i].state.Sleeping? && procs[i].chan == chan {
          procs[i] := procs[i].(state := Runnable);
        }
        i := i + 1;
      }
    }

    /** The locked part of `exit`, as it is written. */
    method Exit(cur: nat, init: nat)
      requires cur < procs.Length && procs[cur].state.Running?
      modifies procs
      ensures procs[..] == ExitTable(old(procs[..]), cur, init)
      ensures forall i | 0 <= i < procs.Length ::
        && procs[i] == old(procs[i]).(state := procs[i].state, parent := procs[i].parent)
        && procs[i].parent == (if old(procs[i]).parent == Some(cur) then Some(init) else old(procs[i]).parent)
        && procs[i].state == (if i == cur then Zombie else if WokenByExit(old(procs[..]), cur, init, i) then Runnable
                              else old(procs[i]).state)
    {
      if procs[cur].parent.Some? {
        WakeupLoop(OnProc(procs[cur].parent.value));
      }
      ghost var t1 := procs[..];
      var i := 0;
      while i < procs.Length
        invariant 0 <= i <= procs.Length && |t1| == procs.Length
        invariant procs[..] == Reparent(t1, cur, init, i)
      {
        ReparentStep(t1, cur, init, i);
        if procs[i].parent == Some(cur) {
          procs[i] := procs[i].(parent := Some(init));
          if procs[i].state.Zombie? {
            WakeupLoop(OnProc(init));
          }
        }
        i := i + 1;
      }
      procs[cur] := procs[cur].(state := Zombie);
      ExitMeans(old(procs[..]), cur, init);
    }

    /** One scan of `wait`. */
    method ScanChildren(cur: nat) returns (r: Scan)
      ensures IsScan(procs[..], cur, r)
    {
      var havekids := false;
      var i := 0;
      while i < procs.Length
        invariant 0 <= i <= procs.Length
        invariant forall j | 0 <= j < i :: !IsZombieChild(procs[j], cur)
        invariant havekids <==> exists j :: 0 <= j < i && procs[..][j].parent == Some(cur)
      {
        if procs[i].parent == Some(cur) {
          havekids := true;
          assert procs[..][i].parent == Some(cur);
          if procs[i].state.Zombie? { return FoundZombie(i); }
        }
        i := i + 1;
      }
      r := if havekids then OnlyLiving else NoKids;
    }
  }

  lemma ExitMeans(t: Table, cur: nat, init: nat)
    requires cur < |t|
    ensures forall i | 0 <= i < |t| ::
      var p := ExitTable(t, cur, init)[i];
      && p == t[i].(state := p.state, parent := p.parent)
      && p.parent == (if t[i].parent == Some(cur) then Some(init) else t[i].parent)
      && p.state == (if i == cur then Zombie else if WokenByExit(t, cur, init, i) then Runnable else t[i].state)
  {
    var t1 := if t[cur].parent.Some? then Wakeup(t, OnProc(t[cur].parent.value)) else t;
    if z :| 0 <= z < |t| && t[z].parent == Some(cur) && t[z].state == Zombie {
      assert IsZombieChild(t1[z], cur);
    }
    if z :| 0 <= z < |t| && IsZombieChild(t1[z], cur) {
      assert t[z].parent == Some(cur) && t[z].state == Zombie;
    }
  }

  lemma ReparentStep(t: Table, cur: nat, init: nat, i: nat)
    requires i < |t|
    ensures var r := Reparent(t, cur, init, i);
            var moved := r[i := r[i].(parent := Some(init))];
            Reparent(t, cur, init, i + 1) ==
              if r[i].parent != Some(cur) then r
              else if r[i].state.Zombie? then Wakeup(moved, OnProc(init)) else moved
  {
    assert ZombieBefore(t, cur, i + 1) <==> ZombieBefore(t, cur, i) || IsZombieChild(t[i], cur);
  }
}
