/**
  The buffer cache of bio.c: a fixed set of buffers on a circular doubly linked list in
  most-recently-used order, in front of a disk.

  The kernel has one device, so a buffer's tag is just its block number; `Unused` is the
  zero tag that `binit` leaves behind.  The list is kept as `next` and `prev` links between
  buffer numbers, with the number of buffers standing for `bcache.head`.
*/
module BufferCache {
  import opened Options
  import opened LogDisk

  datatype Tag = Unused | Tag(blockno: nat)

  datatype Buf = Buf(tag: Tag, valid: bool, dirty: bool, refcnt: nat, data: Block)

  // --- the list -------------------------------------------------------------------------

  /** The k-th buffer of the list; positions before the first and after the last are the head. */
  ghost function At(order: seq<nat>, head: nat, k: int): nat {
    if 0 <= k < |order| then order[k] else head
  }

  ghost predicate NoRepeat(order: seq<nat>) {
    forall i, j | 0 <= i < j < |order| :: order[i] != order[j]
  }

  ghost predicate Linked(next: seq<nat>, prev: seq<nat>, order: seq<nat>, head: nat) {
    && |next| == |prev| == head + 1
    && (forall k | 0 <= k < |order| :: order[k] < head)
    && NoRepeat(order)
    && (forall k | -1 <= k < |order| :: next[At(order, head, k)] == At(order, head, k + 1))
    && (forall k | 0 <= k <= |order| :: prev[At(order, head, k)] == At(order, head, k - 1))
  }

  /** The list without its k-th buffer. */
  ghost function Without(order: seq<nat>, k: nat): seq<nat>
    requires k < |order|
  {
    order[..k] + order[k + 1..]
  }

  /** Two link updates take a buffer off the list. */
  lemma UnlinkCorrect(next: seq<nat>, prev: seq<nat>, order: seq<nat>, head: nat, k: nat)
    requires Linked(next, prev, order, head) && k < |order|
    ensures var b := order[k];
            next[b] <= head && prev[b] <= head
            && Linked(next[prev[b] := next[b]], prev[next[b] := prev[b]], Without(order, k), head)
  {
    var b, o := order[k], Without(order, k);
    var before, after := At(order, head, k - 1), At(order, head, k + 1);
    assert prev[At(order, head, k)] == before && next[At(order, head, k)] == after;
    var next', prev' := next[before := after], prev[after := before];
    forall j | -1 <= j < |o| ensures next'[At(o, head, j)] == At(o, head, j + 1) {
      if j < k - 1 {
        assert next[At(order, head, j)] == At(order, head, j + 1);
      } else if j >= k {
        assert next[At(order, head, j + 1)] == At(order, head, j + 2);
      }
    }
    forall j | 0 <= j <= |o| ensures prev'[At(o, head, j)] == At(o, head, j - 1) {
      if j < k {
        assert prev[At(order, head, j)] == At(order, head, j - 1);
      } else if j > k {
        assert prev[At(order, head, j + 1)] == At(order, head, j);
      }
    }
  }

  /** Four link updates put a buffer at the front of the list. */
  lemma PushCorrect(next: seq<nat>, prev: seq<nat>, order: seq<nat>, head: nat, b: nat)
    requires Linked(next, prev, order, head) && b < head && b !in order
    ensures var first := next[head];
            first <= head
            && Linked(next[b := first][head := b], prev[b := head][first := b], [b] + order, head)
  {
    var o := [b] + order;
    assert next[At(order, head, -1)] == At(order, head, 0);
    var first := next[head];
    var next', prev' := next[b := first][head := b], prev[b := head][first := b];
    forall j | -1 <= j < |o| ensures next'[At(o, head, j)] == At(o, head, j + 1) {
      if j >= 1 { assert next[At(order, head, j - 1)] == At(order, head, j); }
    }
    forall j | 0 <= j <= |o| ensures prev'[At(o, head, j)] == At(o, head, j - 1) {
      if j >= 2 { assert prev[At(order, head, j - 1)] == At(order, head, j - 2); }
    }
  }

  // --- the contents ---------------------------------------------------------------------

  ghost predicate Busy(b: Buf) { b.refcnt > 0 || b.dirty }

  ghost predicate Alike(a: Buf, b: Buf) { a.tag.Tag? && a.tag == b.tag }

  /** A block has at most one buffer. */
  ghost predicate Unique(bufs: seq<Buf>) {
    forall i, j {:trigger Alike(bufs[i], bufs[j])} | 0 <= i < j < |bufs| :: !Alike(bufs[i], bufs[j])
  }

  lemma SameBuf(bufs: seq<Buf>, i: nat, j: nat)
    requires Unique(bufs) && i < |bufs| && j < |bufs| && bufs[i].tag.Tag? && bufs[i].tag == bufs[j].tag
    ensures i == j
  {
    assert Alike(bufs[i], bufs[j]) && Alike(bufs[j], bufs[i]);
  }

  lemma UniqueUpdate(bufs: seq<Buf>, i: nat, nb: Buf)
    requires Unique(bufs) && i < |bufs|
    requires nb.tag == bufs[i].tag || forall j | 0 <= j < |bufs| :: bufs[j].tag != nb.tag
    ensures Unique(bufs[i := nb])
  {
    var bufs' := bufs[i := nb];
    forall a, b | 0 <= a < b < |bufs'| ensures !Alike(bufs'[a], bufs'[b]) {
      assert !Alike(bufs[a], bufs[b]);
    }
  }

  /**
    What every operation keeps: a block has at most one buffer, a dirty buffer holds data,
    and a buffer that may be recycled agrees with the disk.
  */
  ghost predicate Coherent(bufs: seq<Buf>, blocks: Disk) {
    && Unique(bufs)
    && (forall i | 0 <= i < |bufs| :: WellFormed(bufs[i], blocks))
    && (forall b | 0 <= b < |blocks| :: |blocks[b]| == BLOCK_WORDS)
  }

  ghost predicate WellFormed(b: Buf, blocks: Disk) {
    && (b.tag.Tag? ==> b.tag.blockno < |blocks|)
    && (b.dirty ==> b.valid)
    && (b.valid ==> b.tag.Tag? && |b.data| == BLOCK_WORDS && (Busy(b) || b.data == blocks[b.tag.blockno]))
  }

  lemma CoherentUpdate(bufs: seq<Buf>, blocks: Disk, i: nat, nb: Buf)
    requires Coherent(bufs, blocks) && i < |bufs| && WellFormed(nb, blocks)
    requires nb.tag == bufs[i].tag || forall j | 0 <= j < |bufs| :: bufs[j].tag != nb.tag
    ensures Coherent(bufs[i := nb], blocks)
  {
    UniqueUpdate(bufs, i, nb);
  }

  lemma CoherentWrite(bufs: seq<Buf>, blocks: Disk, i: nat)
    requires Coherent(bufs, blocks) && i < |bufs| && bufs[i].valid
    ensures Coherent(bufs[i := bufs[i].(dirty := false)], blocks[bufs[i].tag.blockno := bufs[i].data])
  {
    var bufs', blocks' := bufs[i := bufs[i].(dirty := false)], blocks[bufs[i].tag.blockno := bufs[i].data];
    UniqueUpdate(bufs, i, bufs'[i]);
    forall j | 0 <= j < |bufs| ensures WellFormed(bufs'[j], blocks') {
      if j != i && bufs[j].valid && bufs[j].tag == bufs[i].tag { SameBuf(bufs, i, j); }
    }
  }

  ghost predicate Holds(b: Buf, blockno: nat) { b.valid && b.tag == Tag(blockno) }

  /** The block map that the cache presents: cached contents where there are any, the disk elsewhere. */
  ghost function View(bufs: seq<Buf>, blocks: Disk, blockno: nat): Block
    requires blockno < |blocks|
  {
    if exists i :: 0 <= i < |bufs| && Holds(bufs[i], blockno) then
      var i :| 0 <= i < |bufs| && Holds(bufs[i], blockno);
      bufs[i].data
    else blocks[blockno]
  }

  lemma ViewCached(bufs: seq<Buf>, blocks: Disk, i: nat)
    requires Coherent(bufs, blocks) && i < |bufs| && bufs[i].valid
    ensures View(bufs, blocks, bufs[i].tag.blockno) == bufs[i].data
  {
    var b := bufs[i].tag.blockno;
    assert Holds(bufs[i], b);
    forall j: nat | j < |bufs| && Holds(bufs[j], b) ensures j == i { SameBuf(bufs, i, j); }
  }

  lemma ViewUncached(bufs: seq<Buf>, blocks: Disk, i: nat, b: nat)
    requires Coherent(bufs, blocks) && i < |bufs| && b < |blocks| && bufs[i].tag == Tag(b) && !bufs[i].valid
    ensures View(bufs, blocks, b) == blocks[b]
  {
    forall j: nat | j < |bufs| && Holds(bufs[j], b) ensures false { SameBuf(bufs, i, j); }
  }

  /** Giving a recyclable buffer to another block, or changing only its counters, changes no contents. */
  lemma ViewSame(bufs: seq<Buf>, blocks: Disk, i: nat, nb: Buf)
    requires i < |bufs| && Coherent(bufs, blocks) && Coherent(bufs[i := nb], blocks)
    requires nb.tag == bufs[i].tag || !Busy(bufs[i])
    requires nb.valid ==> nb.tag.Tag? && nb.tag.blockno < |blocks| && nb.data == View(bufs, blocks, nb.tag.blockno)
    requires bufs[i].valid && !nb.valid ==> !Busy(bufs[i])
    ensures forall b: nat | b < |blocks| :: View(bufs[i := nb], blocks, b) == View(bufs, blocks, b)
  {
    forall b: nat | b < |blocks| ensures View(bufs[i := nb], blocks, b) == View(bufs, blocks, b) {
      var bufs' := bufs[i := nb];
      if j :| 0 <= j < |bufs'| && Holds(bufs'[j], b) {
        ViewCached(bufs', blocks, j);
        if j != i { ViewCached(bufs, blocks, j); }
      } else if j :| 0 <= j < |bufs| && Holds(bufs[j], b) {
        ViewCached(bufs, blocks, j);
        assert j == i by { assert !Holds(bufs'[j], b); }
        assert !Holds(bufs'[i], b) && !Busy(bufs[i]);
      }
    }
  }

  /** The disk, and the writes made to it so far.  Requests are served one at a time. */
  class Device {
    var blocks: Disk
    ghost var writes: seq<Write>

    constructor (image: Disk)
      ensures blocks == image && writes == []
    {
      blocks, writes := image, [];
    }
  }

  class Cache {
    const dev: Device
    var bufs: seq<Buf>
    var next: seq<nat>
    var prev: seq<nat>
    ghost var order: seq<nat>  // the buffers from most to least recently used

    ghost predicate Valid()
      reads this, dev
    {
      && Linked(next, prev, order, |bufs|)
      && (forall i | 0 <= i < |bufs| :: i in order)
      && Coherent(bufs, dev.blocks)
    }

    ghost function Contents(b: nat): Block
      reads this, dev
      requires b < |dev.blocks|
    {
      View(bufs, dev.blocks, b)
    }

    /** `binit`: each buffer in turn goes to the front. */
    constructor (n: nat, dev: Device, zero: Block)
      requires forall b | 0 <= b < |dev.blocks| :: |dev.blocks[b]| == BLOCK_WORDS
      ensures Valid() && this.dev == dev && |bufs| == n
      ensures forall i | 0 <= i < n :: bufs[i] == Buf(Unused, false, false, 0, zero)
      ensures forall b: nat | b < |dev.blocks| :: Contents(b) == dev.blocks[b]
    {
      this.dev := dev;
      bufs := seq(n, i => Buf(Unused, false, false, 0, zero));
      next, prev, order := seq(n + 1, i => n), seq(n + 1, i => n), [];
      new;
      var b := 0;
      while b < n
        invariant 0 <= b <= n && |bufs| == n
        invariant Linked(next, prev, order, n)
        invariant forall i | 0 <= i < b :: i in order
        invariant forall i | i in order :: i < b
        invariant forall i | 0 <= i < n :: bufs[i] == Buf(Unused, false, false, 0, zero)
      {
        PushCorrect(next, prev, order, n, b);
        var first := next[n];
        next, prev := next[b := first], prev[b := n];
        next, prev := next[n := b], prev[first := b];
        order := [b] + order;
        b := b + 1;
      }
    }

    /**
      `bget`: the buffer that already holds the block, else the least recently used buffer
      that nobody holds and that the log has not pinned; None is the "no buffers" panic.
    */
    method Get(blockno: nat) returns (r: Option<nat>)
      requires Valid()
      modifies this`bufs
      ensures r.None? ==>
                && bufs == old(bufs)
                && forall i | 0 <= i < |bufs| :: bufs[i].tag != Tag(blockno) && Busy(bufs[i])
      ensures r.Some? ==>
                && r.value < |old(bufs)| == |bufs|
                && bufs == old(bufs)[r.value := bufs[r.value]]
      ensures r.Some? && old(bufs)[r.value].tag == Tag(blockno) ==>
              bufs[r.value] == old(bufs)[r.value].(refcnt := old(bufs)[r.value].refcnt + 1)
      ensures r.Some? && old(bufs)[r.value].tag != Tag(blockno) ==>
              && bufs[r.value] == Buf(Tag(blockno), false, false, 1, old(bufs)[r.value].data)
              && !Busy(old(bufs)[r.value])
              && (forall i | 0 <= i < |bufs| :: old(bufs)[i].tag != Tag(blockno))
              && exists k :: 0 <= k < |order| && order[k] == r.value
                   && forall j | k < j < |order| :: Busy(old(bufs)[order[j]])
    {
      var head := |bufs|;
      var b := next[head];
      ghost var k := 0;
      assert next[At(order, head, -1)] == At(order, head, 0);
      while b != head
        invariant 0 <= k <= |order| && b == At(order, head, k)
        invariant forall j | 0 <= j < k :: bufs[order[j]].tag != Tag(blockno)
        decreases |order| - k
      {
        if bufs[b].tag == Tag(blockno) {
          bufs := bufs[b := bufs[b].(refcnt := bufs[b].refcnt + 1)];
          return Some(b);
        }
        assert next[At(order, head, k)] == At(order, head, k + 1);
        b, k := next[b], k + 1;
      }
      forall i | 0 <= i < |bufs| ensures bufs[i].tag != Tag(blockno) { assert i in order; }

      b, k := prev[head], |order| - 1;
      assert prev[At(order, head, |order|)] == At(order, head, |order| - 1);
      while b != head
        invariant -1 <= k < |order| && b == At(order, head, k)
        invariant forall j | k < j < |order| :: Busy(bufs[order[j]])
        decreases k
      {
        if bufs[b].refcnt == 0 && !bufs[b].dirty {
          bufs := bufs[b := Buf(Tag(blockno), false, false, 1, bufs[b].data)];
          assert order[k] == b;
          return Some(b);
        }
        assert prev[At(order, head, k)] == At(order, head, k - 1);
        b, k := prev[b], k - 1;
      }
      forall i | 0 <= i < |bufs| ensures Busy(bufs[i]) { assert i in order; }
      return None;
    }

    /** `bread`: a held buffer with the block's current contents; no block's contents change. */
    method Read(blockno: nat) returns (r: Option<nat>)
      requires Valid() && blockno < |dev.blocks|
      modifies this`bufs
      ensures Valid()
      ensures r.None? ==>
                && bufs == old(bufs)
                && forall i | 0 <= i < |bufs| :: bufs[i].tag != Tag(blockno) && Busy(bufs[i])
      ensures r.Some? ==>
              && r.value < |old(bufs)| == |bufs| && bufs == old(bufs)[r.value := bufs[r.value]]
              && Holds(bufs[r.value], blockno) && bufs[r.value].data == old(Contents(blockno))
              && var was := old(bufs)[r.value];
                 if was.tag == Tag(blockno)
                 then bufs[r.value].dirty == was.dirty && bufs[r.value].refcnt == was.refcnt + 1
                 else !Busy(was) && !bufs[r.value].dirty && bufs[r.value].refcnt == 1
      ensures forall b: nat | b < |dev.blocks| :: Contents(b) == old(Contents(b))
    {
      r := Get(blockno);
      if r.None? { return; }
      var i := r.value;
      if !bufs[i].valid {
        bufs := bufs[i := bufs[i].(valid := true, data := dev.blocks[blockno])];
      }
      assert bufs == old(bufs)[i := bufs[i]];
      CoherentUpdate(old(bufs), dev.blocks, i, bufs[i]);
      if Holds(old(bufs)[i], blockno) {
        ViewCached(old(bufs), dev.blocks, i);
      } else if old(bufs)[i].tag == Tag(blockno) {
        ViewUncached(old(bufs), dev.blocks, i, blockno);
      }
      ViewSame(old(bufs), dev.blocks, i, bufs[i]);
    }

    /** A holder changes the data in place. */
    method Modify(i: nat, data: Block)
      requires Valid() && i < |bufs| && bufs[i].valid && bufs[i].refcnt > 0 && |data| == BLOCK_WORDS
      modifies this`bufs
      ensures Valid() && bufs == old(bufs)[i := old(bufs)[i].(data := data)]
      ensures forall b: nat | b < |dev.blocks| ::
                Contents(b) == if b == bufs[i].tag.blockno then data else old(Contents(b))
    {
      hide View;
      ghost var before := bufs;
      CoherentUpdate(bufs, dev.blocks, i, bufs[i].(data := data));
      bufs := bufs[i := bufs[i].(data := data)];
      assert bufs == before[i := bufs[i]];
      ChangedView(before, dev.blocks, dev.blocks, i, bufs[i]);
      forall b: nat | b < |dev.blocks|
        ensures Contents(b) == if b == bufs[i].tag.blockno then data else old(Contents(b))
      {
        assert Contents(b) == View(before[i := bufs[i]], dev.blocks, b);
        assert old(Contents(b)) == View(before, dev.blocks, b);
      }
    }

    /** `bwrite`: the held buffer goes to the disk and is clean. */
    method Write(i: nat)
      requires Valid() && i < |bufs| && bufs[i].valid && bufs[i].refcnt > 0
      modifies this`bufs, dev
      ensures Valid() && bufs == old(bufs)[i := old(bufs)[i].(dirty := false)]
      ensures dev.blocks == old(dev.blocks)[bufs[i].tag.blockno := bufs[i].data]
      ensures dev.writes == old(dev.writes) + [LogDisk.Write(bufs[i].tag.blockno, bufs[i].data)]
      ensures forall b: nat | b < |dev.blocks| :: Contents(b) == old(Contents(b))
    {
      var b := bufs[i].tag.blockno;
      CoherentWrite(bufs, dev.blocks, i);
      dev.blocks := dev.blocks[b := bufs[i].data];
      dev.writes := dev.writes + [LogDisk.Write(b, bufs[i].data)];
      bufs := bufs[i := bufs[i].(dirty := false)];
      ViewCached(old(bufs), old(dev.blocks), i);
      ChangedView(old(bufs), old(dev.blocks), dev.blocks, i, bufs[i]);
    }

    /** The log pins a held buffer (the flag that `log_write` sets). */
    method Pin(i: nat)
      requires Valid() && i < |bufs| && bufs[i].valid && bufs[i].refcnt > 0
      modifies this`bufs
      ensures Valid() && bufs == old(bufs)[i := old(bufs)[i].(dirty := true)]
      ensures forall b: nat | b < |dev.blocks| :: Contents(b) == old(Contents(b))
    {
      CoherentUpdate(bufs, dev.blocks, i, bufs[i].(dirty := true));
      bufs := bufs[i := bufs[i].(dirty := true)];
      ViewCached(old(bufs), dev.blocks, i);
      ViewSame(old(bufs), dev.blocks, i, bufs[i]);
    }

    /**
      `brelse`.  A holder that changed the data must have written or pinned the buffer first.
      The last release moves the buffer to the front of the list.
    */
    method Release(i: nat)
      requires Valid() && i < |bufs| && bufs[i].refcnt > 0
      requires bufs[i].refcnt == 1 && !bufs[i].dirty && bufs[i].valid ==>
               bufs[i].data == dev.blocks[bufs[i].tag.blockno]
      modifies this
      ensures Valid() && bufs == old(bufs)[i := old(bufs)[i].(refcnt := old(bufs)[i].refcnt - 1)]
      ensures if bufs[i].refcnt > 0 then order == old(order)
              else exists k: nat :: k < |old(order)| && old(order)[k] == i && order == [i] + Without(old(order), k)
      ensures forall b: nat | b < |dev.blocks| :: Contents(b) == old(Contents(b))
    {
      CoherentUpdate(bufs, dev.blocks, i, bufs[i].(refcnt := bufs[i].refcnt - 1));
      bufs := bufs[i := bufs[i].(refcnt := bufs[i].refcnt - 1)];
      if bufs[i].valid { ViewCached(old(bufs), dev.blocks, i); }
      ViewSame(old(bufs), dev.blocks, i, bufs[i]);
      if bufs[i].refcnt == 0 {
        MoveToFront(i);
      }
    }

    method MoveToFront(i: nat)
      requires Linked(next, prev, order, |bufs|) && i < |bufs| && i in order
      modifies this`next, this`prev, this`order
      ensures Linked(next, prev, order, |bufs|)
      ensures exists k: nat :: k < |old(order)| && old(order)[k] == i && order == [i] + Without(old(order), k)
      ensures forall j :: j in order <==> j in old(order)
    {
      var head := |bufs|;
      ghost var k: nat :| k < |order| && order[k] == i;
      ghost var rest := Without(order, k);
      assert order == order[..k] + [i] + order[k + 1..];
      UnlinkCorrect(next, prev, order, head, k);
      var after, before := next[i], prev[i];
      prev := prev[after := before];
      next := next[before := after];
      PushCorrect(next, prev, rest, head, i);
      var first := next[head];
      next, prev := next[i := first], prev[i := head];
      prev, next := prev[first := i], next[head := i];
      order := [i] + rest;
    }
  }

  /** Changing the buffer of one block, and perhaps that block on disk, changes no other block's contents. */
  lemma ChangedView(bufs: seq<Buf>, blocks: Disk, blocks': Disk, i: nat, nb: Buf)
    requires i < |bufs| && Coherent(bufs, blocks) && Coherent(bufs[i := nb], blocks')
    requires bufs[i].valid && nb.valid && nb.tag == bufs[i].tag && |blocks'| == |blocks|
    requires forall b | 0 <= b < |blocks| && b != nb.tag.blockno :: blocks'[b] == blocks[b]
    ensures forall b: nat | b < |blocks| :: View(bufs[i := nb], blocks', b) ==
              if b == nb.tag.blockno then nb.data else View(bufs, blocks, b)
  {
    forall b: nat | b < |blocks|
      ensures View(bufs[i := nb], blocks', b) == if b == nb.tag.blockno then nb.data else View(bufs, blocks, b)
    {
      var bufs' := bufs[i := nb];
      ViewCached(bufs', blocks', i);
      if j :| 0 <= j < |bufs| && Holds(bufs[j], b) {
        ViewCached(bufs, blocks, j);
        if j != i { ViewCached(bufs', blocks', j); }
      } else {
        assert b != nb.tag.blockno;
      }
    }
  }
}
