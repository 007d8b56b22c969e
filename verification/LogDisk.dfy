/**
  The on-disk redo log of log.c: its format, and the single-block writes that `commit` and
  `recover_from_log` issue, in order.
*/
module LogDisk {
  import opened Params

  /** A disk block as 32-bit words; a header block is a `struct logheader` laid over one. */
  type Block = seq<nat>
  type Disk = seq<Block>

  const BLOCK_WORDS := 128

  datatype Write = Write(blockno: nat, data: Block)

  /** Where the log lives: the header at `start` and `size - 1` log blocks after it. */
  datatype Layout = Layout(start: nat, size: nat)

  /** One group commit: the home blocks that the header lists, and their new contents. */
  datatype Txn = Txn(blocks: seq<nat>, data: seq<Block>)

  ghost predicate IsDisk(l: Layout, d: Disk) {
    && 1 <= l.size && l.start + l.size <= |d|
    && forall b | 0 <= b < |d| :: |d[b]| == BLOCK_WORDS
  }

  ghost predicate IsHome(l: Layout, nblocks: nat, b: nat) {
    b < nblocks && !(l.start <= b < l.start + l.size)
  }

  ghost predicate Apart(s: seq<nat>, i: nat, j: nat)
    requires i < |s| && j < |s|
  {
    s[i] != s[j]
  }

  ghost predicate Distinct(s: seq<nat>) {
    forall i: nat, j: nat {:trigger Apart(s, i, j)} | i < j < |s| :: Apart(s, i, j)
  }

  /** What a header may list: distinct home blocks, no more than the log can hold. */
  ghost predicate IsHeader(l: Layout, nblocks: nat, s: seq<nat>) {
    && |s| <= LOGSIZE && |s| < l.size
    && Distinct(s)
    && forall i | 0 <= i < |s| :: IsHome(l, nblocks, s[i])
  }

  ghost predicate IsTxn(l: Layout, nblocks: nat, t: Txn) {
    && IsHeader(l, nblocks, t.blocks) && |t.data| == |t.blocks|
    && forall i | 0 <= i < |t.data| :: |t.data[i]| == BLOCK_WORDS
  }

  /** `write_head`: the count and the entries are stored, older entries stay behind them. */
  function HeadBlock(base: Block, s: seq<nat>): Block
    requires |s| < |base|
  {
    [|s|] + s + base[1 + |s|..]
  }

  /** The header block says that it holds exactly the entries `s`. */
  ghost predicate Lists(h: Block, s: seq<nat>) {
    |s| < |h| && h[0] == |s| && h[1..1 + |s|] == s
  }

  /** `read_head`. */
  function ReadHead(h: Block): seq<nat>
    requires h != [] && h[0] < |h|
  {
    h[1..1 + h[0]]
  }

  // --- the writes, in the order the code issues them ------------------------------------

  /** `write_log` from entry k on. */
  function LogWrites(l: Layout, t: Txn, k: nat): seq<Write>
    requires k <= |t.data|
    decreases |t.data| - k
  {
    if k == |t.data| then [] else [Write(l.start + 1 + k, t.data[k])] + LogWrites(l, t, k + 1)
  }

  /** `install_trans` from entry k on, copying out of the log blocks of `d`. */
  function InstallWrites(l: Layout, d: Disk, s: seq<nat>, k: nat): seq<Write>
    requires k <= |s| && l.start + |s| < |d|
    decreases |s| - k
  {
    if k == |s| then [] else [Write(s[k], d[l.start + 1 + k])] + InstallWrites(l, d, s, k + 1)
  }

  /** The home-block writes of a transaction from entry k on. */
  function HomeWrites(t: Txn, k: nat): seq<Write>
    requires k <= |t.data| == |t.blocks|
    decreases |t.data| - k
  {
    if k == |t.data| then [] else [Write(t.blocks[k], t.data[k])] + HomeWrites(t, k + 1)
  }

  /** Erasing the log: the header keeps its old entries and says that it has none. */
  function ClearWrite(l: Layout, h: Block): Write
    requires h != []
  {
    Write(l.start, HeadBlock(h, []))
  }

  /** The writes of `commit` from entry k of `write_log` on, over a header block with contents `h`. */
  function CommitFrom(l: Layout, h: Block, t: Txn, k: nat): seq<Write>
    requires |t.blocks| < |h| && k <= |t.data| == |t.blocks|
  {
    var head := HeadBlock(h, t.blocks);
    LogWrites(l, t, k) + ([Write(l.start, head)] + (HomeWrites(t, 0) + [ClearWrite(l, head)]))
  }

  /** Everything `commit` writes: the log, the header (the commit point), the home blocks, the cleared header. */
  function CommitWrites(l: Layout, d: Disk, t: Txn): seq<Write>
    requires l.start < |d| && |t.blocks| < |d[l.start]| && |t.data| == |t.blocks|
  {
    if t.blocks == [] then [] else CommitFrom(l, d[l.start], t, 0)
  }

  /** The writes of `recover_from_log` from entry k of `install_trans` on, for a header that lists `s`. */
  function RecoverFrom(l: Layout, d: Disk, s: seq<nat>, k: nat): seq<Write>
    requires k <= |s| && l.start + |s| < |d| && d[l.start] != []
  {
    InstallWrites(l, d, s, k) + [ClearWrite(l, d[l.start])]
  }

  function RecoveryWrites(l: Layout, d: Disk): seq<Write>
    requires l.start < |d| && d[l.start] != [] && d[l.start][0] < |d[l.start]|
    requires l.start + d[l.start][0] < |d|
  {
    RecoverFrom(l, d, ReadHead(d[l.start]), 0)
  }

  lemma RecoverUnfold(l: Layout, d: Disk, s: seq<nat>, k: nat)
    requires k < |s| && l.start + |s| < |d| && d[l.start] != []
    ensures RecoverFrom(l, d, s, k) == [Write(s[k], d[l.start + 1 + k])] + RecoverFrom(l, d, s, k + 1)
  {}

  lemma CommitUnfold(l: Layout, h: Block, t: Txn, k: nat)
    requires |t.blocks| < |h| && k < |t.data| == |t.blocks|
    ensures CommitFrom(l, h, t, k) == [Write(l.start + 1 + k, t.data[k])] + CommitFrom(l, h, t, k + 1)
  {}

  ghost predicate InRange(nblocks: nat, ws: seq<Write>) {
    forall i | 0 <= i < |ws| :: ws[i].blockno < nblocks
  }

  function ApplyAll(d: Disk, ws: seq<Write>): (r: Disk)
    requires InRange(|d|, ws)
    ensures |r| == |d|
    decreases |ws|
  {
    if ws == [] then d else ApplyAll(d[ws[0].blockno := ws[0].data], ws[1..])
  }

  /** The state a transaction stands for: its home blocks overwritten. */
  function ApplyTxn(d: Disk, t: Txn): (r: Disk)
    requires |t.data| == |t.blocks| && forall i | 0 <= i < |t.blocks| :: t.blocks[i] < |d|
    ensures |r| == |d|
  {
    HomeWritesInRange(|d|, t, 0);
    ApplyAll(d, HomeWrites(t, 0))
  }

  lemma HomeWritesInRange(n: nat, t: Txn, k: nat)
    requires k <= |t.data| == |t.blocks| && forall i | 0 <= i < |t.blocks| :: t.blocks[i] < n
    ensures InRange(n, HomeWrites(t, k))
    decreases |t.data| - k
  {}

  /** A transaction replaces exactly its own blocks. */
  lemma {:induction false} ApplyTxnAt(d: Disk, t: Txn, k: nat, b: nat)
    requires k <= |t.data| == |t.blocks| && Distinct(t.blocks) && b < |d|
    requires forall i | 0 <= i < |t.blocks| :: t.blocks[i] < |d|
    ensures InRange(|d|, HomeWrites(t, k))
    ensures forall i | k <= i < |t.blocks| && t.blocks[i] == b :: ApplyAll(d, HomeWrites(t, k))[b] == t.data[i]
    ensures b !in t.blocks[k..] ==> ApplyAll(d, HomeWrites(t, k))[b] == d[b]
    decreases |t.data| - k
  {
    HomeWritesInRange(|d|, t, k);
    if k < |t.data| {
      var d' := d[t.blocks[k] := t.data[k]];
      assert HomeWrites(t, k)[1..] == HomeWrites(t, k + 1);
      ApplyTxnAt(d', t, k + 1, b);
      assert t.blocks[k..] == [t.blocks[k]] + t.blocks[k + 1..];
      forall i: nat | k < i < |t.blocks| ensures t.blocks[i] != t.blocks[k] { assert Apart(t.blocks, k, i); }
    }
  }

  /** Installing reads only the log blocks, so it copies the same contents from any disk that agrees on them. */
  lemma {:induction false} InstallFrame(l: Layout, d: Disk, d': Disk, s: seq<nat>, k: nat)
    requires k <= |s| && l.start + |s| < |d| && |d'| == |d|
    requires forall j | l.start < j <= l.start + |s| :: d[j] == d'[j]
    ensures InstallWrites(l, d, s, k) == InstallWrites(l, d', s, k)
    decreases |s| - k
  {
    if k < |s| { InstallFrame(l, d, d', s, k + 1); }
  }

  /** Once the log holds a transaction, installing it writes the transaction home. */
  lemma {:induction false} InstallIsHome(l: Layout, d: Disk, t: Txn, k: nat)
    requires k <= |t.data| == |t.blocks| && l.start + |t.blocks| < |d|
    requires forall i | 0 <= i < |t.blocks| :: d[l.start + 1 + i] == t.data[i]
    ensures InstallWrites(l, d, t.blocks, k) == HomeWrites(t, k)
    decreases |t.data| - k
  {
    if k < |t.data| { InstallIsHome(l, d, t, k + 1); }
  }

  lemma {:induction false} InstallInRange(l: Layout, d: Disk, s: seq<nat>, k: nat)
    requires k <= |s| && l.start + |s| < |d| && forall i | 0 <= i < |s| :: s[i] < |d|
    ensures InRange(|d|, InstallWrites(l, d, s, k))
    decreases |s| - k
  {
    if k < |s| { InstallInRange(l, d, s, k + 1); }
  }

  lemma {:induction false} LogWritesInRange(l: Layout, n: nat, t: Txn, k: nat)
    requires k <= |t.data| && l.start + |t.data| < n
    ensures InRange(n, LogWrites(l, t, k))
    decreases |t.data| - k
  {
    if k < |t.data| { LogWritesInRange(l, n, t, k + 1); }
  }

  lemma {:induction false} ApplyAppend(d: Disk, a: seq<Write>, b: seq<Write>)
    requires InRange(|d|, a + b)
    ensures InRange(|d|, a) && InRange(|d|, b)
    ensures ApplyAll(d, a + b) == ApplyAll(ApplyAll(d, a), b)
    decreases |a|
  {
    assert forall i | 0 <= i < |a| :: a[i] == (a + b)[i];
    assert forall i | 0 <= i < |b| :: b[i] == (a + b)[|a| + i];
    if a == [] {
      assert a + b == b;
    } else {
      assert (a + b)[1..] == a[1..] + b;
      ApplyAppend(d[a[0].blockno := a[0].data], a[1..], b);
    }
  }

  lemma ApplyOne(d: Disk, w: Write)
    requires w.blockno < |d|
    ensures ApplyAll(d, [w]) == d[w.blockno := w.data]
  {
    assert ApplyAll(d[w.blockno := w.data], [w][1..]) == d[w.blockno := w.data];
  }

  /** `write_log` fills the log blocks and nothing else. */
  lemma {:induction false} LogWritesAt(l: Layout, d: Disk, t: Txn, k: nat, b: nat)
    requires k <= |t.data| && l.start + |t.data| < |d| && b < |d|
    ensures InRange(|d|, LogWrites(l, t, k))
    ensures ApplyAll(d, LogWrites(l, t, k))[b] ==
              if l.start + k < b <= l.start + |t.data| then t.data[b - l.start - 1] else d[b]
    decreases |t.data| - k
  {
    LogWritesInRange(l, |d|, t, k);
    if k < |t.data| {
      assert LogWrites(l, t, k)[1..] == LogWrites(l, t, k + 1);
      LogWritesAt(l, d[l.start + 1 + k := t.data[k]], t, k + 1, b);
    }
  }
}
