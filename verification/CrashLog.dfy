/** The disk as an array of atomically written blocks, and the on-disk redo log of kernel/log.c:
    a header block followed by the logged blocks. Commit and recovery are described by the block
    writes they issue, in order; a crash keeps a prefix of them. */
module CrashLog {
  import opened Collections

  /** A disk block, as BSIZE / 4 machine words. */
  type Block = seq<nat>

  type Disk = seq<Block>

  const BLOCK_WORDS := 256
  const MAXOPBLOCKS := 10
  const LOGBLOCKS := 30

  /** One atomic block write. */
  datatype Write = Write(bno: nat, blk: Block)

  function Put(d: Disk, w: Write): (r: Disk)
    ensures |r| == |d|
  {
    if w.bno < |d| then d[w.bno := w.blk] else d
  }

  function Apply(d: Disk, ws: seq<Write>): (r: Disk)
    ensures |r| == |d|
  {
    if ws == [] then d else Put(Apply(d, ws[..|ws| - 1]), ws[|ws| - 1])
  }

  /** The log occupies the header block `start` and the LOGBLOCKS blocks after it. */
  predicate InLog(start: nat, b: nat) {
    start <= b <= start + LOGBLOCKS
  }

  ghost predicate SameHome(start: nat, d: Disk, e: Disk) {
    |d| == |e| && forall b :: 0 <= b < |d| && !InLog(start, b) ==> d[b] == e[b]
  }

  // ---- header block: word 0 is n, words 1..n are the home block numbers

  predicate GoodHeader(h: Block) {
    |h| == BLOCK_WORDS && h[0] <= LOGBLOCKS
  }

  function HeaderBlocks(h: Block): (lh: seq<nat>)
    requires GoodHeader(h)
  {
    h[1..1 + h[0]]
  }

  /** write_head: overwrite n and the first n block numbers, keep the rest of the block. */
  function PutHeader(h: Block, lh: seq<nat>): (r: Block)
    requires |h| == BLOCK_WORDS && |lh| <= LOGBLOCKS
    ensures GoodHeader(r) && HeaderBlocks(r) == lh
  {
    [|lh|] + lh + h[1 + |lh|..]
  }

  // ---- transactions

  /** What commit() has in memory: the logged block numbers and the cached contents. */
  datatype Tx = Tx(lh: seq<nat>, data: seq<Block>)

  /** The transaction that commit() writes: the logged blocks with their cached contents. */
  function Transaction(lh: seq<nat>, view: Disk): (tx: Tx)
    requires forall i :: 0 <= i < |lh| ==> lh[i] < |view|
    ensures |tx.lh| == |tx.data|
  {
    Tx(lh, seq(|lh|, i requires 0 <= i < |lh| => view[lh[i]]))
  }

  ghost predicate GoodLayout(d: Disk, start: nat) {
    start + LOGBLOCKS < |d| && |d[start]| == BLOCK_WORDS
  }

  ghost predicate HomeBlocks(d: Disk, start: nat, lh: seq<nat>) {
    Distinct(lh) && forall i :: 0 <= i < |lh| ==> lh[i] < |d| && !InLog(start, lh[i])
  }

  ghost predicate GoodTx(d: Disk, start: nat, tx: Tx) {
    && GoodLayout(d, start)
    && |tx.lh| == |tx.data| <= LOGBLOCKS
    && HomeBlocks(d, start, tx.lh)
  }

  function InstallWrites(lh: seq<nat>, data: seq<Block>): (ws: seq<Write>)
    requires |lh| == |data|
  {
    seq(|lh|, i requires 0 <= i < |lh| => Write(lh[i], data[i]))
  }

  function LogWrites(start: nat, data: seq<Block>): (ws: seq<Write>) {
    seq(|data|, i requires 0 <= i < |data| => Write(start + 1 + i, data[i]))
  }

  /** The block writes of commit(): write_log, write_head, install_trans, write_head with n = 0. */
  function CommitWrites(h: Block, start: nat, tx: Tx): (ws: seq<Write>)
    requires |h| == BLOCK_WORDS && |tx.lh| == |tx.data| <= LOGBLOCKS
  {
    LogWrites(start, tx.data)
    + [Write(start, PutHeader(h, tx.lh))]
    + InstallWrites(tx.lh, tx.data)
    + [Write(start, PutHeader(PutHeader(h, tx.lh), []))]
  }

  /** The block writes of commit() when the header is lh: none when nothing is logged. */
  function TxWrites(d: Disk, start: nat, lh: seq<nat>, view: Disk): (ws: seq<Write>) {
    if && 0 < |lh| <= LOGBLOCKS && start < |d| && |d[start]| == BLOCK_WORDS
       && forall i :: 0 <= i < |lh| ==> lh[i] < |view|
    then CommitWrites(d[start], start, Transaction(lh, view))
    else []
  }

  /** The blocks that the header on disk says are logged. */
  function LogData(d: Disk, start: nat, n: nat): (data: seq<Block>)
    requires start + n < |d|
  {
    d[start + 1..start + 1 + n]
  }

  /** The disk holds a log region with a header that read_head can use. */
  predicate Readable(d: Disk, start: nat) {
    start + LOGBLOCKS < |d| && GoodHeader(d[start])
  }

  /** The block writes of recover_from_log() on disk d: install_trans, then clear the header. */
  function RecoveryWrites(d: Disk, start: nat): (ws: seq<Write>)
    requires Readable(d, start)
  {
    var lh := HeaderBlocks(d[start]);
    InstallWrites(lh, LogData(d, start, |lh|)) + [Write(start, PutHeader(d[start], []))]
  }

  /** The home blocks after the whole transaction has been installed. */
  function Installed(d: Disk, tx: Tx): (r: Disk)
    requires |tx.lh| == |tx.data|
    ensures |r| == |d|
  {
    Apply(d, InstallWrites(tx.lh, tx.data))
  }

  // ---- writing a list of blocks

  lemma ApplyNone(d: Disk)
    ensures Apply(d, []) == d
  {
  }

  lemma {:induction false} ApplyAppend(d: Disk, a: seq<Write>, b: seq<Write>)
    ensures Apply(d, a + b) == Apply(Apply(d, a), b)
    decreases |b|
  {
    if b == [] {
      assert a + b == a;
    } else {
      var n := |b| - 1;
      assert (a + b)[..|a + b| - 1] == a + b[..n];
      ApplyAppend(d, a, b[..n]);
    }
  }

  /** Blocks that no write names are unchanged. */
  lemma {:induction false} ApplyFrame(d: Disk, ws: seq<Write>, b: nat)
    requires b < |d|
    requires forall i :: 0 <= i < |ws| ==> ws[i].bno != b
    ensures Apply(d, ws)[b] == d[b]
  {
    if ws != [] {
      ApplyFrame(d, ws[..|ws| - 1], b);
    }
  }

  /** A block named by exactly one write holds what that write put there. */
  lemma {:induction false} ApplyAt(d: Disk, ws: seq<Write>, k: nat)
    requires k < |ws| && ws[k].bno < |d|
    requires forall i :: 0 <= i < |ws| && i != k ==> ws[i].bno != ws[k].bno
    ensures Apply(d, ws)[ws[k].bno] == ws[k].blk
  {
    var n := |ws| - 1;
    if k < n {
      ApplyAt(d, ws[..n], k);
    }
  }

  /** What installing the first j blocks leaves on disk. */
  lemma InstallPrefix(d: Disk, lh: seq<nat>, data: seq<Block>, j: nat)
    requires |lh| == |data| && j <= |lh| && Distinct(lh)
    requires forall i :: 0 <= i < |lh| ==> lh[i] < |d|
    ensures forall i :: 0 <= i < j ==> Apply(d, InstallWrites(lh, data)[..j])[lh[i]] == data[i]
    ensures forall b :: 0 <= b < |d| && b !in lh[..j] ==> Apply(d, InstallWrites(lh, data)[..j])[b] == d[b]
  {
    var ws := InstallWrites(lh, data)[..j];
    forall i | 0 <= i < j ensures Apply(d, ws)[lh[i]] == data[i] {
      ApplyAt(d, ws, i);
    }
    forall b | 0 <= b < |d| && b !in lh[..j] ensures Apply(d, ws)[b] == d[b] {
      forall i | 0 <= i < |ws| ensures ws[i].bno != b {
        assert ws[i].bno == lh[..j][i];
      }
      ApplyFrame(d, ws, b);
    }
  }

  // ---- the two kinds of state a crash can leave

  /** No transaction in the log; the home blocks are those of `home`. */
  ghost predicate Clean(d: Disk, start: nat, home: Disk) {
    && GoodLayout(d, start) && GoodHeader(d[start])
    && d[start][0] == 0
    && SameHome(start, d, home)
  }

  lemma CleanTransfer(d: Disk, start: nat, home: Disk, home': Disk)
    requires Clean(d, start, home) && SameHome(start, home, home')
    ensures Clean(d, start, home')
  {
  }

  /** A committed transaction is in the log; every home block outside it already equals `home`,
      and the logged contents are what `home` has at the logged blocks. */
  ghost predicate Pending(d: Disk, start: nat, lh: seq<nat>, home: Disk) {
    && GoodLayout(d, start) && GoodHeader(d[start]) && |home| == |d|
    && HeaderBlocks(d[start]) == lh
    && HomeBlocks(d, start, lh)
    && (forall i :: 0 <= i < |lh| ==> d[start + 1 + i] == home[lh[i]])
    && (forall b :: 0 <= b < |d| && !InLog(start, b) && b !in lh ==> d[b] == home[b])
  }

  /** Recovery interrupted after j of its writes leaves the committed transaction pending, and
      leaves it done exactly when all of them reached the disk. */
  lemma RecoverPrefixPending(d: Disk, start: nat, lh: seq<nat>, home: Disk, j: nat)
    requires Pending(d, start, lh, home)
    requires j <= |RecoveryWrites(d, start)|
    ensures var e := Apply(d, RecoveryWrites(d, start)[..j]);
            if j == |RecoveryWrites(d, start)| then Clean(e, start, home) else Pending(e, start, lh, home)
  {
    var data := LogData(d, start, |lh|);
    var ins := InstallWrites(lh, data);
    var ws := RecoveryWrites(d, start);
    var i := if j <= |lh| then j else |lh|;
    assert ws[..i] == ins[..i];
    InstallPrefix(d, lh, data, i);
    var e := Apply(d, ins[..i]);
    assert start !in lh[..i];
    assert e[start] == d[start];
    forall m | 0 <= m < |lh| ensures e[start + 1 + m] == home[lh[m]] {
      assert start + 1 + m !in lh[..i];
    }
    forall b | 0 <= b < |e| && !InLog(start, b) && b !in lh ensures e[b] == home[b] {
      assert b !in lh[..i];
    }
    assert Pending(e, start, lh, home);
    if j > |lh| {
      assert ins[..i] == ins && ws == ins + [Write(start, PutHeader(d[start], []))];
      assert ws[..j] == ws && ws[..|ws| - 1] == ins;
      var f := Apply(d, ws);
      assert f == e[start := PutHeader(d[start], [])];
      forall b | 0 <= b < |f| && !InLog(start, b) ensures f[b] == home[b] {
        if b in lh {
          var m :| 0 <= m < |lh| && lh[m] == b;
          assert e[b] == data[m] == d[start + 1 + m];
        }
      }
      assert SameHome(start, f, home);
    }
  }

  lemma RecoverPrefixClean(d: Disk, start: nat, home: Disk, j: nat)
    requires Clean(d, start, home)
    requires j <= |RecoveryWrites(d, start)|
    ensures Clean(Apply(d, RecoveryWrites(d, start)[..j]), start, home)
  {
    var ws := RecoveryWrites(d, start);
    assert ws == [Write(start, PutHeader(d[start], []))];
    if j == 1 {
      assert ws[..1] == ws && ws[..0] == [];
      assert Apply(d, ws) == d[start := PutHeader(d[start], [])];
    } else {
      assert ws[..0] == [];
    }
  }

  /** Restarting recovery over and over, each time crashing after ks[i] of its writes. */
  ghost function Crashes(d: Disk, start: nat, ks: seq<nat>): (e: Disk)
    ensures |e| == |d|
    decreases |ks|
  {
    if ks == [] || !Readable(d, start) then d
    else
      var ws := RecoveryWrites(d, start);
      var j := if ks[0] < |ws| then ks[0] else |ws|;
      Crashes(Apply(d, ws[..j]), start, ks[1..])
  }

  /** recover_from_log() that runs to its end. */
  ghost function Recover(d: Disk, start: nat): (e: Disk)
    requires Readable(d, start)
  {
    Apply(d, RecoveryWrites(d, start))
  }

  lemma {:induction false} CrashesKeepClean(d: Disk, start: nat, home: Disk, ks: seq<nat>)
    requires Clean(d, start, home)
    ensures Clean(Crashes(d, start, ks), start, home)
    decreases |ks|
  {
    if ks != [] {
      var ws := RecoveryWrites(d, start);
      var j := if ks[0] < |ws| then ks[0] else |ws|;
      RecoverPrefixClean(d, start, home, j);
      CrashesKeepClean(Apply(d, ws[..j]), start, home, ks[1..]);
    }
  }

  lemma {:induction false} CrashesKeepPending(d: Disk, start: nat, lh: seq<nat>, home: Disk, ks: seq<nat>)
    requires Pending(d, start, lh, home)
    ensures var e := Crashes(d, start, ks);
            Pending(e, start, lh, home) || Clean(e, start, home)
    decreases |ks|
  {
    if ks != [] {
      var ws := RecoveryWrites(d, start);
      var j := if ks[0] < |ws| then ks[0] else |ws|;
      RecoverPrefixPending(d, start, lh, home, j);
      if j < |ws| {
        CrashesKeepPending(Apply(d, ws[..j]), start, lh, home, ks[1..]);
      } else {
        CrashesKeepClean(Apply(d, ws[..j]), start, home, ks[1..]);
      }
    }
  }

  /** After a crash, and any number of crashes during recovery, a completed recovery ends clean. */
  lemma RecoveryCompletes(d: Disk, start: nat, lh: seq<nat>, home: Disk, ks: seq<nat>)
    requires Pending(d, start, lh, home) || Clean(d, start, home)
    ensures var e := Crashes(d, start, ks);
            Readable(e, start) && Clean(Recover(e, start), start, home)
  {
    if Clean(d, start, home) {
      CrashesKeepClean(d, start, home, ks);
    } else {
      CrashesKeepPending(d, start, lh, home, ks);
    }
    var e := Crashes(d, start, ks);
    var ws := RecoveryWrites(e, start);
    assert ws[..|ws|] == ws;
    if Clean(e, start, home) {
      RecoverPrefixClean(e, start, home, |ws|);
    } else {
      RecoverPrefixPending(e, start, lh, home, |ws|);
    }
  }

  // ---- commit, cut short after k writes

  /** After its header write, commit issues the same writes as recovery. */
  lemma CommitTail(h: Block, start: nat, tx: Tx, j: nat, rec: seq<Write>)
    requires |h| == BLOCK_WORDS && |tx.lh| == |tx.data| <= LOGBLOCKS
    requires rec == InstallWrites(tx.lh, tx.data) + [Write(start, PutHeader(PutHeader(h, tx.lh), []))]
    requires j <= |rec|
    ensures var ws := CommitWrites(h, start, tx);
            var n := |tx.lh|;
            |ws| == n + 1 + |rec| && ws[..n + 1 + j] == ws[..n + 1] + rec[..j]
  {
    var head := LogWrites(start, tx.data) + [Write(start, PutHeader(h, tx.lh))];
    assert CommitWrites(h, start, tx) == head + rec;
  }

  lemma CommitLogPrefix(d: Disk, start: nat, tx: Tx, k: nat)
    requires GoodTx(d, start, tx) && GoodHeader(d[start]) && d[start][0] == 0
    requires k <= |tx.lh|
    ensures var e := Apply(d, LogWrites(start, tx.data)[..k]);
            && Clean(e, start, d)
            && e[start] == d[start]
            && forall i :: 0 <= i < k ==> e[start + 1 + i] == tx.data[i]
  {
    var ws := LogWrites(start, tx.data)[..k];
    forall b | 0 <= b < |d| && (b == start || !InLog(start, b)) ensures Apply(d, ws)[b] == d[b] {
      ApplyFrame(d, ws, b);
    }
    forall i | 0 <= i < k ensures Apply(d, ws)[start + 1 + i] == tx.data[i] {
      ApplyAt(d, ws, i);
    }
  }

  lemma CommitHead(h: Block, start: nat, tx: Tx)
    requires |h| == BLOCK_WORDS && |tx.lh| == |tx.data| <= LOGBLOCKS
    ensures var head := LogWrites(start, tx.data) + [Write(start, PutHeader(h, tx.lh))];
            CommitWrites(h, start, tx)[..|tx.lh| + 1] == head
  {
  }

  lemma ApplyLast(d: Disk, ws: seq<Write>, w: Write)
    ensures Apply(d, ws + [w]) == Put(Apply(d, ws), w)
  {
    assert (ws + [w])[..|ws|] == ws;
  }

  lemma InstalledAt(d: Disk, start: nat, tx: Tx)
    requires GoodTx(d, start, tx)
    ensures forall i :: 0 <= i < |tx.lh| ==> Installed(d, tx)[tx.lh[i]] == tx.data[i]
    ensures forall b :: 0 <= b < |d| && b !in tx.lh ==> Installed(d, tx)[b] == d[b]
  {
    var n := |tx.lh|;
    assert InstallWrites(tx.lh, tx.data)[..n] == InstallWrites(tx.lh, tx.data) && tx.lh[..n] == tx.lh;
    InstallPrefix(d, tx.lh, tx.data, n);
  }

  /** The header write is the commit point. */
  lemma CommitHeader(d: Disk, start: nat, tx: Tx)
    requires GoodTx(d, start, tx) && GoodHeader(d[start]) && d[start][0] == 0
    ensures var e := Apply(d, CommitWrites(d[start], start, tx)[..|tx.lh| + 1]);
            && Pending(e, start, tx.lh, Installed(d, tx))
            && e[start] == PutHeader(d[start], tx.lh)
            && forall i :: 0 <= i < |tx.lh| ==> e[start + 1 + i] == tx.data[i]
  {
    hide Distinct, Apply;
    var n := |tx.lh|;
    var logs := LogWrites(start, tx.data);
    assert logs[..n] == logs;
    CommitLogPrefix(d, start, tx, n);
    CommitHead(d[start], start, tx);
    ApplyLast(d, logs, Write(start, PutHeader(d[start], tx.lh)));
    InstalledAt(d, start, tx);
  }

  /** Up to and excluding the header write the old contents stay; from then on the new ones are
      pending; after the last write they are in place and the log is empty. */
  lemma CommitPrefix(d: Disk, start: nat, tx: Tx, k: nat)
    requires GoodTx(d, start, tx) && GoodHeader(d[start]) && d[start][0] == 0
    requires k <= |CommitWrites(d[start], start, tx)|
    ensures var e := Apply(d, CommitWrites(d[start], start, tx)[..k]);
            && (k <= |tx.lh| ==> Clean(e, start, d))
            && (|tx.lh| < k <= 2 * |tx.lh| + 1 ==> Pending(e, start, tx.lh, Installed(d, tx)))
            && (k == 2 * |tx.lh| + 2 ==> Clean(e, start, Installed(d, tx)))
  {
    hide SameHome, Pending, HomeBlocks, Distinct, Apply;
    var n := |tx.lh|;
    var ws := CommitWrites(d[start], start, tx);
    if k <= n {
      CommitLogPrefix(d, start, tx, k);
      assert ws[..k] == LogWrites(start, tx.data)[..k];
    } else {
      CommitHeader(d, start, tx);
      var logged := Apply(d, ws[..n + 1]);
      var rec := RecoveryWrites(logged, start);
      assert LogData(logged, start, n) == tx.data;
      var j := k - n - 1;
      CommitTail(d[start], start, tx, j, rec);
      ApplyAppend(d, ws[..n + 1], rec[..j]);
      RecoverPrefixPending(logged, start, tx.lh, Installed(d, tx), j);
    }
  }

  /** Crash atomicity. Commit is cut short after k of its block writes, then recovery itself is cut
      short any number of times, then recovery completes: the home blocks are all new exactly when
      the header write, write number |lh|, reached the disk, and all old otherwise. */
  lemma CrashAtomicity(d: Disk, start: nat, tx: Tx, k: nat, ks: seq<nat>)
    requires GoodTx(d, start, tx) && GoodHeader(d[start]) && d[start][0] == 0
    requires k <= |CommitWrites(d[start], start, tx)|
    ensures var crashed := Apply(d, CommitWrites(d[start], start, tx)[..k]);
            var e := Crashes(crashed, start, ks);
            && Readable(e, start)
            && Clean(Recover(e, start), start, if k > |tx.lh| then Installed(d, tx) else d)
  {
    CommitPrefix(d, start, tx, k);
    var crashed := Apply(d, CommitWrites(d[start], start, tx)[..k]);
    RecoveryCompletes(crashed, start, tx.lh, if k > |tx.lh| then Installed(d, tx) else d, ks);
  }
}
