/** The logging protocol of kernel/log.c over whole runs: any interleaving of system calls between
    begin_op and end_op, the block writes of commit one at a time, sys_sync callers, a crash at any
    moment, and recovery that may itself crash. */
module LogProtocol {
  import opened Collections
  import opened CrashLog

  /** An outstanding operation and how many new entries it has put in the log header. */
  datatype Op = Op(id: nat, used: nat)

  /** A sys_sync call: still asleep until ncommit reaches target, or returned. `ended` records the
      operations that had ended when it was called. */
  datatype Sync = Waiting(target: nat, ended: set<nat>) | Returned(ended: set<nat>)

  datatype Mode = Up | Recovering

  /** The block writes of the commit or recovery under way, how many have reached the disk, and the
      disk and the committed length of the history when they started. */
  datatype Io = Io(writes: seq<Write>, done: nat, from: Disk, was: nat)

  /** Everything that happened: the initial home blocks, every log_write with its operation, how
      many of them are committed, and which operations have begun, have ended, and had ended at
      the last commit. */
  datatype History = History(first: Disk, hist: seq<Write>, who: seq<nat>, committed: nat,
                             begun: set<nat>, ended: set<nat>, closed: set<nat>)

  /** struct log, the cached contents of the home blocks, the disk, and the history. */
  datatype Log = Log(start: nat, disk: Disk, mode: Mode, panicked: bool,
                     lh: seq<nat>, ops: seq<Op>, committing: bool, ncommit: nat, view: Disk,
                     syncs: seq<Sync>, io: Io, h: History)

  datatype Step =
    | BeginOp(id: nat)
    | LogWrite(i: nat, b: nat, blk: Block)
    | EndOp(i: nat)
    | CommitWrite
    | CommitDone
    | SyncCall
    | SyncReturn(j: nat)
    | Crash
    | RecoverWrite
    | RecoverDone

  /** The home blocks that all committed operations, and nothing else, produce. */
  function CommittedHome(h: History): (d: Disk)
    requires h.committed <= |h.hist|
  {
    Apply(h.first, h.hist[..h.committed])
  }

  predicate Running(s: Log) {
    s.mode == Up && !s.panicked
  }

  /** When a step of the code can happen. begin_op leaves its loop only when no commit is under way
      and the log has room; an operation adds at most MAXOPBLOCKS new entries. */
  predicate Enabled(s: Log, step: Step) {
    match step
    case BeginOp(id) =>
      Running(s) && id !in s.h.begun && !s.committing && |s.lh| + (|s.ops| + 1) * MAXOPBLOCKS <= LOGBLOCKS
    case LogWrite(i, b, blk) =>
      && Running(s) && i < |s.ops| && b < |s.view| && !InLog(s.start, b)
      && (b in s.lh || s.ops[i].used < MAXOPBLOCKS)
    case EndOp(i) => Running(s) && i < |s.ops|
    case CommitWrite => Running(s) && s.committing && s.io.done < |s.io.writes|
    case CommitDone => Running(s) && s.committing && s.io.done == |s.io.writes|
    case SyncCall => Running(s)
    case SyncReturn(j) =>
      Running(s) && j < |s.syncs| && s.syncs[j].Waiting? && s.ncommit >= s.syncs[j].target
    case Crash => s.h.committed <= |s.h.hist| == |s.h.who|
    case RecoverWrite => s.mode == Recovering && s.io.done < |s.io.writes|
    case RecoverDone => s.mode == Recovering && s.io.done == |s.io.writes|
  }

  const NO_IO := Io([], 0, [], 0)

  /** log_write: the size check comes before the search for the block. */
  function DoLogWrite(s: Log, i: nat, b: nat, blk: Block): (r: Log)
    requires i < |s.ops| && b < |s.view|
  {
    if |s.lh| >= LOGBLOCKS || |s.ops| < 1 then s.(panicked := true)
    else
      var op := s.ops[i];
      var h := s.h.(hist := s.h.hist + [Write(b, blk)], who := s.h.who + [op.id]);
      if b in s.lh then s.(view := s.view[b := blk], h := h)
      else s.(view := s.view[b := blk], h := h, lh := s.lh + [b], ops := s.ops[i := Op(op.id, op.used + 1)])
  }

  /** end_op: the last outstanding operation starts the commit. */
  function DoEndOp(s: Log, i: nat): (r: Log)
    requires i < |s.ops|
  {
    if s.committing then s.(panicked := true)
    else
      var ops := Remove(s.ops, i);
      var h := s.h.(ended := s.h.ended + {s.ops[i].id});
      if |ops| > 0 then s.(ops := ops, h := h)
      else s.(ops := ops, h := h, committing := true,
              io := Io(TxWrites(s.disk, s.start, s.lh, s.view), 0, s.disk, s.h.committed))
  }

  /** The next block write of the commit or recovery under way reaches the disk. */
  function DoWrite(s: Log): (r: Log)
    requires s.io.done < |s.io.writes|
  {
    s.(disk := Put(s.disk, s.io.writes[s.io.done]), io := s.io.(done := s.io.done + 1))
  }

  /** The header is on disk: all writes so far are committed. */
  function Commit(h: History): (r: History) {
    h.(committed := |h.hist|, closed := h.ended)
  }

  /** One block write of commit; the header write, number |lh|, commits the whole group. */
  function DoCommitWrite(s: Log): (r: Log)
    requires s.io.done < |s.io.writes|
  {
    if s.io.done == |s.lh| then DoWrite(s).(h := Commit(s.h)) else DoWrite(s)
  }

  function DoSyncCall(s: Log): (r: Log) {
    if s.committing || |s.ops| > 0 then s.(syncs := s.syncs + [Waiting(s.ncommit + 1, s.h.ended)])
    else s.(syncs := s.syncs + [Returned(s.h.ended)])
  }

  /** The operations that have ended and lose no write in a crash. */
  function Survivors(h: History): (ids: set<nat>) {
    set id | id in h.ended && forall k :: h.committed <= k < |h.who| ==> h.who[k] != id
  }

  function OnlyReturned(syncs: seq<Sync>): (r: seq<Sync>) {
    if syncs == [] then []
    else (if syncs[0].Returned? then [syncs[0]] else []) + OnlyReturned(syncs[1..])
  }

  /** Power failure: memory is lost; what was logged but not committed never happened, and the
      operations it belonged to have not ended. Calls of sys_sync that had returned are remembered,
      the others are gone. */
  function DoCrash(s: Log): (r: Log)
    requires s.h.committed <= |s.h.hist| == |s.h.who|
  {
    var h := s.h.(hist := s.h.hist[..s.h.committed], who := s.h.who[..s.h.committed], ended := Survivors(s.h));
    var writes := if Readable(s.disk, s.start) then RecoveryWrites(s.disk, s.start) else [];
    s.(mode := Recovering, panicked := false, lh := [], ops := [], committing := false, ncommit := 0,
       syncs := OnlyReturned(s.syncs), io := Io(writes, 0, s.disk, 0), h := h)
  }

  function Do(s: Log, step: Step): (r: Log)
    requires Enabled(s, step)
  {
    match step
    case BeginOp(id) => s.(ops := s.ops + [Op(id, 0)], h := s.h.(begun := s.h.begun + {id}))
    case LogWrite(i, b, blk) => DoLogWrite(s, i, b, blk)
    case EndOp(i) => DoEndOp(s, i)
    case CommitWrite => DoCommitWrite(s)
    case CommitDone => s.(lh := [], committing := false, ncommit := s.ncommit + 1, io := NO_IO)
    case SyncCall => DoSyncCall(s)
    case SyncReturn(j) => s.(syncs := s.syncs[j := Returned(s.syncs[j].ended)])
    case Crash => DoCrash(s)
    case RecoverWrite => DoWrite(s)
    case RecoverDone => s.(mode := Up, view := s.disk, io := NO_IO)
  }

  // ---- the invariant

  /** Log space still reserved for outstanding operations. */
  function Reserved(ops: seq<Op>): (r: int) {
    if ops == [] then 0 else MAXOPBLOCKS - ops[0].used + Reserved(ops[1..])
  }

  /** The operation ended and every one of its writes is in the committed part of the history. */
  ghost predicate Durable(h: History, id: nat) {
    id in h.ended && forall k :: h.committed <= k < |h.who| ==> h.who[k] != id
  }

  /** Everything committed belongs to operations that had ended by then, nothing later does. */
  ghost predicate WholeOps(who: seq<nat>, committed: nat, closed: set<nat>) {
    && committed <= |who|
    && (forall j :: 0 <= j < committed ==> who[j] in closed)
    && (forall k :: committed <= k < |who| ==> who[k] !in closed)
  }

  ghost predicate HistoryOk(start: nat, size: nat, h: History) {
    && h.committed <= |h.hist| == |h.who|
    && start + LOGBLOCKS < size == |h.first|
    && (forall k :: 0 <= k < |h.hist| ==> h.hist[k].bno < size && !InLog(start, h.hist[k].bno))
    && (forall k :: 0 <= k < |h.who| ==> h.who[k] in h.begun)
    && h.closed <= h.ended <= h.begun
    && WholeOps(h.who, h.committed, h.closed)
  }

  ghost predicate OpsOk(ops: seq<Op>, h: History) {
    && (forall i :: 0 <= i < |ops| ==>
          ops[i].used <= MAXOPBLOCKS && ops[i].id in h.begun && ops[i].id !in h.ended)
    && (forall i, j :: 0 <= i < j < |ops| ==> ops[i].id != ops[j].id)
  }

  ghost predicate SyncOk(sync: Sync, ncommit: nat, h: History) {
    match sync
    case Waiting(t, ended) => ended <= h.ended && (ncommit >= t ==> forall id :: id in ended ==> Durable(h, id))
    case Returned(ended) => forall id :: id in ended ==> Durable(h, id)
  }

  ghost predicate SyncsOk(syncs: seq<Sync>, ncommit: nat, h: History) {
    forall j :: 0 <= j < |syncs| ==> SyncOk(syncs[j], ncommit, h)
  }

  /** The logged blocks are home blocks and cover every write since commit `committed`. */
  ghost predicate HeaderOk(start: nat, lh: seq<nat>, view: Disk, first: Disk, hist: seq<Write>, committed: nat) {
    && |lh| <= LOGBLOCKS && committed <= |hist|
    && HomeBlocks(first, start, lh)
    && SameHome(start, view, Apply(first, hist))
    && (lh == [] ==> committed == |hist|)
    && (forall k :: committed <= k < |hist| ==> hist[k].bno in lh)
  }

  function Ids(ops: seq<Op>): (ids: set<nat>) {
    set i | 0 <= i < |ops| :: ops[i].id
  }

  ghost predicate OwnedFrom(who: seq<nat>, c: nat, owners: set<nat>) {
    forall k :: c <= k < |who| ==> who[k] in owners
  }

  ghost predicate IdleOk(s: Log)
    requires HistoryOk(s.start, |s.disk|, s.h)
  {
    && s.io == NO_IO
    && |s.view| == |s.disk| && HeaderOk(s.start, s.lh, s.view, s.h.first, s.h.hist, s.h.committed)
    && Clean(s.disk, s.start, CommittedHome(s.h))
    && (s.ops == [] ==> s.lh == [])
    && OwnedFrom(s.h.who, s.h.committed, s.h.ended + Ids(s.ops))
  }

  ghost predicate FromOk(start: nat, from: Disk, writes: seq<Write>, lh: seq<nat>, view: Disk, home: Disk)
    requires |lh| <= LOGBLOCKS && forall i :: 0 <= i < |lh| ==> lh[i] < |view|
  {
    && Clean(from, start, home)
    && writes == (if lh == [] then [] else CommitWrites(from[start], start, Transaction(lh, view)))
  }

  /** The commit under way started from a clean disk with io.was committed writes, has issued
      io.done of its block writes, and commits with the header write. */
  ghost predicate IoOk(start: nat, disk: Disk, lh: seq<nat>, view: Disk, io: Io, h: History)
    requires HistoryOk(start, |disk|, h)
    requires HeaderOk(start, lh, view, h.first, h.hist, io.was)
  {
    && FromOk(start, io.from, io.writes, lh, view, Apply(h.first, h.hist[..io.was]))
    && io.done <= |io.writes|
    && disk == Apply(io.from, io.writes[..io.done])
    && h.committed == (if io.done > |lh| then |h.hist| else io.was)
  }

  ghost predicate CommittingOk(s: Log)
    requires HistoryOk(s.start, |s.disk|, s.h)
  {
    && s.ops == []
    && |s.view| == |s.disk| && HeaderOk(s.start, s.lh, s.view, s.h.first, s.h.hist, s.io.was)
    && OwnedFrom(s.h.who, 0, s.h.ended)
    && IoOk(s.start, s.disk, s.lh, s.view, s.io, s.h)
  }

  /** The disk a crash left: clean, or with the last committed group still in the log. */
  ghost predicate Crashed(d: Disk, start: nat, home: Disk) {
    Clean(d, start, home) || exists lh :: Pending(d, start, lh, home)
  }

  ghost predicate RecoveringOk(s: Log)
    requires HistoryOk(s.start, |s.disk|, s.h)
  {
    && s.h.committed == |s.h.hist| && s.ops == [] && s.lh == [] && !s.committing
    && Readable(s.io.from, s.start) && Crashed(s.io.from, s.start, CommittedHome(s.h))
    && s.io.writes == RecoveryWrites(s.io.from, s.start)
    && s.io.done <= |s.io.writes|
    && s.disk == Apply(s.io.from, s.io.writes[..s.io.done])
  }

  ghost predicate Inv(s: Log) {
    && HistoryOk(s.start, |s.disk|, s.h)
    && OpsOk(s.ops, s.h)
    && |s.lh| + Reserved(s.ops) <= LOGBLOCKS
    && SyncsOk(s.syncs, s.ncommit, s.h)
    && if s.mode == Recovering then RecoveringOk(s) else if s.committing then CommittingOk(s) else IdleOk(s)
  }

  /** A freshly booted, recovered file system. */
  ghost predicate Init(s: Log) {
    && s.mode == Up && !s.panicked && s.lh == [] && s.ops == [] && !s.committing && s.syncs == []
    && s.io == NO_IO && s.h == History(s.disk, [], [], 0, {}, {}, {})
    && GoodLayout(s.disk, s.start) && GoodHeader(s.disk[s.start]) && s.disk[s.start][0] == 0
    && s.view == s.disk
  }

  // ---- the disk can always be recovered to the committed operations

  lemma PendingTransfer(d: Disk, start: nat, lh: seq<nat>, home: Disk, home': Disk)
    requires Pending(d, start, lh, home) && SameHome(start, home, home')
    ensures Pending(d, start, lh, home')
  {
  }

  /** Home blocks outside the header's list are the same before and after the open transaction. */
  lemma UnloggedUnchanged(first: Disk, hist: seq<Write>, c: nat, lh: seq<nat>, b: nat)
    requires c <= |hist| && b < |first| && b !in lh
    requires forall k :: c <= k < |hist| ==> hist[k].bno in lh
    ensures Apply(first, hist)[b] == Apply(first, hist[..c])[b]
  {
    assert hist == hist[..c] + hist[c..];
    ApplyAppend(first, hist[..c], hist[c..]);
    ApplyFrame(Apply(first, hist[..c]), hist[c..], b);
  }

  /** Installing the logged contents on the committed home blocks gives the current contents. */
  lemma InstalledIsView(start: nat, from: Disk, lh: seq<nat>, view: Disk, h: History, was: nat)
    requires HistoryOk(start, |from|, h) && HeaderOk(start, lh, view, h.first, h.hist, was)
    requires Clean(from, start, Apply(h.first, h.hist[..was]))
    ensures GoodTx(from, start, Transaction(lh, view))
    ensures SameHome(start, Installed(from, Transaction(lh, view)), Apply(h.first, h.hist))
  {
    var tx := Transaction(lh, view);
    assert GoodTx(from, start, tx);
    InstalledAt(from, start, tx);
    forall b | 0 <= b < |from| && !InLog(start, b)
      ensures Installed(from, tx)[b] == Apply(h.first, h.hist)[b]
    {
      if b in lh {
        var i :| 0 <= i < |lh| && lh[i] == b;
        assert Installed(from, tx)[b] == view[b];
      } else {
        UnloggedUnchanged(h.first, h.hist, was, lh, b);
      }
    }
  }

  /** In the middle of commit: old contents before the header write, new ones from then on. */
  lemma CommittingRecoverable(s: Log)
    requires Inv(s) && s.mode == Up && s.committing
    ensures if s.io.done <= |s.lh| || s.io.done == |s.io.writes| then Clean(s.disk, s.start, CommittedHome(s.h))
            else Pending(s.disk, s.start, s.lh, CommittedHome(s.h))
  {
    hide SyncsOk, OpsOk, RecoveringOk, IdleOk, Reserved, OwnedFrom;
    if s.lh == [] {
      assert s.io.writes[..s.io.done] == [];
    } else {
      var tx := Transaction(s.lh, s.view);
      InstalledIsView(s.start, s.io.from, s.lh, s.view, s.h, s.io.was);
      CommitPrefix(s.io.from, s.start, tx, s.io.done);
      assert s.h.hist[..|s.h.hist|] == s.h.hist;
      if s.io.done <= |s.lh| {
        CleanTransfer(s.disk, s.start, s.io.from, CommittedHome(s.h));
      } else if s.io.done == |s.io.writes| {
        CleanTransfer(s.disk, s.start, Installed(s.io.from, tx), CommittedHome(s.h));
      } else {
        PendingTransfer(s.disk, s.start, s.lh, Installed(s.io.from, tx), CommittedHome(s.h));
      }
    }
  }

  lemma RecoveringRecoverable(s: Log)
    requires Inv(s) && s.mode == Recovering
    ensures Crashed(s.disk, s.start, CommittedHome(s.h))
    ensures s.io.done == |s.io.writes| ==> Clean(s.disk, s.start, CommittedHome(s.h))
  {
    var home := CommittedHome(s.h);
    if Clean(s.io.from, s.start, home) {
      RecoverPrefixClean(s.io.from, s.start, home, s.io.done);
    } else {
      var lh :| Pending(s.io.from, s.start, lh, home);
      RecoverPrefixPending(s.io.from, s.start, lh, home, s.io.done);
    }
  }

  lemma AlwaysRecoverable(s: Log)
    requires Inv(s)
    ensures Crashed(s.disk, s.start, CommittedHome(s.h)) && Readable(s.disk, s.start)
  {
    if s.mode == Recovering {
      RecoveringRecoverable(s);
    } else if s.committing {
      CommittingRecoverable(s);
    }
  }

  // ---- each step keeps the invariant

  lemma InitOk(s: Log)
    requires Init(s)
    ensures Inv(s)
  {
    assert s.h.hist[..0] == [];
  }

  lemma {:induction false} ReservedAppend(ops: seq<Op>, op: Op)
    ensures Reserved(ops + [op]) == Reserved(ops) + MAXOPBLOCKS - op.used
  {
    if ops != [] {
      assert (ops + [op])[1..] == ops[1..] + [op];
      ReservedAppend(ops[1..], op);
    }
  }

  lemma {:induction false} ReservedUpdate(ops: seq<Op>, i: nat, op: Op)
    requires i < |ops|
    ensures Reserved(ops[i := op]) == Reserved(ops) + ops[i].used - op.used
  {
    if i == 0 {
      assert ops[0 := op][1..] == ops[1..];
    } else {
      assert ops[i := op][1..] == ops[1..][i - 1 := op];
      ReservedUpdate(ops[1..], i - 1, op);
    }
  }

  lemma {:induction false} ReservedRemove(ops: seq<Op>, i: nat)
    requires i < |ops|
    ensures Reserved(Remove(ops, i)) == Reserved(ops) - (MAXOPBLOCKS - ops[i].used)
  {
    if i == 0 {
      assert Remove(ops, 0) == ops[1..];
    } else {
      assert Remove(ops, i)[1..] == Remove(ops[1..], i - 1);
      ReservedRemove(ops[1..], i - 1);
    }
  }

  /** What outstanding operations may still add is at most MAXOPBLOCKS each, and at least what any
      one of them may add. */
  lemma {:induction false} ReservedBounds(ops: seq<Op>)
    requires forall i :: 0 <= i < |ops| ==> ops[i].used <= MAXOPBLOCKS
    ensures 0 <= Reserved(ops) <= |ops| * MAXOPBLOCKS
    ensures forall i :: 0 <= i < |ops| ==> MAXOPBLOCKS - ops[i].used <= Reserved(ops)
  {
    if ops != [] {
      ReservedBounds(ops[1..]);
      forall i | 0 <= i < |ops| ensures MAXOPBLOCKS - ops[i].used <= Reserved(ops) {
        if i > 0 {
          assert ops[1..][i - 1] == ops[i];
        }
      }
    }
  }

  /** A step that commits no less, ends no less, and adds no write of an ended operation keeps
      what sys_sync has promised. */
  lemma SyncsKeep(syncs: seq<Sync>, ncommit: nat, h: History, h': History)
    requires SyncsOk(syncs, ncommit, h)
    requires |h.who| <= |h'.who| && h.committed <= h'.committed && h.ended <= h'.ended
    requires forall k :: 0 <= k < |h.who| ==> h'.who[k] == h.who[k]
    requires forall k :: |h.who| <= k < |h'.who| ==> h'.who[k] !in h.ended
    ensures SyncsOk(syncs, ncommit, h')
  {
    forall x | Durable(h, x) ensures Durable(h', x) {
      forall k | h'.committed <= k < |h'.who| ensures h'.who[k] != x {
        assert k < |h.who| ==> h'.who[k] == h.who[k];
      }
    }
    forall j | 0 <= j < |syncs| ensures SyncOk(syncs[j], ncommit, h') {
      assert SyncOk(syncs[j], ncommit, h);
    }
  }

  lemma BeginOpOk(s: Log, id: nat)
    requires Inv(s) && Enabled(s, BeginOp(id))
    ensures Inv(Do(s, BeginOp(id)))
  {
    ReservedAppend(s.ops, Op(id, 0));
    ReservedBounds(s.ops);
    var t := Do(s, BeginOp(id));
    SyncsKeep(s.syncs, s.ncommit, s.h, t.h);
    assert Ids(s.ops) <= Ids(t.ops) by {
      forall x | x in Ids(s.ops) ensures x in Ids(t.ops) {
        var j :| 0 <= j < |s.ops| && s.ops[j].id == x;
        assert t.ops[j].id == x;
      }
    }
  }

  lemma LogWriteOps(s: Log, i: nat, b: nat, blk: Block)
    requires Inv(s) && Enabled(s, LogWrite(i, b, blk)) && |s.lh| < LOGBLOCKS
    ensures var t := Do(s, LogWrite(i, b, blk));
            OpsOk(t.ops, t.h) && |t.lh| + Reserved(t.ops) <= LOGBLOCKS && HistoryOk(t.start, |t.disk|, t.h)
  {
    hide Apply, Clean, CommittedHome, SyncsOk, HeaderOk, OwnedFrom;
    ReservedUpdate(s.ops, i, Op(s.ops[i].id, s.ops[i].used + 1));
  }

  lemma IdsUpdate(ops: seq<Op>, i: nat, used: nat)
    requires i < |ops|
    ensures Ids(ops[i := Op(ops[i].id, used)]) == Ids(ops)
  {
    var ops' := ops[i := Op(ops[i].id, used)];
    assert forall j :: 0 <= j < |ops| ==> ops'[j].id == ops[j].id;
    forall x | x in Ids(ops) ensures x in Ids(ops') {
      var j :| 0 <= j < |ops| && ops[j].id == x;
      assert ops'[j].id == x;
    }
  }

  lemma LogWriteHeader(start: nat, lh: seq<nat>, view: Disk, first: Disk, hist: seq<Write>, committed: nat, w: Write)
    requires HeaderOk(start, lh, view, first, hist, committed) && |lh| < LOGBLOCKS
    requires w.bno < |view| && !InLog(start, w.bno)
    ensures HeaderOk(start, if w.bno in lh then lh else lh + [w.bno], view[w.bno := w.blk], first, hist + [w],
                     committed)
  {
    ApplyLast(first, hist, w);
    var lh' := if w.bno in lh then lh else lh + [w.bno];
    assert w.bno in lh' by {
      if w.bno !in lh { assert lh'[|lh|] == w.bno; }
    }
  }

  lemma LogWriteIdle(s: Log, i: nat, b: nat, blk: Block)
    requires Inv(s) && Enabled(s, LogWrite(i, b, blk)) && |s.lh| < LOGBLOCKS
    requires HistoryOk(s.start, |s.disk|, Do(s, LogWrite(i, b, blk)).h)
    ensures IdleOk(Do(s, LogWrite(i, b, blk)))
  {
    hide Apply, SameHome, Clean, SyncsOk, OpsOk, HeaderOk;
    var t := Do(s, LogWrite(i, b, blk));
    LogWriteHeader(s.start, s.lh, s.view, s.h.first, s.h.hist, s.h.committed, Write(b, blk));
    assert t.h.hist[..t.h.committed] == s.h.hist[..s.h.committed];
    assert OwnedFrom(t.h.who, t.h.committed, t.h.ended + Ids(t.ops)) by {
      IdsUpdate(s.ops, i, s.ops[i].used + 1);
      assert Ids(t.ops) == Ids(s.ops);
      assert s.ops[i].id in Ids(s.ops);
    }
  }

  lemma LogWriteOk(s: Log, i: nat, b: nat, blk: Block)
    requires Inv(s) && Enabled(s, LogWrite(i, b, blk))
    ensures Inv(Do(s, LogWrite(i, b, blk)))
  {
    var t := Do(s, LogWrite(i, b, blk));
    if |s.lh| < LOGBLOCKS {
      SyncsKeep(s.syncs, s.ncommit, s.h, t.h);
      LogWriteOps(s, i, b, blk);
      LogWriteIdle(s, i, b, blk);
    }
  }

  lemma IdsRemove(ops: seq<Op>, i: nat)
    requires i < |ops|
    ensures Ids(ops) <= Ids(Remove(ops, i)) + {ops[i].id}
  {
    var ops' := Remove(ops, i);
    forall x | x in Ids(ops) ensures x in Ids(ops') + {ops[i].id} {
      var j :| 0 <= j < |ops| && ops[j].id == x;
      if j < i {
        assert ops'[j].id == x;
      } else if j > i {
        assert ops'[j - 1].id == x;
      }
    }
  }

  /** The last end_op starts a commit that holds only whole operations: every write since the
      previous commit belongs to an operation that has ended. */
  lemma EndOpCommits(s: Log, i: nat)
    requires Inv(s) && Enabled(s, EndOp(i)) && |s.ops| == 1
    ensures var t := Do(s, EndOp(i));
            HistoryOk(t.start, |t.disk|, t.h) && CommittingOk(t)
  {
    hide SyncsOk, SameHome, CommitWrites;
    var t := Do(s, EndOp(i));
    assert t.io.writes[..0] == [];
    assert Ids(s.ops) == {s.ops[i].id};
  }

  lemma EndOpOk(s: Log, i: nat)
    requires Inv(s) && Enabled(s, EndOp(i))
    ensures Inv(Do(s, EndOp(i))) && !Do(s, EndOp(i)).panicked
  {
    hide Apply, SameHome, Clean, CommitWrites, SyncsOk;
    var t := Do(s, EndOp(i));
    ReservedRemove(s.ops, i);
    SyncsKeep(s.syncs, s.ncommit, s.h, t.h);
    assert OwnedFrom(t.h.who, t.h.committed, t.h.ended + Ids(t.ops)) by {
      IdsRemove(s.ops, i);
    }
    if t.committing {
      assert s.ops == [s.ops[i]];
      EndOpCommits(s, i);
    }
  }

  lemma NextWrite(io: Io, disk: Disk)
    requires io.done < |io.writes| && disk == Apply(io.from, io.writes[..io.done])
    ensures Put(disk, io.writes[io.done]) == Apply(io.from, io.writes[..io.done + 1])
  {
    ApplyLast(io.from, io.writes[..io.done], io.writes[io.done]);
    assert io.writes[..io.done] + [io.writes[io.done]] == io.writes[..io.done + 1];
  }

  lemma CommitHistoryOk(start: nat, size: nat, h: History)
    requires HistoryOk(start, size, h) && OwnedFrom(h.who, 0, h.ended)
    ensures HistoryOk(start, size, Commit(h))
  {
  }

  lemma CommitWriteOk(s: Log)
    requires Inv(s) && Enabled(s, CommitWrite)
    ensures Inv(Do(s, CommitWrite))
  {
    hide Apply, SameHome, Clean, CommitWrites, Put, SyncsOk;
    var t := Do(s, CommitWrite);
    NextWrite(s.io, s.disk);
    CommitHistoryOk(s.start, |s.disk|, s.h);
    SyncsKeep(s.syncs, s.ncommit, s.h, t.h);
    assert IoOk(t.start, t.disk, t.lh, t.view, t.io, t.h);
  }

  lemma CommitDoneOk(s: Log)
    requires Inv(s) && Enabled(s, CommitDone)
    ensures Inv(Do(s, CommitDone))
  {
    hide Apply, Clean, Pending, CommittedHome, OpsOk;
    CommittingRecoverable(s);
    assert s.h.committed == |s.h.hist|;
    var t := Do(s, CommitDone);
    forall j | 0 <= j < |s.syncs| ensures SyncOk(s.syncs[j], t.ncommit, t.h) {
      assert SyncOk(s.syncs[j], s.ncommit, s.h);
    }
  }

  lemma SyncCallOk(s: Log)
    requires Inv(s) && Enabled(s, SyncCall)
    ensures Inv(Do(s, SyncCall))
  {
    if !(s.committing || |s.ops| > 0) {
      forall x | x in s.h.ended ensures Durable(s.h, x) { }
    }
  }

  lemma SyncReturnOk(s: Log, j: nat)
    requires Inv(s) && Enabled(s, SyncReturn(j))
    ensures Inv(Do(s, SyncReturn(j)))
  {
    assert SyncOk(s.syncs[j], s.ncommit, s.h);
  }

  lemma {:induction false} OnlyReturnedMeans(syncs: seq<Sync>)
    ensures forall x :: x in OnlyReturned(syncs) ==> x.Returned? && x in syncs
  {
    if syncs != [] {
      OnlyReturnedMeans(syncs[1..]);
    }
  }

  lemma CrashSyncs(syncs: seq<Sync>, ncommit: nat, h: History, h': History)
    requires SyncsOk(syncs, ncommit, h) && h.committed <= |h.who|
    requires h'.who == h.who[..h.committed] && h'.ended == Survivors(h) && h'.committed == h.committed
    ensures SyncsOk(OnlyReturned(syncs), 0, h')
  {
    OnlyReturnedMeans(syncs);
    forall x | Durable(h, x) ensures Durable(h', x) { }
    forall j | 0 <= j < |OnlyReturned(syncs)| ensures SyncOk(OnlyReturned(syncs)[j], 0, h') {
      var x := OnlyReturned(syncs)[j];
      assert x in OnlyReturned(syncs);
      var i :| 0 <= i < |syncs| && syncs[i] == x;
      assert SyncOk(syncs[i], ncommit, h);
    }
  }

  lemma CrashOk(s: Log)
    requires Inv(s)
    ensures Inv(Do(s, Crash))
  {
    hide Apply, SameHome, Clean, Pending, SyncsOk, HeaderOk, IoOk, Crashed, RecoveryWrites, OnlyReturned;
    var t := Do(s, Crash);
    AlwaysRecoverable(s);
    assert t.h.hist[..t.h.committed] == s.h.hist[..s.h.committed];
    assert t.io.writes[..0] == [] && Apply(s.disk, []) == s.disk by { ApplyNone(s.disk); }
    CrashSyncs(s.syncs, s.ncommit, s.h, t.h);
  }

  lemma RecoverWriteOk(s: Log)
    requires Inv(s) && Enabled(s, RecoverWrite)
    ensures Inv(Do(s, RecoverWrite))
  {
    NextWrite(s.io, s.disk);
  }

  lemma RecoverDoneOk(s: Log)
    requires Inv(s) && Enabled(s, RecoverDone)
    ensures Inv(Do(s, RecoverDone))
  {
    RecoveringRecoverable(s);
    assert s.h.hist[..|s.h.hist|] == s.h.hist;
  }

  lemma StepOk(s: Log, step: Step)
    requires Inv(s) && Enabled(s, step)
    ensures Inv(Do(s, step))
  {
    hide Inv, Do;
    match step
    case BeginOp(id) => BeginOpOk(s, id);
    case LogWrite(i, b, blk) => LogWriteOk(s, i, b, blk);
    case EndOp(i) => EndOpOk(s, i);
    case CommitWrite => CommitWriteOk(s);
    case CommitDone => CommitDoneOk(s);
    case SyncCall => SyncCallOk(s);
    case SyncReturn(j) => SyncReturnOk(s, j);
    case Crash => CrashOk(s);
    case RecoverWrite => RecoverWriteOk(s);
    case RecoverDone => RecoverDoneOk(s);
  }

  // ---- whole runs

  /** t is reached from s by these steps of the protocol. */
  ghost predicate Runs(s: Log, steps: seq<Step>, t: Log)
    decreases |steps|
  {
    if steps == [] then t == s
    else
      && Enabled(s, steps[0])
      && Runs(Do(s, steps[0]), steps[1..], t)
  }

  lemma {:induction false} RunsOk(s: Log, steps: seq<Step>, t: Log)
    requires Inv(s) && Runs(s, steps, t)
    ensures Inv(t)
    decreases |steps|
  {
    hide Inv, Do, Enabled;
    if steps != [] {
      StepOk(s, steps[0]);
      RunsOk(Do(s, steps[0]), steps[1..], t);
    }
  }

  /** Crash atomicity over whole runs: stop anywhere in any interleaving, crash any number of times
      during recovery, and let one recovery finish. The home blocks are then exactly those that the
      committed part of the history produces, the log is empty, and the committed part is made of
      whole operations that have ended. */
  lemma CrashAnywhere(s: Log, steps: seq<Step>, t: Log, ks: seq<nat>)
    requires Init(s) && Runs(s, steps, t)
    ensures t.h.committed <= |t.h.hist| == |t.h.who|
    ensures var e := Crashes(t.disk, t.start, ks);
            Readable(e, t.start) && Clean(Recover(e, t.start), t.start, CommittedHome(t.h))
    ensures forall j, k :: 0 <= j < t.h.committed <= k < |t.h.who| ==> t.h.who[j] != t.h.who[k]
    ensures forall j :: 0 <= j < t.h.committed ==> t.h.who[j] in t.h.ended
  {
    hide Apply, SameHome, Clean, Pending;
    InitOk(s);
    RunsOk(s, steps, t);
    AlwaysRecoverable(t);
    var home := CommittedHome(t.h);
    if Clean(t.disk, t.start, home) {
      RecoveryCompletes(t.disk, t.start, [], home, ks);
    } else {
      var lh :| Pending(t.disk, t.start, lh, home);
      RecoveryCompletes(t.disk, t.start, lh, home, ks);
    }
  }

  /** Log reservation: in every reachable state the log has room for everything that outstanding
      operations may still add; an idle log admits an operation; commit never overlaps an operation,
      so end_op never panics; and log_write panics exactly when the header is full, which needs every
      outstanding operation to have used up its reservation. */
  lemma Reservation(s: Log, steps: seq<Step>, t: Log, i: nat, b: nat, blk: Block)
    requires Init(s) && Runs(s, steps, t) && Running(t)
    ensures |t.lh| + Reserved(t.ops) <= LOGBLOCKS
    ensures t.committing ==> t.ops == []
    ensures t.ops == [] && !t.committing ==> t.lh == [] && forall id :: id !in t.h.begun ==> Enabled(t, BeginOp(id))
    ensures Enabled(t, EndOp(i)) ==> !Do(t, EndOp(i)).panicked
    ensures Enabled(t, LogWrite(i, b, blk)) ==>
              && (Do(t, LogWrite(i, b, blk)).panicked <==> |t.lh| == LOGBLOCKS)
              && (t.ops[i].used < MAXOPBLOCKS ==> !Do(t, LogWrite(i, b, blk)).panicked)
  {
    hide Runs, Apply, SameHome, Clean, Pending, SyncsOk, HistoryOk, HeaderOk;
    InitOk(s);
    RunsOk(s, steps, t);
    ReservedBounds(t.ops);
  }

  lemma InvSized(s: Log)
    requires Inv(s)
    ensures s.h.committed <= |s.h.hist| == |s.h.who|
  {
    hide SyncsOk, OpsOk, CommittingOk, IdleOk, RecoveringOk;
  }

  lemma CommittedStep(s: Log, step: Step)
    requires Inv(s) && Enabled(s, step)
    ensures var m := Do(s, step);
            && s.h.committed <= |s.h.hist| && s.h.committed <= m.h.committed <= |m.h.hist|
            && m.h.hist[..s.h.committed] == s.h.hist[..s.h.committed]
  {
    hide Inv;
    InvSized(s);
    StepOk(s, step);
    InvSized(Do(s, step));
  }

  /** What is committed stays committed, across any further steps and crashes. */
  lemma {:induction false} CommittedStays(s: Log, steps: seq<Step>, t: Log)
    requires Inv(s) && Runs(s, steps, t)
    ensures Inv(t) && s.h.committed <= |s.h.hist| && s.h.committed <= t.h.committed <= |t.h.hist|
    ensures t.h.hist[..s.h.committed] == s.h.hist[..s.h.committed]
    decreases |steps|
  {
    hide Inv, Do, Enabled;
    InvSized(s);
    if steps != [] {
      var m := Do(s, steps[0]);
      StepOk(s, steps[0]);
      CommittedStep(s, steps[0]);
      CommittedStays(m, steps[1..], t);
      assert t.h.hist[..s.h.committed] == t.h.hist[..m.h.committed][..s.h.committed];
      assert m.h.hist[..s.h.committed] == m.h.hist[..m.h.committed][..s.h.committed];
    }
  }

  lemma {:induction false} RunsAppend(s: Log, a: seq<Step>, t: Log, b: seq<Step>, u: Log)
    requires Runs(s, a, t) && Runs(t, b, u)
    ensures Runs(s, a + b, u)
    decreases |a|
  {
    hide Do, Enabled;
    if a == [] {
      assert a + b == b;
    } else {
      RunsAppend(Do(s, a[0]), a[1..], t, b, u);
      assert (a + b)[1..] == a[1..] + b;
    }
  }

  lemma RunsOne(s: Log, step: Step)
    requires Enabled(s, step)
    ensures Runs(s, [step], Do(s, step))
  {
    hide Do, Enabled;
    assert [step][1..] == [];
  }

  // ---- sys_sync

  /** The call of sys_sync with index k, made when `ended` had ended and `busy` says whether an operation or a
      commit was under way: it waits, for the next commit, exactly if so, and until that is done. */
  ghost predicate SyncAt(s: Log, k: nat, ended: set<nat>, ncommit: nat, busy: bool) {
    && k < |s.syncs| && s.syncs[k].ended == ended && s.ncommit >= ncommit
    && (s.syncs[k].Waiting? ==> busy && s.syncs[k].target == ncommit + 1)
    && (s.syncs[k].Returned? ==> busy ==> s.ncommit > ncommit)
  }

  lemma SyncAtStep(s: Log, step: Step, k: nat, ended: set<nat>, ncommit: nat, busy: bool)
    requires SyncAt(s, k, ended, ncommit, busy) && Enabled(s, step) && !step.Crash?
    ensures var m := Do(s, step);
            && SyncAt(m, k, ended, ncommit, busy) && m.ncommit == s.ncommit + (if step.CommitDone? then 1 else 0)
  {
  }

  lemma {:induction false} SyncAtRun(s: Log, steps: seq<Step>, t: Log, k: nat, ended: set<nat>, ncommit: nat,
                                     busy: bool)
    requires SyncAt(s, k, ended, ncommit, busy) && Runs(s, steps, t) && Crash !in steps
    ensures SyncAt(t, k, ended, ncommit, busy) && (t.ncommit > s.ncommit <==> CommitDone in steps)
            && t.ncommit >= s.ncommit
    decreases |steps|
  {
    hide Do, Enabled, SyncAt;
    if steps != [] {
      SyncAtStep(s, steps[0], k, ended, ncommit, busy);
      SyncAtRun(Do(s, steps[0]), steps[1..], t, k, ended, ncommit, busy);
      assert steps == [steps[0]] + steps[1..];
    }
  }

  lemma SyncCalled(s: Log)
    requires Enabled(s, SyncCall)
    ensures SyncAt(Do(s, SyncCall), |s.syncs|, s.h.ended, s.ncommit, s.committing || |s.ops| > 0)
  {
  }

  lemma ReturnedIsDurable(s: Log, k: nat, id: nat)
    requires Inv(s) && k < |s.syncs| && s.syncs[k].Returned? && id in s.syncs[k].ended
    ensures Durable(s.h, id)
  {
    assert SyncOk(s.syncs[k], s.ncommit, s.h);
  }

  /** Exactly when sys_sync returns: at once if no operation and no commit is under way, and otherwise as soon
      as a commit was finished after the call, and no earlier. */
  lemma SyncReturns(s: Log, before: seq<Step>, a: Log, during: seq<Step>, t: Log)
    requires Init(s) && Runs(s, before, a) && Enabled(a, SyncCall)
    requires Runs(Do(a, SyncCall), during, t) && Crash !in during
    ensures var k, idle := |a.syncs|, a.ops == [] && !a.committing;
            && k < |t.syncs|
            && (t.syncs[k].Returned? ==> idle || CommitDone in during)
            && (t.syncs[k].Waiting? ==> !idle)
            && (t.syncs[k].Waiting? && Running(t) ==> (Enabled(t, SyncReturn(k)) <==> CommitDone in during))
            && (Enabled(t, SyncReturn(k)) ==> Do(t, SyncReturn(k)).syncs[k].Returned?)
  {
    hide Runs, Init;
    SyncAtRun(Do(a, SyncCall), during, t, |a.syncs|, a.h.ended, a.ncommit, a.committing || |a.ops| > 0);
  }

  /** sys_sync: when a call has returned, every operation that had ended before it has all its
      writes in the committed history, and whatever happens afterwards, crashes included, recovery
      restores a history that starts with them. */
  lemma SyncIsDurable(s: Log, before: seq<Step>, a: Log, during: seq<Step>, t: Log, id: nat, later: seq<Step>, u: Log,
                      ks: seq<nat>)
    requires Init(s) && Runs(s, before, a) && Enabled(a, SyncCall) && id in a.h.ended
    requires Runs(Do(a, SyncCall), during, t) && Crash !in during
    requires |a.syncs| < |t.syncs| && t.syncs[|a.syncs|].Returned? && Runs(t, later, u)
    ensures Durable(t.h, id) && t.h.committed <= |t.h.hist| == |t.h.who|
    ensures forall k :: 0 <= k < |t.h.who| && t.h.who[k] == id ==> k < t.h.committed
    ensures t.h.committed <= u.h.committed <= |u.h.hist|
    ensures u.h.hist[..t.h.committed] == t.h.hist[..t.h.committed]
    ensures var e := Crashes(u.disk, u.start, ks);
            Readable(e, u.start) && Clean(Recover(e, u.start), u.start, CommittedHome(u.h))
  {
    hide Init, Inv, Do, Runs, Enabled, Recover, Crashes;
    InitOk(s);
    RunsOk(s, before, a);
    var m := Do(a, SyncCall);
    StepOk(a, SyncCall);
    RunsOk(m, during, t);
    SyncCalled(a);
    SyncAtRun(m, during, t, |a.syncs|, a.h.ended, a.ncommit, a.committing || |a.ops| > 0);
    ReturnedIsDurable(t, |a.syncs|, id);
    InvSized(t);
    CommittedStays(t, later, u);
    RunsOne(a, SyncCall);
    RunsAppend(s, before, a, [SyncCall], m);
    RunsAppend(s, before + [SyncCall], m, during, t);
    RunsAppend(s, before + [SyncCall] + during, t, later, u);
    CrashAnywhere(s, before + [SyncCall] + during + later, u, ks);
  }

  // ---- a commit comes to its end

  lemma AllWritten(s: Log)
    requires Inv(s) && Enabled(s, CommitDone)
    ensures forall id :: id in s.h.ended ==> Durable(Do(s, CommitDone).h, id)
    ensures var m := Do(s, CommitDone); Running(m) && !m.committing && m.ncommit == s.ncommit + 1 && m.ops == []
  {
    hide Apply, Clean, Pending, CommittedHome, OpsOk, SyncsOk;
    CommittingRecoverable(s);
  }

  lemma CommitWriteKeeps(s: Log)
    requires Enabled(s, CommitWrite)
    ensures var m := Do(s, CommitWrite);
            && Running(m) && m.committing && m.io.writes == s.io.writes && m.io.done == s.io.done + 1
            && m.ncommit == s.ncommit && m.h.ended == s.h.ended
  {
  }

  lemma IoRange(s: Log)
    requires Inv(s) && Running(s) && s.committing
    ensures s.io.done <= |s.io.writes|
  {
    hide SyncsOk, OpsOk, HeaderOk, FromOk, Apply;
  }

  lemma IdleTakes(s: Log)
    requires Inv(s) && Running(s) && !s.committing && s.ops == []
    ensures forall id :: id !in s.h.begun ==> Enabled(s, BeginOp(id))
  {
    hide HistoryOk, SyncsOk, OpsOk, HeaderOk, Clean;
  }

  /** Once a commit is under way, its remaining block writes make every operation that has ended durable, and
      the log takes operations again. */
  lemma {:induction false} CommitFinishes(s: Log) returns (steps: seq<Step>, t: Log)
    requires Inv(s) && Running(s) && s.committing
    ensures Runs(s, steps, t) && Running(t) && Inv(t) && t.ncommit == s.ncommit + 1
    ensures forall id :: id in s.h.ended ==> Durable(t.h, id)
    ensures forall id :: id !in t.h.begun ==> Enabled(t, BeginOp(id))
    decreases |s.io.writes| - s.io.done
  {
    hide Inv, Do, Runs, Durable;
    IoRange(s);
    if s.io.done == |s.io.writes| {
      AllWritten(s);
      RunsOne(s, CommitDone);
      StepOk(s, CommitDone);
      steps, t := [CommitDone], Do(s, CommitDone);
      IdleTakes(t);
    } else {
      CommitWriteKeeps(s);
      StepOk(s, CommitWrite);
      RunsOne(s, CommitWrite);
      var m := Do(s, CommitWrite);
      var rest: seq<Step>;
      rest, t := CommitFinishes(m);
      RunsAppend(s, [CommitWrite], m, rest, t);
      steps := [CommitWrite] + rest;
    }
  }

  // ---- the size check comes before absorption

  /** The blocks an operation has given to log_write. */
  ghost function OwnBlocks(h: History, id: nat): (s: set<nat>)
    requires |h.hist| == |h.who|
  {
    set k | 0 <= k < |h.hist| && h.who[k] == id :: h.hist[k].bno
  }

  ghost function Range(b: nat, n: nat): (s: set<nat>)
    ensures |s| == n && forall k :: k in s ==> b <= k < b + n
    decreases n
  {
    if n == 0 then {} else {b} + Range(b + 1, n - 1)
  }

  /** One more log_write. */
  lemma OwnBlocksMore(h: History, w: Write, id: nat, x: nat)
    requires |h.hist| == |h.who|
    ensures OwnBlocks(h.(hist := h.hist + [w], who := h.who + [id]), x) ==
            OwnBlocks(h, x) + if x == id then {w.bno} else {}
  {
    var h' := h.(hist := h.hist + [w], who := h.who + [id]);
    forall b | b in OwnBlocks(h, x) ensures b in OwnBlocks(h', x) {
      var k :| 0 <= k < |h.hist| && h.who[k] == x && h.hist[k].bno == b;
      assert h'.who[k] == x && h'.hist[k].bno == b;
    }
    if x == id { assert h'.who[|h.hist|] == x && h'.hist[|h.hist|].bno == w.bno; }
  }

  lemma RangeIs(b: nat, n: nat)
    ensures Range(b, n) == if n == 0 then {} else {b} + Range(b + 1, n - 1)
  {
  }

  lemma HasRoom(s: Log, i: nat)
    requires Inv(s) && i < |s.ops| && s.ops[i].used < MAXOPBLOCKS
    ensures |s.lh| < LOGBLOCKS
  {
    hide HistoryOk, SyncsOk, CommittingOk, IdleOk, RecoveringOk;
    ReservedBounds(s.ops);
  }

  /** One operation logs a block that is not in the header yet. */
  lemma FillStep(s: Log, i: nat, b: nat)
    requires Inv(s) && Running(s) && i < |s.ops| && s.ops[i].used < MAXOPBLOCKS
    requires s.start + LOGBLOCKS < b < |s.view| && b !in s.lh
    ensures Enabled(s, LogWrite(i, b, []))
    ensures var m := Do(s, LogWrite(i, b, []));
            && Inv(m) && Running(m) && m.start == s.start && |m.view| == |s.view| && m.lh == s.lh + [b]
            && m.ops == s.ops[i := Op(s.ops[i].id, s.ops[i].used + 1)]
            && |s.h.hist| == |s.h.who| && |m.h.hist| == |m.h.who|
            && forall x: nat :: OwnBlocks(m.h, x) == OwnBlocks(s.h, x) + if x == s.ops[i].id then {b} else {}
  {
    hide Inv, OwnBlocks;
    InvSized(s);
    HasRoom(s, i);
    StepOk(s, LogWrite(i, b, []));
    var m := Do(s, LogWrite(i, b, []));
    forall x: nat ensures OwnBlocks(m.h, x) == OwnBlocks(s.h, x) + if x == s.ops[i].id then {b} else {} {
      OwnBlocksMore(s.h, Write(b, []), s.ops[i].id, x);
    }
  }

  /** One operation logs n blocks that are not in the header yet. */
  lemma {:induction false} FillLog(s: Log, i: nat, b: nat, n: nat) returns (steps: seq<Step>, t: Log)
    requires Inv(s) && Running(s) && i < |s.ops| && s.ops[i].used + n <= MAXOPBLOCKS
    requires s.start + LOGBLOCKS < b && b + n <= |s.view|
    requires forall k :: k in s.lh ==> k < b
    ensures Runs(s, steps, t) && Inv(t) && Running(t)
    ensures t.start == s.start && |t.view| == |s.view|
    ensures |t.lh| == |s.lh| + n && s.lh <= t.lh && forall k :: k in t.lh ==> k < b + n
    ensures n > 0 ==> t.lh[|s.lh|] == b
    ensures t.ops == s.ops[i := Op(s.ops[i].id, s.ops[i].used + n)] && |s.h.hist| == |s.h.who|
            && |t.h.hist| == |t.h.who|
    ensures forall x: nat :: OwnBlocks(t.h, x) == OwnBlocks(s.h, x) + if x == s.ops[i].id then Range(b, n) else {}
    decreases n
  {
    hide Inv, OwnBlocks, Range, Do, Enabled;
    InvSized(s);
    RangeIs(b, n);
    if n == 0 {
      steps, t := [], s;
    } else {
      FillStep(s, i, b);
      var rest: seq<Step>;
      rest, t := FillLog(Do(s, LogWrite(i, b, [])), i, b + 1, n - 1);
      steps := [LogWrite(i, b, [])] + rest;
      assert steps[1..] == rest;
    }
  }

  lemma HeaderIsHome(s: Log)
    requires Inv(s) && s.mode == Up
    ensures forall i :: 0 <= i < |s.lh| ==> s.lh[i] < |s.view| && !InLog(s.start, s.lh[i])
  {
    hide Apply, SyncsOk, HistoryOk, OpsOk, Clean;
  }

  lemma BeginThree(s: Log) returns (steps: seq<Step>, t: Log)
    requires Init(s)
    ensures Runs(s, steps, t) && Inv(t) && Running(t) && t.ops == [Op(0, 0), Op(1, 0), Op(2, 0)]
    ensures t.lh == [] && t.start == s.start && t.view == s.view && t.h.hist == [] && t.h.who == []
  {
    InitOk(s);
    hide Inv;
    var s1 := Do(s, BeginOp(0));
    StepOk(s, BeginOp(0));
    var s2 := Do(s1, BeginOp(1));
    StepOk(s1, BeginOp(1));
    t := Do(s2, BeginOp(2));
    StepOk(s2, BeginOp(2));
    assert Runs(s, [BeginOp(0)], s1) && Runs(s1, [BeginOp(1)], s2) && Runs(s2, [BeginOp(2)], t);
    RunsAppend(s, [BeginOp(0)], s1, [BeginOp(1)], s2);
    RunsAppend(s, [BeginOp(0)] + [BeginOp(1)], s2, [BeginOp(2)], t);
    steps := [BeginOp(0)] + [BeginOp(1)] + [BeginOp(2)];
  }

  lemma NoBlocks(h: History)
    requires h.hist == [] && h.who == []
    ensures forall x: nat :: OwnBlocks(h, x) == {}
  {
  }

  /** No operation gives more than MAXOPBLOCKS distinct blocks to log_write. */
  ghost predicate Disciplined(h: History) {
    |h.hist| == |h.who| && forall id: nat :: |OwnBlocks(h, id)| <= MAXOPBLOCKS
  }

  /** A block of the operation's own adds nothing. */
  lemma SameBlocks(h: History, b: nat, id: nat, x: nat)
    requires |h.hist| == |h.who| && b in OwnBlocks(h, id)
    ensures OwnBlocks(h.(hist := h.hist + [Write(b, [])], who := h.who + [id]), x) == OwnBlocks(h, x)
  {
    OwnBlocksMore(h, Write(b, []), id, x);
    hide OwnBlocks;
  }

  lemma StillDisciplined(h: History, b: nat, id: nat)
    requires Disciplined(h) && b in OwnBlocks(h, id)
    ensures Disciplined(h.(hist := h.hist + [Write(b, [])], who := h.who + [id]))
  {
    hide OwnBlocks;
    forall x: nat
      ensures |OwnBlocks(h.(hist := h.hist + [Write(b, [])], who := h.who + [id]), x)| <= MAXOPBLOCKS
    {
      SameBlocks(h, b, id, x);
    }
  }

  /** Three operations log MAXOPBLOCKS blocks each. */
  lemma ThreeFull(s: Log) returns (steps: seq<Step>, t: Log)
    requires Init(s) && s.start + LOGBLOCKS + 1 + LOGBLOCKS <= |s.view|
    ensures Runs(s, steps, t) && Inv(t) && Running(t) && |t.ops| == 3 && t.ops[0].id == 0
    ensures |t.lh| == LOGBLOCKS && t.lh[0] == s.start + LOGBLOCKS + 1
    ensures |t.h.hist| == |t.h.who| && t.lh[0] in OwnBlocks(t.h, 0) && Disciplined(t.h)
  {
    hide Inv, Runs, OwnBlocks, Range;
    var b := s.start + LOGBLOCKS + 1;
    var begins, s3 := BeginThree(s);
    var f0, t0 := FillLog(s3, 0, b, MAXOPBLOCKS);
    var f1, t1 := FillLog(t0, 1, b + MAXOPBLOCKS, MAXOPBLOCKS);
    var f2, t2 := FillLog(t1, 2, b + 2 * MAXOPBLOCKS, MAXOPBLOCKS);
    t := t2;
    NoBlocks(s3.h);
    assert b in Range(b, MAXOPBLOCKS) by { RangeIs(b, MAXOPBLOCKS); }
    RunsAppend(s, begins, s3, f0, t0);
    RunsAppend(s, begins + f0, t0, f1, t1);
    RunsAppend(s, begins + f0 + f1, t1, f2, t2);
    steps := begins + f0 + f1 + f2;
  }

  /** Logging at most MAXOPBLOCKS distinct blocks per operation does not keep log_write from
      panicking: three operations that each logged ten blocks fill the header, and then even a
      write that would be absorbed, of a block the operation logged itself, hits "too big a
      transaction". */
  lemma AbsorbedWriteCanPanic(s: Log) returns (steps: seq<Step>, t: Log, b: nat)
    requires Init(s) && s.start + LOGBLOCKS + 1 + LOGBLOCKS <= |s.view|
    ensures Runs(s, steps, t) && Running(t) && b in t.lh
    ensures Disciplined(t.h) && |t.ops| > 0 && b in OwnBlocks(t.h, t.ops[0].id)
    ensures Disciplined(t.h.(hist := t.h.hist + [Write(b, [])], who := t.h.who + [t.ops[0].id]))
    ensures Enabled(t, LogWrite(0, b, [])) && Do(t, LogWrite(0, b, [])).panicked
  {
    hide Inv, Runs, OwnBlocks, Disciplined;
    steps, t := ThreeFull(s);
    b := t.lh[0];
    StillDisciplined(t.h, b, 0);
    assert !InLog(t.start, b) && b < |t.view| by { HeaderIsHome(t); }
  }
}
