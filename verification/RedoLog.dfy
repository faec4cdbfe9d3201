/** commit() and recovery of kernel/log.c, block by block through the buffer cache. Every method
    that needs buffers returns false for the panic "bget: no buffers", which stops the kernel: the
    disk writes issued until then are a prefix of those of the complete operation. */
module RedoLog {
  import opened Collections
  import opened CrashLog
  import opened BufferCache

  /** Buffer at[b] is pinned once for each block b of the map, and no other buffer is pinned. */
  ghost predicate Pinned(bufs: seq<Buf>, pins: seq<nat>, at: map<nat, nat>) {
    && |bufs| == |pins|
    && (forall b :: b in at ==> Caches(bufs, at[b], b) && pins[at[b]] == 1)
    && (forall i :: 0 <= i < |bufs| && pins[i] > 0 ==> bufs[i].blockno in at && at[bufs[i].blockno] == i)
  }

  /** The pinned blocks are those of the in-memory log header. */
  ghost predicate Covers(at: map<nat, nat>, lh: seq<nat>) {
    && (forall k :: 0 <= k < |lh| ==> lh[k] in at)
    && (forall b :: b in at ==> b in lh)
  }

  ghost predicate OnlyLocked(bufs: seq<Buf>, locked: set<nat>) {
    forall i :: 0 <= i < |bufs| ==> (bufs[i].locked <==> i in locked)
  }

  /** The buffers, reference counts and locks after bread of block b gave buffer i. */
  lemma PinnedAfterRead(bufs: seq<Buf>, bufs': seq<Buf>, g: Ghost, g': Ghost, i: nat, b: nat, at: map<nat, nat>,
                        locked: set<nat>)
    requires RefsOk(bufs, g.holds, g.pins) && Pinned(bufs, g.pins, at) && OnlyLocked(bufs, locked)
    requires i < NBUF && Held(bufs, bufs', g, g', i, b)
    ensures Pinned(bufs', g'.pins, at) && OnlyLocked(bufs', locked + {i}) && i !in locked
  {
    forall j | 0 <= j < NBUF && g.pins[j] > 0 ensures bufs'[j].blockno == bufs[j].blockno {
      assert bufs[j].refcnt > 0;
    }
    forall c | c in at ensures Caches(bufs', at[c], c) {
      assert bufs[at[c]].refcnt > 0;
    }
  }

  predicate OnDisk(view: Disk, disk: Disk, b: nat) {
    b < |view| && b < |disk| && view[b] == disk[b]
  }

  /** With no buffer locked, a block whose contents are not on disk is pinned. */
  lemma QuietOnDisk(bufs: seq<Buf>, g: Ghost, disk: Disk, b: nat, at: map<nat, nat>)
    requires DataOk(bufs, g.pins, disk, g.view) && OnlyLocked(bufs, {}) && Pinned(bufs, g.pins, at)
    requires b < |disk| && b !in at
    ensures OnDisk(g.view, disk, b)
  {
  }

  // ---- buffers to spare

  /** The buffers that nobody holds and the log does not pin. */
  ghost function Spare(holds: seq<nat>, at: map<nat, nat>): (s: set<nat>) {
    set i: nat | i < |holds| && holds[i] == 0 && i !in at.Values
  }

  /** Nobody but the log refers to a buffer. */
  ghost predicate Quiet(holds: seq<nat>) { forall i :: 0 <= i < |holds| ==> holds[i] == 0 }

  /** One of them can be had for any block. */
  lemma SpareAvailable(bufs: seq<Buf>, g: Ghost, at: map<nat, nat>, b: nat)
    requires RefsOk(bufs, g.holds, g.pins) && Pinned(bufs, g.pins, at) && Spare(g.holds, at) != {}
    ensures Available(bufs, b)
  {
    var i :| i in Spare(g.holds, at);
    assert bufs[i].refcnt == 0;
  }

  /** A pinned block has its buffer. */
  lemma PinnedAvailable(bufs: seq<Buf>, pins: seq<nat>, at: map<nat, nat>, b: nat)
    requires Pinned(bufs, pins, at) && b in at
    ensures Available(bufs, b)
  {
    assert Caches(bufs, at[b], b);
  }

  /** Without any, only the pinned blocks have a buffer. */
  lemma NoneAvailable(bufs: seq<Buf>, g: Ghost, at: map<nat, nat>, b: nat)
    requires RefsOk(bufs, g.holds, g.pins) && Pinned(bufs, g.pins, at) && Quiet(g.holds)
    requires Spare(g.holds, at) == {} && b !in at
    ensures !Available(bufs, b)
  {
    forall i | 0 <= i < |bufs| ensures bufs[i].refcnt > 0 && !IsFor(bufs[i], ROOTDEV, b) {
      assert i !in Spare(g.holds, at);
      var c :| c in at && at[c] == i;
      assert Caches(bufs, at[c], c);
    }
  }

  /** The buffers that are pinned for a header. */
  ghost function PinnedFor(at: map<nat, nat>, lh: seq<nat>): (s: seq<nat>)
    requires Covers(at, lh)
  {
    seq(|lh|, k requires 0 <= k < |lh| => at[lh[k]])
  }

  lemma SpareIs(holds: seq<nat>, at: map<nat, nat>, lh: seq<nat>, i: nat)
    requires Covers(at, lh) && Quiet(holds) && i < |holds|
    ensures i in Spare(holds, at) <==> i !in PinnedFor(at, lh)
  {
    if i in at.Values {
      var b :| b in at && at[b] == i;
      var k :| 0 <= k < |lh| && lh[k] == b;
      assert PinnedFor(at, lh)[k] == i;
    }
  }

  /** The log pins a buffer of its own for every block in the header. */
  lemma SpareSize(bufs: seq<Buf>, g: Ghost, at: map<nat, nat>, lh: seq<nat>)
    requires RefsOk(bufs, g.holds, g.pins) && Pinned(bufs, g.pins, at) && Quiet(g.holds)
    requires Covers(at, lh) && Distinct(lh)
    ensures |Spare(g.holds, at)| == NBUF - |lh|
  {
    var us, all := PinnedFor(at, lh), seq(NBUF, k => k);
    forall j, k | 0 <= j < k < |us| ensures us[j] != us[k] {
      assert Caches(bufs, at[lh[j]], lh[j]) && Caches(bufs, at[lh[k]], lh[k]);
    }
    SizeOf(us);
    SizeOf(all);
    var used, each := Elems(us), Elems(all);
    forall i | i in used ensures 0 <= i < NBUF {
      var k :| 0 <= k < |us| && us[k] == i;
      assert Caches(bufs, at[lh[k]], lh[k]);
    }
    forall i: nat | i < NBUF ensures i in each && (i in Spare(g.holds, at) <==> i !in used) {
      assert all[i] == i;
      SpareIs(g.holds, at, lh, i);
    }
    hide PinnedFor;
    assert used <= each;
    assert Spare(g.holds, at) == each - used;
  }

  /** Only when the header is as long as the cache has buffers, none is left for the log blocks. */
  lemma FullHeader(bufs: seq<Buf>, g: Ghost, d: Disk, start: nat, at: map<nat, nat>, lh: seq<nat>)
    requires RefsOk(bufs, g.holds, g.pins) && Pinned(bufs, g.pins, at) && Quiet(g.holds)
    requires Covers(at, lh) && HomeBlocks(d, start, lh) && |lh| <= LOGBLOCKS
    ensures Spare(g.holds, at) == {} <==> |lh| == NBUF
    ensures |lh| == NBUF ==> forall b :: InLog(start, b) ==> !Available(bufs, b)
  {
    SpareSize(bufs, g, at, lh);
    hide Pinned, Quiet, RefsOk, Spare, Available;
    if |lh| == NBUF {
      forall b | InLog(start, b) ensures !Available(bufs, b) { NoneAvailable(bufs, g, at, b); }
    }
  }

  /** Two references more, to different buffers. */
  ghost predicate Took(holds: seq<nat>, holds': seq<nat>, i: nat, j: nat) {
    && |holds'| == |holds| && i != j
    && forall k :: 0 <= k < |holds| ==> holds'[k] == holds[k] + if k == i || k == j then 1 else 0
  }

  lemma GaveBack(holds: seq<nat>, holds1: seq<nat>, holds2: seq<nat>, i: nat, j: nat)
    requires Took(holds, holds1, i, j) && (Took(holds2, holds1, i, j) || Took(holds2, holds1, j, i))
    ensures holds2 == holds
  {
  }

  /** With one of them taken, all the others are still there. */
  lemma SpareTaken(holds: seq<nat>, at: map<nat, nat>, i: nat)
    requires i < |holds| && |Spare(holds, at)| >= 2
    ensures Spare(holds[i := holds[i] + 1], at) != {}
  {
    var s := Spare(holds, at);
    assert Spare(holds[i := holds[i] + 1], at) == s - {i};
    if s <= {i} { SubsetSize(s, {i}); }
  }

  lemma SpareGrows(holds: seq<nat>, at: map<nat, nat>, b: nat)
    ensures |Spare(holds, at)| <= |Spare(holds, at - {b})|
  {
    SubsetSize(Spare(holds, at), Spare(holds, at - {b}));
  }

  /** Enough of them for install_trans, which in recovery does not find its home blocks pinned. */
  ghost predicate Suffice(holds: seq<nat>, at: map<nat, nat>, recovering: bool) {
    |Spare(holds, at)| >= if recovering then 2 else 1
  }

  // ---- the blocks of an operation

  /** The blocks that are written. */
  ghost function Blocks(ws: seq<Write>): (s: set<nat>) { set k | 0 <= k < |ws| :: ws[k].bno }

  /** The header lists the blocks of the first k writes, and no others. */
  ghost predicate Logs(lh: seq<nat>, ws: seq<Write>, k: nat) {
    && k <= |ws| && (forall j :: 0 <= j < k ==> ws[j].bno in lh) && (k > 0 ==> lh != [])
    && forall b :: b in lh ==> b in Blocks(ws[..k])
  }

  lemma LogsNothing(ws: seq<Write>)
    ensures Logs([], ws, 0)
  {
  }

  /** So it is as long as they are many. */
  lemma LogsSize(lh: seq<nat>, ws: seq<Write>, k: nat)
    requires Logs(lh, ws, k) && Distinct(lh)
    ensures |lh| == |Blocks(ws[..k])| <= |Blocks(ws)|
  {
    SizeOf(lh);
    assert Elems(lh) == Blocks(ws[..k]);
    SubsetSize(Blocks(ws[..k]), Blocks(ws));
  }

  lemma LogsMore(lh: seq<nat>, lh': seq<nat>, ws: seq<Write>, k: nat)
    requires k < |ws| && Logs(lh, ws, k) && lh' == if ws[k].bno in lh then lh else lh + [ws[k].bno]
    ensures Logs(lh', ws, k + 1)
  {
    assert forall x :: x in lh ==> x in lh';
    assert ws[k].bno in lh';
    assert Blocks(ws[..k + 1]) == Blocks(ws[..k]) + {ws[k].bno};
  }

  lemma LockGone(bufs: seq<Buf>, bufs1: seq<Buf>, bufs': seq<Buf>, i: nat)
    requires OnlyLocked(bufs, {} + {i}) && i < |bufs| == |bufs1| == |bufs'| && !bufs'[i].locked
    requires forall k :: 0 <= k < |bufs| ==> bufs1[k].locked == bufs[k].locked
    requires forall k :: 0 <= k < |bufs| && k != i ==> bufs'[k] == bufs1[k]
    ensures OnlyLocked(bufs', {})
  {
  }

  /** What a crash on disk d', ks times more during recovery, leaves of the writes ws to d. */
  ghost predicate AllOrNothing(d: Disk, d': Disk, start: nat, ws: seq<Write>, ok: bool, ks: seq<nat>) {
    var e := Crashes(d', start, ks);
    && Readable(e, start)
    && (Clean(Recover(e, start), start, d) || Clean(Recover(e, start), start, Apply(d, ws)))
    && (ok ==> Clean(Recover(e, start), start, Apply(d, ws)))
  }

  // ---- buffers and pins

  lemma NoLocks(bufs: seq<Buf>)
    requires OnlyLocked(bufs, {})
    ensures forall i :: 0 <= i < |bufs| ==> !bufs[i].locked
  {
  }

  /** After bread of block b gave buffer i, with some buffers locked before. */
  ghost predicate Fetched(bufs: seq<Buf>, bufs': seq<Buf>, g: Ghost, g': Ghost, at: map<nat, nat>, locked: set<nat>,
                          i: nat, b: nat) {
    && i < NBUF == |g.holds| && i !in locked && Caches(bufs', i, b)
    && Pinned(bufs', g'.pins, at) && OnlyLocked(bufs', locked + {i})
    && |bufs'| == |bufs| && (forall k :: 0 <= k < |bufs| && k != i ==> bufs'[k] == bufs[k])
    && g'.holds == g.holds[i := g.holds[i] + 1]
  }

  /** The second buffer of two, once the first is taken: its block is unlocked, and a buffer can be had. */
  lemma FetchedOne(bufs: seq<Buf>, bufs': seq<Buf>, g: Ghost, g': Ghost, at: map<nat, nat>, i: nat, a: nat, b: nat)
    requires Fetched(bufs, bufs', g, g', at, {}, i, a) && a != b && RefsOk(bufs', g'.holds, g'.pins)
    ensures Pinned(bufs', g'.pins, at) && OnlyLocked(bufs', {} + {i})
    ensures forall k :: 0 <= k < |bufs'| && IsFor(bufs'[k], ROOTDEV, b) ==> !bufs'[k].locked
    ensures b in at || |Spare(g.holds, at)| >= 2 ==> Available(bufs', b)
  {
    hide RefsOk, Pinned, Spare, Available;
    if b in at {
      PinnedAvailable(bufs', g'.pins, at, b);
    } else if |Spare(g.holds, at)| >= 2 {
      SpareTaken(g.holds, at, i);
      SpareAvailable(bufs', g', at, b);
    }
  }

  lemma FetchedTwo(bufs: seq<Buf>, bufs1: seq<Buf>, bufs2: seq<Buf>, g: Ghost, g1: Ghost, g2: Ghost,
                   at: map<nat, nat>, i: nat, a: nat, j: nat, b: nat)
    requires Fetched(bufs, bufs1, g, g1, at, {}, i, a) && Fetched(bufs1, bufs2, g1, g2, at, {} + {i}, j, b)
    ensures i < NBUF && j < NBUF && i != j && Pinned(bufs2, g2.pins, at) && OnlyLocked(bufs2, {i, j})
    ensures Caches(bufs2, i, a) && Caches(bufs2, j, b) && Took(g.holds, g2.holds, i, j)
  {
    hide Pinned;
    assert {} + {i} + {j} == {i, j};
  }

  /** One block was copied from block a to block b, on disk as well. */
  ghost predicate Copied(g: Ghost, g': Ghost, a: nat, b: nat) {
    && a < |g.view| && b < |g.view|
    && g'.view == g.view[b := g.view[a]]
    && g'.first == g.first
    && g'.trace == g.trace + [Write(b, g.view[a])]
  }

  lemma CopiedOk(g: Ghost, g': Ghost, a: nat, b: nat, blk: Block)
    requires a < |g.view| && b < |g.view| && blk == g.view[a]
    requires g'.view == g.view[b := blk] && g'.first == g.first && g'.trace == g.trace + [Write(b, blk)]
    ensures Copied(g, g', a, b)
  {
  }

  lemma CachedData(bufs: seq<Buf>, g: Ghost, disk: Disk, i: nat)
    requires DataOk(bufs, g.pins, disk, g.view) && i < |bufs| && Caches(bufs, i, bufs[i].blockno)
    ensures bufs[i].blockno < |disk| == |g.view| && bufs[i].data == g.view[bufs[i].blockno]
  {
  }

  lemma DifferentBlocks(bufs: seq<Buf>, i: nat, j: nat)
    requires Unique(bufs) && i < |bufs| && j < |bufs| && i != j
    requires Caches(bufs, i, bufs[i].blockno) && Caches(bufs, j, bufs[j].blockno)
    ensures bufs[i].blockno != bufs[j].blockno
  {
    OnlyBuffer(bufs, i, j);
  }

  lemma PinOf(bufs: seq<Buf>, pins: seq<nat>, at: map<nat, nat>, j: nat)
    requires Pinned(bufs, pins, at) && Unique(bufs) && j < |bufs|
    requires Caches(bufs, j, bufs[j].blockno) && bufs[j].blockno in at
    ensures at[bufs[j].blockno] == j && pins[j] == 1
  {
    var k := at[bufs[j].blockno];
    if k != j {
      OnlyBuffer(bufs, j, k);
    }
  }

  /** The copied-from buffer is pinned or on disk. */
  lemma SourceSettled(bufs: seq<Buf>, g: Ghost, disk: Disk, i: nat, at: map<nat, nat>)
    requires Unique(bufs) && DataOk(bufs, g.pins, disk, g.view) && Pinned(bufs, g.pins, at)
    requires i < |bufs| && Caches(bufs, i, bufs[i].blockno)
    requires bufs[i].blockno in at || OnDisk(g.view, disk, bufs[i].blockno)
    ensures Settled(bufs, g.pins, disk, i)
  {
    if bufs[i].blockno in at {
      PinOf(bufs, g.pins, at, i);
    }
  }

  /** Pins do not depend on data, lock bits or reference counts. */
  lemma PinnedSame(bufs: seq<Buf>, bufs': seq<Buf>, pins: seq<nat>, at: map<nat, nat>)
    requires Pinned(bufs, pins, at) && |bufs'| == |bufs|
    requires forall k :: 0 <= k < |bufs| ==>
               bufs'[k].dev == bufs[k].dev && bufs'[k].blockno == bufs[k].blockno && bufs'[k].valid == bufs[k].valid
    ensures Pinned(bufs', pins, at)
  {
  }

  lemma Unpinned(bufs: seq<Buf>, bufs': seq<Buf>, pins: seq<nat>, at: map<nat, nat>, j: nat)
    requires Pinned(bufs, pins, at) && j < |bufs| && pins[j] == 1 && |bufs'| == |bufs|
    requires forall k :: 0 <= k < |bufs| ==>
               bufs'[k].dev == bufs[k].dev && bufs'[k].blockno == bufs[k].blockno && bufs'[k].valid == bufs[k].valid
    ensures Pinned(bufs', pins[j := 0], at - {bufs[j].blockno})
  {
  }

  // ---- what the loops have done so far

  /** The disk writes since trace0 are a prefix of ws, all of it when ok. */
  ghost predicate Traced(trace0: seq<Write>, trace: seq<Write>, ws: seq<Write>, ok: bool) {
    exists k :: 0 <= k <= |ws| && (ok ==> k == |ws|) && trace == trace0 + ws[..k]
  }

  lemma TracedPrefix(trace0: seq<Write>, ws: seq<Write>, k: nat)
    requires k <= |ws|
    ensures Traced(trace0, trace0 + ws[..k], ws, false)
  {
  }

  lemma TracedAll(trace0: seq<Write>, ws: seq<Write>)
    ensures Traced(trace0, trace0 + ws[..|ws|], ws, true)
  {
  }

  lemma TracedStart(trace0: seq<Write>, ws: seq<Write>)
    ensures trace0 == trace0 + ws[..0]
  {
  }

  lemma HomeInRange(d: Disk, start: nat, lh: seq<nat>)
    requires HomeBlocks(d, start, lh)
    ensures forall i :: 0 <= i < |lh| ==> lh[i] < |d| && !InLog(start, lh[i])
  {
  }

  lemma HomeKeep(d: Disk, d': Disk, start: nat, lh: seq<nat>)
    requires HomeBlocks(d, start, lh) && |d'| == |d|
    ensures HomeBlocks(d', start, lh)
  {
  }

  lemma ViewSize(bufs: seq<Buf>, g: Ghost, disk: Disk)
    requires DataOk(bufs, g.pins, disk, g.view)
    ensures |g.view| == |disk|
  {
  }

  /** The first n log blocks hold the data; every other block is as it was. */
  ghost predicate LoggedIn(view: Disk, view0: Disk, start: nat, data: seq<Block>, n: nat) {
    && n <= |data| && |view| == |view0| && start + n < |view|
    && (forall k :: 0 <= k < n ==> view[start + 1 + k] == data[k])
    && (forall b :: 0 <= b < |view| && (b <= start || start + n < b) ==> view[b] == view0[b])
  }

  lemma LoggedStart(view0: Disk, start: nat, data: seq<Block>)
    requires start < |view0|
    ensures LoggedIn(view0, view0, start, data, 0)
  {
  }

  lemma LogStep(g: Ghost, g': Ghost, trace0: seq<Write>, view0: Disk, start: nat, lh: seq<nat>, data: seq<Block>,
                n: nat)
    requires n < |lh| <= LOGBLOCKS && start + LOGBLOCKS < |g.view| == |view0|
    requires forall i :: 0 <= i < |lh| ==> lh[i] < |view0| && !InLog(start, lh[i])
    requires data == Transaction(lh, view0).data
    requires LoggedIn(g.view, view0, start, data, n) && g.trace == trace0 + LogWrites(start, data)[..n]
    requires Copied(g, g', lh[n], start + n + 1)
    ensures LoggedIn(g'.view, view0, start, data, n + 1)
    ensures g'.trace == trace0 + LogWrites(start, data)[..n + 1]
  {
    var ws := LogWrites(start, data);
    assert ws[..n + 1] == ws[..n] + [ws[n]];
  }

  lemma LocksDropped(bufs: seq<Buf>, bufs': seq<Buf>, i: nat)
    requires OnlyLocked(bufs, {} + {i}) && i < |bufs| == |bufs'| && !bufs'[i].locked
    requires forall k :: 0 <= k < |bufs| && k != i ==> bufs'[k] == bufs[k]
    ensures OnlyLocked(bufs', {})
  {
  }

  /** write_head's loop over the header block. */
  method FillHeader(h: Block, lh: seq<nat>) returns (hb: Block)
    requires |h| == BLOCK_WORDS && |lh| <= LOGBLOCKS
    ensures hb == PutHeader(h, lh)
  {
    hb := h[0 := |lh|];
    var i := 0;
    while i < |lh|
      invariant 0 <= i <= |lh| && |hb| == BLOCK_WORDS
      invariant hb[0] == |lh| && forall k :: 0 <= k < i ==> hb[1 + k] == lh[k]
      invariant forall k :: 1 + i <= k < BLOCK_WORDS ==> hb[k] == h[k]
    {
      hb := hb[1 + i := lh[i]];
      i := i + 1;
    }
  }

  /** The first n logged blocks are installed; every other block is as it was. */
  ghost predicate InstalledIn(view: Disk, view0: Disk, lh: seq<nat>, data: seq<Block>, n: nat) {
    && n <= |lh| == |data| && |view| == |view0|
    && (forall k :: 0 <= k < n ==> lh[k] < |view| && view[lh[k]] == data[k])
    && (forall b :: 0 <= b < |view| && b !in lh[..n] ==> view[b] == view0[b])
  }

  lemma InstalledStart(view0: Disk, lh: seq<nat>, data: seq<Block>)
    requires |lh| == |data|
    ensures InstalledIn(view0, view0, lh, data, 0)
  {
  }

  lemma InstallStep(g: Ghost, g': Ghost, trace0: seq<Write>, view0: Disk, start: nat, lh: seq<nat>, data: seq<Block>,
                    n: nat)
    requires n < |lh| == |data| <= LOGBLOCKS && start + LOGBLOCKS < |g.view| == |view0|
    requires HomeBlocks(view0, start, lh) && data == LogData(view0, start, |lh|)
    requires InstalledIn(g.view, view0, lh, data, n) && g.trace == trace0 + InstallWrites(lh, data)[..n]
    requires Copied(g, g', start + n + 1, lh[n])
    ensures InstalledIn(g'.view, view0, lh, data, n + 1)
    ensures g'.trace == trace0 + InstallWrites(lh, data)[..n + 1]
  {
    var ws := InstallWrites(lh, data);
    assert ws[..n + 1] == ws[..n] + [ws[n]];
    assert lh[..n + 1] == lh[..n] + [lh[n]];
    assert start + n + 1 !in lh[..n];
    assert g.view[start + n + 1] == data[n];
  }

  lemma CoversStart(lh: seq<nat>)
    ensures lh[0..] == lh
  {
  }

  lemma CoversFirst(at: map<nat, nat>, lh: seq<nat>, n: nat, recovering: bool)
    requires n < |lh| && (recovering || Covers(at, lh[n..]))
    ensures recovering || lh[n] in at
  {
    assert lh[n..][0] == lh[n];
  }

  lemma CoversNext(at: map<nat, nat>, lh: seq<nat>, n: nat, d: Disk, start: nat)
    requires n < |lh| && Covers(at, lh[n..]) && HomeBlocks(d, start, lh)
    ensures Covers(at - {lh[n]}, lh[n + 1..])
  {
    var rest := lh[n + 1..];
    forall k | 0 <= k < |rest| ensures rest[k] in at - {lh[n]} {
      assert rest[k] == lh[n..][k + 1];
    }
    forall b | b in at - {lh[n]} ensures b in lh[n + 1..] {
      var k :| 0 <= k < |lh[n..]| && lh[n..][k] == b;
      assert lh[n + 1..][k - 1] == b;
    }
  }

  lemma CoversNone(at: map<nat, nat>, lh: seq<nat>, recovering: bool)
    requires if recovering then at == map[] else Covers(at, lh[|lh|..])
    ensures at == map[]
  {
    if !recovering {
      assert lh[|lh|..] == [];
    }
  }

  // ---- commit and recovery as a whole

  /** Some first part of the writes ws took the disk from d to d', all of them when ok. */
  ghost predicate Issued(d: Disk, d': Disk, ws: seq<Write>, ok: bool) {
    exists k :: 0 <= k <= |ws| && (ok ==> k == |ws|) && d' == Apply(d, ws[..k])
  }

  lemma IssuedOk(disk0: Disk, disk: Disk, g: Ghost, trace0: seq<Write>, ws: seq<Write>, ok: bool)
    requires disk0 == Apply(g.first, trace0) && disk == Apply(g.first, g.trace)
    requires Traced(trace0, g.trace, ws, ok)
    ensures Issued(disk0, disk, ws, ok)
  {
    var k :| 0 <= k <= |ws| && (ok ==> k == |ws|) && g.trace == trace0 + ws[..k];
    ApplyAppend(g.first, trace0, ws[..k]);
  }

  /** install_trans and the second write_head, given the header and the log blocks in the cache. */
  function ClearWrites(view: Disk, start: nat, lh: seq<nat>): (ws: seq<Write>)
    requires start + |lh| < |view| && |view[start]| == BLOCK_WORDS
  {
    InstallWrites(lh, LogData(view, start, |lh|)) + [Write(start, PutHeader(view[start], []))]
  }

  lemma CommitTailIs(view2: Disk, view0: Disk, start: nat, tx: Tx, ws: seq<Write>)
    requires start < |view0| && |view0[start]| == BLOCK_WORDS && |tx.lh| == |tx.data| <= LOGBLOCKS
    requires start + |tx.lh| < |view2| && view2[start] == PutHeader(view0[start], tx.lh)
    requires forall k :: 0 <= k < |tx.data| ==> view2[start + 1 + k] == tx.data[k]
    requires ws == CommitWrites(view0[start], start, tx)
    ensures ws == LogWrites(start, tx.data) + [Write(start, view2[start])] + ClearWrites(view2, start, tx.lh)
    ensures ws[|tx.lh| + 1..] == ClearWrites(view2, start, tx.lh)
  {
    assert LogData(view2, start, |tx.lh|) == tx.data;
    CommitTail(view0[start], start, tx, 0, ClearWrites(view2, start, tx.lh));
  }

  lemma CommitParts(h: Block, start: nat, tx: Tx)
    requires |h| == BLOCK_WORDS && |tx.lh| == |tx.data| <= LOGBLOCKS
    ensures var ws := CommitWrites(h, start, tx);
            var a := LogWrites(start, tx.data);
            && |a| == |tx.data| && |a| < |ws|
            && a + ws[|a|..] == ws
            && a + [Write(start, PutHeader(h, tx.lh))] + ws[|a| + 1..] == ws
  {
  }

  /** The first part of a longer list of writes. */
  lemma TracedFirst(trace0: seq<Write>, trace: seq<Write>, part: seq<Write>, rest: seq<Write>, ok: bool)
    requires Traced(trace0, trace, part, ok)
    ensures Traced(trace0, trace, part + rest, false)
    ensures ok ==> trace == trace0 + part
  {
    var k :| 0 <= k <= |part| && (ok ==> k == |part|) && trace == trace0 + part[..k];
    assert (part + rest)[..k] == part[..k];
    assert part[..|part|] == part;
  }

  /** The last part of a list of writes whose beginning has all been issued. */
  lemma TracedLast(trace0: seq<Write>, trace1: seq<Write>, trace: seq<Write>, done: seq<Write>, part: seq<Write>,
                   ok: bool)
    requires trace1 == trace0 + done || Traced(trace0, trace1, done, true)
    requires Traced(trace1, trace, part, ok)
    ensures Traced(trace0, trace, done + part, ok)
    ensures ok ==> trace == trace0 + (done + part)
  {
    assert done[..|done|] == done;
    var k :| 0 <= k <= |part| && (ok ==> k == |part|) && trace == trace1 + part[..k];
    assert (done + part)[..|done| + k] == done + part[..k];
    assert trace == trace0 + (done + part)[..|done| + k];
    assert part[..|part|] == part;
  }

  lemma NoWrites(d: Disk, start: nat, lh: seq<nat>, view: Disk)
    requires lh == []
    ensures Issued(d, d, TxWrites(d, start, lh, view), true)
  {
    ApplyNone(d);
    assert TxWrites(d, start, lh, view)[..0] == [];
  }

  lemma HeaderKept(view1: Disk, view0: Disk, start: nat, lh: seq<nat>, data: seq<Block>)
    requires InstalledIn(view1, view0, lh, data, |lh|) && HomeBlocks(view0, start, lh) && start < |view0|
    ensures |view1| == |view0| && view1[start] == view0[start]
  {
    assert start !in lh[..|lh|];
  }

  /** The home blocks of the header hold the log's contents, the other home blocks are unchanged. */
  ghost predicate InstalledHome(view: Disk, view0: Disk, start: nat, lh: seq<nat>) {
    && |view| == |view0| && start + |lh| < |view0|
    && (forall k :: 0 <= k < |lh| ==> lh[k] < |view| && view[lh[k]] == view0[start + 1 + k])
    && (forall b :: 0 <= b < |view| && !InLog(start, b) && b !in lh ==> view[b] == view0[b])
  }

  lemma InstalledHomeOk(view: Disk, view1: Disk, view0: Disk, start: nat, lh: seq<nat>, data: seq<Block>)
    requires InstalledIn(view1, view0, lh, data, |lh|) && start + LOGBLOCKS < |view0|
    requires |lh| <= LOGBLOCKS && data == LogData(view0, start, |lh|) && HomeBlocks(view0, start, lh)
    requires |view| == |view1| && forall b :: 0 <= b < |view| && b != start ==> view[b] == view1[b]
    ensures InstalledHome(view, view0, start, lh)
  {
    assert lh[..|lh|] == lh;
    forall k | 0 <= k < |lh| ensures view[lh[k]] == view0[start + 1 + k] {
      assert !InLog(start, lh[k]);
    }
  }

  lemma HeadTraced(trace0: seq<Write>, trace: seq<Write>, w: Write, ok: bool)
    requires trace == if ok then trace0 + [w] else trace0
    ensures Traced(trace0, trace, [w], ok)
  {
    assert [w][..1] == [w] && [w][..0] == [];
    assert trace == trace0 + [w][..if ok then 1 else 0];
  }

  lemma StartNotPinned(at: map<nat, nat>, lh: seq<nat>, d: Disk, start: nat)
    requires Covers(at, lh) && HomeBlocks(d, start, lh)
    ensures start !in at
  {
  }

  lemma LoggedMeans(view: Disk, view0: Disk, start: nat, data: seq<Block>)
    requires LoggedIn(view, view0, start, data, |data|)
    ensures |view| == |view0| && start + |data| < |view| && view[start] == view0[start]
    ensures forall k :: 0 <= k < |data| ==> view[start + 1 + k] == data[k]
    ensures forall b :: 0 <= b < |view| && !InLog(start, b) && |data| <= LOGBLOCKS ==> view[b] == view0[b]
  {
  }

  /** Installing what was logged from the cache gives readers of home blocks the same contents. */
  lemma InstalledMeans(view: Disk, view2: Disk, view0: Disk, start: nat, lh: seq<nat>)
    requires InstalledHome(view, view2, start, lh) && |view2| == |view0|
    requires forall k :: 0 <= k < |lh| ==> lh[k] < |view0|
    requires var data := Transaction(lh, view0).data; forall k :: 0 <= k < |data| ==> view2[start + 1 + k] == data[k]
    requires forall b :: 0 <= b < |view2| && !InLog(start, b) ==> view2[b] == view0[b]
    ensures SameHome(start, view, view0)
  {
    forall b | 0 <= b < |view| && !InLog(start, b) ensures view[b] == view0[b] {
      if b in lh {
        var k :| 0 <= k < |lh| && lh[k] == b;
        assert Transaction(lh, view0).data[k] == view0[b];
      }
    }
  }

  lemma NothingLogged(d: Disk, start: nat, at: map<nat, nat>)
    requires at == map[]
    ensures HomeBlocks(d, start, []) && Covers(at, [])
  {
  }

  lemma SameHomeSelf(start: nat, d: Disk)
    ensures SameHome(start, d, d)
  {
  }

  lemma HeaderOnDisk(view: Disk, disk: Disk, start: nat)
    requires OnDisk(view, disk, start)
    ensures start < |view| && start < |disk| && view[start] == disk[start]
  {
  }

  /** read_head's loop over the header block. */
  method ScanHeader(h: Block) returns (lh: seq<nat>)
    requires GoodHeader(h)
    ensures lh == HeaderBlocks(h)
  {
    lh := [];
    var i := 0;
    while i < h[0]
      invariant 0 <= i <= h[0] && lh == h[1..1 + i]
    {
      lh := lh + [h[1 + i]];
      i := i + 1;
    }
  }

  /** After boot nothing is pinned or locked, so readers see the disk. */
  lemma ViewIsDisk(bufs: seq<Buf>, g: Ghost, disk: Disk, at: map<nat, nat>)
    requires DataOk(bufs, g.pins, disk, g.view) && OnlyLocked(bufs, {}) && Pinned(bufs, g.pins, at) && at == map[]
    ensures g.view == disk
  {
    forall b | 0 <= b < |disk| ensures g.view[b] == disk[b] {
      QuietOnDisk(bufs, g, disk, b, at);
    }
  }

  lemma RecoveryIs(d: Disk, start: nat)
    requires Readable(d, start)
    ensures ClearWrites(d, start, HeaderBlocks(d[start])) == RecoveryWrites(d, start)
  {
  }

  lemma LoggedPin(bufs: seq<Buf>, pins: seq<nat>, at: map<nat, nat>, lh: seq<nat>, k: nat, i: nat)
    requires Pinned(bufs, pins, at) && Covers(at, lh) && Unique(bufs) && k < |lh| && i < |bufs|
    requires Caches(bufs, i, bufs[i].blockno) && lh[k] == bufs[i].blockno
    ensures pins[i] == 1
  {
    PinOf(bufs, pins, at, i);
  }

  lemma HomeAppend(d: Disk, start: nat, lh: seq<nat>, b: nat)
    requires HomeBlocks(d, start, lh) && b < |d| && !InLog(start, b) && b !in lh
    ensures HomeBlocks(d, start, lh + [b])
  {
  }

  lemma NotPinned(bufs: seq<Buf>, pins: seq<nat>, at: map<nat, nat>, lh: seq<nat>, i: nat)
    requires Pinned(bufs, pins, at) && Covers(at, lh) && i < |bufs| && bufs[i].blockno !in lh
    ensures pins[i] == 0 && bufs[i].blockno !in at
  {
  }

  lemma PinAdded(bufs: seq<Buf>, bufs': seq<Buf>, pins: seq<nat>, at: map<nat, nat>, lh: seq<nat>, i: nat)
    requires Pinned(bufs, pins, at) && Covers(at, lh) && i < |bufs| == |bufs'| && pins[i] == 0
    requires Caches(bufs, i, bufs[i].blockno) && bufs[i].blockno !in lh
    requires forall k :: 0 <= k < |bufs| ==>
               bufs'[k].dev == bufs[k].dev && bufs'[k].blockno == bufs[k].blockno && bufs'[k].valid == bufs[k].valid
    ensures Pinned(bufs', pins[i := 1], at[bufs[i].blockno := i])
    ensures Covers(at[bufs[i].blockno := i], lh + [bufs[i].blockno])
  {
    var b := bufs[i].blockno;
    assert (lh + [b])[|lh|] == b;
  }

  lemma {:induction false} NothingYet(d: Disk, start: nat, ws: seq<Write>)
    requires GoodLayout(d, start) && GoodHeader(d[start]) && d[start][0] == 0
    ensures forall ks :: AllOrNothing(d, d, start, ws, false, ks)
  {
    hide Apply, Crashes, Recover;
    forall ks ensures AllOrNothing(d, d, start, ws, false, ks) {
      RecoveryCompletes(d, start, [], d, ks);
    }
  }

  lemma CommitLength(h: Block, start: nat, tx: Tx)
    requires |h| == BLOCK_WORDS && |tx.lh| == |tx.data| <= LOGBLOCKS
    ensures |CommitWrites(h, start, tx)| == 2 * |tx.lh| + 2
  {
  }

  /** The writes that commit() issued before it stopped, followed by any number of crashes during
      recovery, leave the home blocks all old or all new; all new if commit() ran to its end. */
  lemma CommitCrashSafe(d: Disk, d': Disk, start: nat, lh: seq<nat>, view: Disk, ok: bool, ks: seq<nat>)
    requires 0 < |lh| <= LOGBLOCKS && forall i :: 0 <= i < |lh| ==> lh[i] < |view|
    requires GoodTx(d, start, Transaction(lh, view)) && GoodHeader(d[start]) && d[start][0] == 0
    requires Issued(d, d', TxWrites(d, start, lh, view), ok)
    ensures var e, tx := Crashes(d', start, ks), Transaction(lh, view);
            && Readable(e, start)
            && (Clean(Recover(e, start), start, d) || Clean(Recover(e, start), start, Installed(d, tx)))
            && (ok ==> Clean(Recover(e, start), start, Installed(d, tx)))
  {
    hide CommitWrites, Apply, Crashes, Recover, Clean, Installed, Transaction;
    var ws := TxWrites(d, start, lh, view);
    var k :| 0 <= k <= |ws| && (ok ==> k == |ws|) && d' == Apply(d, ws[..k]);
    CrashAtomicity(d, start, Transaction(lh, view), k, ks);
    CommitLength(d[start], start, Transaction(lh, view));
  }

  /** Installing the logged blocks gives what the writes give. */
  lemma InstalledIsApplied(d: Disk, start: nat, lh: seq<nat>, ws: seq<Write>)
    requires GoodLayout(d, start) && |lh| <= LOGBLOCKS && HomeBlocks(d, start, lh) && Logs(lh, ws, |ws|)
    ensures var tx := Transaction(lh, Apply(d, ws));
            GoodTx(d, start, tx) && SameHome(start, Installed(d, tx), Apply(d, ws))
  {
    hide Apply, Installed;
    var tx := Transaction(lh, Apply(d, ws));
    InstalledAt(d, start, tx);
    forall b | 0 <= b < |d| && !InLog(start, b) ensures Installed(d, tx)[b] == Apply(d, ws)[b] {
      if b in lh {
        var i :| 0 <= i < |lh| && lh[i] == b;
        assert Installed(d, tx)[tx.lh[i]] == tx.data[i];
      } else {
        ApplyFrame(d, ws, b);
      }
    }
  }

  lemma CleanSelf(d: Disk, start: nat)
    requires GoodLayout(d, start) && GoodHeader(d[start]) && d[start][0] == 0
    ensures Clean(d, start, d)
  {
  }

  lemma OperationSafe(d: Disk, d': Disk, start: nat, lh: seq<nat>, view: Disk, ws: seq<Write>, ok: bool, ks: seq<nat>)
    requires GoodLayout(d, start) && GoodHeader(d[start]) && d[start][0] == 0
    requires |lh| <= LOGBLOCKS && HomeBlocks(d, start, lh) && Logs(lh, ws, |ws|) && view == Apply(d, ws)
    requires Issued(d, d', TxWrites(d, start, lh, view), ok)
    ensures AllOrNothing(d, d', start, ws, ok, ks)
  {
    hide Apply, Crashes, Recover, Clean, Installed, Transaction, CommitWrites;
    InstalledIsApplied(d, start, lh, ws);
    var e, tx := Crashes(d', start, ks), Transaction(lh, view);
    if lh == [] {
      ApplyNone(d);
      assert d' == d && ws == [];
      assert Clean(d, start, d) by { CleanSelf(d, start); }
      RecoveryCompletes(d, start, [], d, ks);
    } else {
      CommitCrashSafe(d, d', start, lh, view, ok, ks);
      if Clean(Recover(e, start), start, Installed(d, tx)) {
        CleanTransfer(Recover(e, start), start, Installed(d, tx), Apply(d, ws));
      }
    }
  }

  lemma LogsLength(d: Disk, start: nat, lh: seq<nat>, ws: seq<Write>, k: nat)
    requires Logs(lh, ws, k) && HomeBlocks(d, start, lh)
    ensures |lh| <= |Blocks(ws)| && (k == |ws| ==> |lh| == |Blocks(ws)|)
  {
    LogsSize(lh, ws, k);
    if k == |ws| { assert ws[..k] == ws; }
  }

  /** While the header has room there is a buffer for any block. */
  lemma HeaderRoom(bufs: seq<Buf>, g: Ghost, d: Disk, start: nat, at: map<nat, nat>, lh: seq<nat>, b: nat)
    requires RefsOk(bufs, g.holds, g.pins) && Pinned(bufs, g.pins, at) && Quiet(g.holds)
    requires Covers(at, lh) && HomeBlocks(d, start, lh) && |lh| <= LOGBLOCKS
    ensures |lh| < LOGBLOCKS ==> Available(bufs, b)
  {
    hide Pinned, Quiet, RefsOk, Spare, Available;
    FullHeader(bufs, g, d, start, at, lh);
    if |lh| < LOGBLOCKS { SpareAvailable(bufs, g, at, b); }
  }

  // ---- the log on disk

  class LogDevice {
    const bc: BCache
    const start: nat
    var lh: seq<nat>
    ghost var at: map<nat, nat>

    /** The cache is consistent, the logged blocks are home blocks and their buffers are pinned,
        and no buffer is locked. */
    ghost predicate Valid()
      reads this, bc
    {
      && bc.Valid()
      && start + LOGBLOCKS < |bc.disk|
      && |lh| <= LOGBLOCKS && HomeBlocks(bc.disk, start, lh)
      && Pinned(bc.bufs, bc.g.pins, at) && Covers(at, lh) && OnlyLocked(bc.bufs, {})
    }

    /** initlog, before recovery: the cache has just been set up. */
    constructor (cache: BCache, logstart: nat)
      requires cache.Valid() && logstart + LOGBLOCKS < |cache.disk|
      requires forall i :: 0 <= i < NBUF ==> !cache.bufs[i].locked && cache.g.pins[i] == 0
      ensures bc == cache && start == logstart && lh == [] && at == map[] && Valid()
    {
      bc := cache;
      start := logstart;
      lh := [];
      at := map[];
    }

    /** bread of a block while only buffers of other blocks are locked. */
    method ReadNext(b: nat, ghost pinned: map<nat, nat>, ghost locked: set<nat>) returns (ok: bool, i: nat)
      requires bc.Valid() && b < |bc.disk| && Pinned(bc.bufs, bc.g.pins, pinned) && OnlyLocked(bc.bufs, locked)
      requires forall k :: 0 <= k < |bc.bufs| && IsFor(bc.bufs[k], ROOTDEV, b) ==> !bc.bufs[k].locked
      modifies bc`bufs, bc`g
      ensures bc.Valid() && bc.g == old(bc.g).(holds := bc.g.holds)
      ensures ok ==> Fetched(old(bc.bufs), bc.bufs, old(bc.g), bc.g, pinned, locked, i, b)
      ensures ok <==> Available(old(bc.bufs), b)
    {
      hide Pinned, OnlyLocked, Unique, DataOk, RefsOk, ListOk, Apply;
      ok, i := false, 0;
      Sizes(bc.bufs, bc.g.holds, bc.g.pins);
      var r := bc.Bread(b);
      assert !r.Waits?;
      if r.Ready? {
        ok, i := true, r.i;
        PinnedAfterRead(old(bc.bufs), bc.bufs, old(bc.g), bc.g, i, b, pinned, locked);
      }
    }

    /** bread of two different blocks, one after the other. */
    method ReadPair(a: nat, b: nat, ghost pinned: map<nat, nat>) returns (ok: bool, i: nat, j: nat)
      requires bc.Valid() && a < |bc.disk| && b < |bc.disk| && a != b
      requires Pinned(bc.bufs, bc.g.pins, pinned) && OnlyLocked(bc.bufs, {})
      modifies bc`bufs, bc`g
      ensures bc.Valid()
      ensures bc.g.view == old(bc.g.view) && bc.g.trace == old(bc.g.trace) && bc.g.first == old(bc.g.first)
      ensures ok ==> i < NBUF && j < NBUF && i != j
      ensures ok ==> Pinned(bc.bufs, bc.g.pins, pinned) && OnlyLocked(bc.bufs, {i, j})
      ensures ok ==> Caches(bc.bufs, i, a) && Caches(bc.bufs, j, b)
      ensures a in pinned || OnDisk(bc.g.view, bc.disk, a)
      ensures b in pinned || OnDisk(bc.g.view, bc.disk, b)
      ensures ok ==> Available(old(bc.bufs), a) && Took(old(bc.g.holds), bc.g.holds, i, j)
      ensures |Spare(old(bc.g.holds), pinned)| >= (if b in pinned then 1 else 2) ==> ok
    {
      hide Pinned, OnlyLocked, Unique, DataOk, RefsOk, ListOk, Apply, OnDisk, Spare, Available, Took, Caches, Fetched;
      j := 0;
      if Spare(bc.g.holds, pinned) != {} { SpareAvailable(bc.bufs, bc.g, pinned, a); }
      NoLocks(bc.bufs);
      if a !in pinned { QuietOnDisk(bc.bufs, bc.g, bc.disk, a, pinned); }
      if b !in pinned { QuietOnDisk(bc.bufs, bc.g, bc.disk, b, pinned); }
      ok, i := ReadNext(a, pinned, {});
      if ok {
        ghost var bufs1, g1 := bc.bufs, bc.g;
        FetchedOne(old(bc.bufs), bufs1, old(bc.g), g1, pinned, i, a, b);
        ok, j := ReadNext(b, pinned, {} + {i});
        if ok { FetchedTwo(old(bc.bufs), bufs1, bc.bufs, old(bc.g), g1, bc.g, pinned, i, a, j, b); }
      }
    }

    /** memmove, bwrite, optional bunpin, and the two brelse: copy buffer i to buffer j and to disk. */
    method Transfer(i: nat, j: nat, unpin: bool, ghost pinned: map<nat, nat>)
      requires bc.Valid() && i < NBUF && j < NBUF && i != j
      requires Caches(bc.bufs, i, bc.bufs[i].blockno) && Caches(bc.bufs, j, bc.bufs[j].blockno)
      requires Pinned(bc.bufs, bc.g.pins, pinned) && OnlyLocked(bc.bufs, {i, j})
      requires bc.bufs[i].blockno in pinned || OnDisk(bc.g.view, bc.disk, bc.bufs[i].blockno)
      requires unpin ==> bc.bufs[j].blockno in pinned
      modifies bc
      ensures bc.Valid() && OnlyLocked(bc.bufs, {})
      ensures old(bc.bufs[i].blockno) < |old(bc.disk)| && old(bc.bufs[j].blockno) < |old(bc.disk)|
      ensures Copied(old(bc.g), bc.g, old(bc.bufs[i].blockno), old(bc.bufs[j].blockno))
      ensures |bc.disk| == |old(bc.disk)| && bc.g.first == old(bc.g.first)
      ensures Pinned(bc.bufs, bc.g.pins, if unpin then pinned - {old(bc.bufs[j].blockno)} else pinned)
      ensures Took(bc.g.holds, old(bc.g.holds), i, j)
    {
      hide Pinned, Unique, RefsOk, ListOk, Apply, DataOk, Copied, OnDisk;
      ghost var a, b := bc.bufs[i].blockno, bc.bufs[j].blockno;
      ghost var blk := bc.bufs[i].data;
      Sizes(bc.bufs, bc.g.holds, bc.g.pins);
      CachedData(bc.bufs, bc.g, bc.disk, i);
      CachedData(bc.bufs, bc.g, bc.disk, j);
      DifferentBlocks(bc.bufs, i, j);
      assert bc.bufs[i].locked && bc.bufs[j].locked;
      SourceSettled(bc.bufs, bc.g, bc.disk, i, pinned);
      ghost var bufs0, g0 := bc.bufs, bc.g;
      bc.Modify(j, bc.bufs[i].data);
      bc.Bwrite(j);
      PinnedSame(bufs0, bc.bufs, g0.pins, pinned);
      if unpin {
        PinOf(bc.bufs, bc.g.pins, pinned, j);
        ghost var bufs1, pins1 := bc.bufs, bc.g.pins;
        bc.Bunpin(j);
        Unpinned(bufs1, bc.bufs, pins1, pinned, j);
      }
      Release(i, j, if unpin then pinned - {b} else pinned);
      CopiedOk(g0, bc.g, a, b, blk);
    }

    /** brelse of two buffers, the only locked ones. */
    method Release(i: nat, j: nat, ghost pinned: map<nat, nat>)
      requires bc.Valid() && i < NBUF && j < NBUF && i != j && |bc.bufs| == NBUF == |bc.g.pins|
      requires Settled(bc.bufs, bc.g.pins, bc.disk, i) && Settled(bc.bufs, bc.g.pins, bc.disk, j)
      requires OnlyLocked(bc.bufs, {i, j}) && Pinned(bc.bufs, bc.g.pins, pinned)
      modifies bc
      ensures bc.Valid() && OnlyLocked(bc.bufs, {}) && Pinned(bc.bufs, bc.g.pins, pinned)
      ensures bc.disk == old(bc.disk) && bc.g.first == old(bc.g.first)
      ensures bc.g.view == old(bc.g.view) && bc.g.trace == old(bc.g.trace)
      ensures Took(bc.g.holds, old(bc.g.holds), i, j)
    {
      hide Pinned, Unique, RefsOk, ListOk, Apply, DataOk;
      Sizes(bc.bufs, bc.g.holds, bc.g.pins);
      bc.Brelse(i);
      bc.Brelse(j);
      PinnedSame(old(bc.bufs), bc.bufs, bc.g.pins, pinned);
    }

    /** write_log: copy the modified blocks from the cache to the log. */
    method WriteLog() returns (ok: bool)
      requires Valid()
      modifies bc
      ensures bc.Valid() && |bc.disk| == |old(bc.disk)| && bc.g.first == old(bc.g.first)
      ensures var data := Transaction(lh, old(bc.g.view)).data;
              && Traced(old(bc.g.trace), bc.g.trace, LogWrites(start, data), ok)
              && (ok ==> Valid() && LoggedIn(bc.g.view, old(bc.g.view), start, data, |lh|))
      ensures ok ==> bc.g.holds == old(bc.g.holds) && (lh != [] ==> Available(old(bc.bufs), start + 1))
      ensures Spare(old(bc.g.holds), at) != {} ==> ok
    {
      hide Unique, RefsOk, ListOk, Apply, DataOk, Copied, OnlyLocked, Pinned, Traced, LoggedIn, HomeBlocks, Spare,
           Available, Took;
      HomeInRange(bc.disk, start, lh);
      ViewSize(bc.bufs, bc.g, bc.disk);
      ghost var view0, trace0 := bc.g.view, bc.g.trace;
      ghost var data := Transaction(lh, view0).data;
      ghost var ws := LogWrites(start, data);
      assert |ws| == |lh|;
      TracedStart(trace0, ws);
      LoggedStart(view0, start, data);
      var tail := 0;
      while tail < |lh|
        invariant 0 <= tail <= |lh|
        invariant bc.Valid() && |bc.disk| == |old(bc.disk)| && bc.g.first == old(bc.g.first)
        invariant Pinned(bc.bufs, bc.g.pins, at) && OnlyLocked(bc.bufs, {})
        invariant HomeBlocks(bc.disk, start, lh)
        invariant bc.g.trace == trace0 + ws[..tail] && |bc.g.view| == |view0|
        invariant LoggedIn(bc.g.view, view0, start, data, tail)
        invariant bc.g.holds == old(bc.g.holds)
        invariant if tail == 0 then bc.bufs == old(bc.bufs) else Available(old(bc.bufs), start + 1)
      {
        HomeInRange(bc.disk, start, lh);
        var got, to, from := ReadPair(start + tail + 1, lh[tail], at);
        if !got {
          TracedPrefix(trace0, ws, tail);
          return false;
        }
        ghost var g1, disk1 := bc.g, bc.disk;
        assert {to, from} == {from, to};
        Transfer(from, to, false, at);
        GaveBack(old(bc.g.holds), g1.holds, bc.g.holds, to, from);
        HomeKeep(disk1, bc.disk, start, lh);
        ViewSize(bc.bufs, bc.g, bc.disk);
        LogStep(g1, bc.g, trace0, view0, start, lh, data, tail);
        tail := tail + 1;
      }
      TracedAll(trace0, ws);
      ok := true;
    }

    /** install_trans: copy the logged blocks to their home locations, unpinning them unless this is
        recovery. */
    method InstallTrans(recovering: bool) returns (ok: bool)
      requires bc.Valid() && OnlyLocked(bc.bufs, {}) && Pinned(bc.bufs, bc.g.pins, at)
      requires start + LOGBLOCKS < |bc.disk| && |lh| <= LOGBLOCKS && HomeBlocks(bc.disk, start, lh)
      requires if recovering then at == map[] else Covers(at, lh)
      modifies bc, `at
      ensures bc.Valid() && |bc.disk| == |old(bc.disk)| == |old(bc.g.view)| && bc.g.first == old(bc.g.first)
      ensures var data := LogData(old(bc.g.view), start, |lh|);
              && Traced(old(bc.g.trace), bc.g.trace, InstallWrites(lh, data), ok)
              && (ok ==> InstalledIn(bc.g.view, old(bc.g.view), lh, data, |lh|))
      ensures ok ==> at == map[] && Pinned(bc.bufs, bc.g.pins, at) && OnlyLocked(bc.bufs, {})
      ensures ok ==> bc.g.holds == old(bc.g.holds)
      ensures Suffice(old(bc.g.holds), old(at), recovering) ==> ok && Suffice(bc.g.holds, at, recovering)
    {
      hide Unique, RefsOk, ListOk, Apply, DataOk, Copied, OnlyLocked, Pinned, Traced, InstalledIn, HomeBlocks, Covers,
           Spare, Took;
      ViewSize(bc.bufs, bc.g, bc.disk);
      ghost var view0, trace0 := bc.g.view, bc.g.trace;
      ghost var data := LogData(view0, start, |lh|);
      ghost var ws := InstallWrites(lh, data);
      TracedStart(trace0, ws);
      InstalledStart(view0, lh, data);
      CoversStart(lh);
      var tail := 0;
      while tail < |lh|
        invariant 0 <= tail <= |lh|
        invariant bc.Valid() && |bc.disk| == |old(bc.disk)| == |view0| && bc.g.first == old(bc.g.first)
        invariant Pinned(bc.bufs, bc.g.pins, at) && OnlyLocked(bc.bufs, {})
        invariant HomeBlocks(bc.disk, start, lh)
        invariant if recovering then at == map[] else Covers(at, lh[tail..])
        invariant bc.g.trace == trace0 + ws[..tail] && |bc.g.view| == |view0|
        invariant InstalledIn(bc.g.view, view0, lh, data, tail)
        invariant bc.g.holds == old(bc.g.holds)
        invariant Suffice(old(bc.g.holds), old(at), recovering) ==> Suffice(bc.g.holds, at, recovering)
      {
        HomeInRange(bc.disk, start, lh);
        CoversFirst(at, lh, tail, recovering);
        var got, lbuf, dbuf := ReadPair(start + tail + 1, lh[tail], at);
        if !got {
          TracedPrefix(trace0, ws, tail);
          return false;
        }
        ghost var g1, disk1 := bc.g, bc.disk;
        Transfer(lbuf, dbuf, !recovering, at);
        GaveBack(old(bc.g.holds), g1.holds, bc.g.holds, lbuf, dbuf);
        if !recovering {
          SpareGrows(bc.g.holds, at, lh[tail]);
          CoversNext(at, lh, tail, disk1, start);
          at := at - {lh[tail]};
        }
        HomeKeep(disk1, bc.disk, start, lh);
        ViewSize(bc.bufs, bc.g, bc.disk);
        InstallStep(g1, bc.g, trace0, view0, start, lh, data, tail);
        tail := tail + 1;
      }
      CoversNone(at, lh, recovering);
      TracedAll(trace0, ws);
      ok := true;
    }

    /** write_head: put n and the block numbers into the header block and write it. */
    method WriteHead() returns (ok: bool)
      requires bc.Valid() && OnlyLocked(bc.bufs, {}) && Pinned(bc.bufs, bc.g.pins, at)
      requires start < |bc.disk| && start !in at && |lh| <= LOGBLOCKS
      requires |bc.g.view| == |bc.disk| && |bc.g.view[start]| == BLOCK_WORDS
      modifies bc
      ensures bc.Valid() && |bc.disk| == |old(bc.disk)| && bc.g.first == old(bc.g.first)
      ensures ok ==> Pinned(bc.bufs, bc.g.pins, at) && OnlyLocked(bc.bufs, {})
      ensures ok ==> bc.g.view == old(bc.g.view)[start := PutHeader(old(bc.g.view)[start], lh)]
      ensures ok ==> bc.g.trace == old(bc.g.trace) + [Write(start, PutHeader(old(bc.g.view)[start], lh))]
      ensures !ok ==> bc.g.trace == old(bc.g.trace)
      ensures (ok <==> Available(old(bc.bufs), start)) && (ok ==> bc.g.holds == old(bc.g.holds))
      ensures Spare(old(bc.g.holds), at) != {} ==> ok
    {
      hide Unique, RefsOk, ListOk, Apply, DataOk, OnlyLocked, Pinned, Spare, Available;
      if Spare(bc.g.holds, at) != {} { SpareAvailable(bc.bufs, bc.g, at, start); }
      Sizes(bc.bufs, bc.g.holds, bc.g.pins);
      NoLocks(bc.bufs);
      var r := bc.Bread(start);
      assert !r.Waits?;
      if !r.Ready? {
        return false;
      }
      var i := r.i;
      PinnedAfterRead(old(bc.bufs), bc.bufs, old(bc.g), bc.g, i, start, at, {});
      var hb := FillHeader(bc.bufs[i].data, lh);
      ghost var bufs1 := bc.bufs;
      bc.Modify(i, hb);
      bc.Bwrite(i);
      bc.Brelse(i);
      PinnedSame(bufs1, bc.bufs, bc.g.pins, at);
      LocksDropped(bufs1, bc.bufs, i);
      ok := true;
    }

    /** The end of commit and of recovery: install_trans, then clear the header. */
    method InstallAndClear(recovering: bool) returns (ok: bool)
      requires bc.Valid() && OnlyLocked(bc.bufs, {}) && Pinned(bc.bufs, bc.g.pins, at)
      requires start + LOGBLOCKS < |bc.disk| == |bc.g.view| && |lh| <= LOGBLOCKS && HomeBlocks(bc.disk, start, lh)
      requires |bc.g.view[start]| == BLOCK_WORDS
      requires if recovering then at == map[] else Covers(at, lh)
      modifies this, bc
      ensures bc.Valid() && bc.g.first == old(bc.g.first)
      ensures Traced(old(bc.g.trace), bc.g.trace, ClearWrites(old(bc.g.view), start, old(lh)), ok)
      ensures ok ==> Valid() && lh == [] && InstalledHome(bc.g.view, old(bc.g.view), start, old(lh))
      ensures ok ==> bc.g.holds == old(bc.g.holds)
      ensures Suffice(old(bc.g.holds), old(at), recovering) ==> ok
    {
      hide Unique, RefsOk, ListOk, Apply, DataOk, OnlyLocked, Pinned, Traced, InstalledIn, InstalledHome, HomeBlocks,
           Covers, PutHeader, Spare, Available;
      ghost var view0, trace0, lh0 := bc.g.view, bc.g.trace, lh;
      ghost var data := LogData(view0, start, |lh|);
      ghost var b, c := InstallWrites(lh, data), [Write(start, PutHeader(view0[start], []))];
      HomeKeep(bc.disk, view0, start, lh);
      ok := InstallTrans(recovering);
      TracedFirst(trace0, bc.g.trace, b, c, ok);
      if !ok { return; }
      ghost var view1, trace1 := bc.g.view, bc.g.trace;
      HeaderKept(view1, view0, start, lh, data);
      ViewSize(bc.bufs, bc.g, bc.disk);
      lh := [];
      ok := WriteHead();
      HeadTraced(trace1, bc.g.trace, c[0], ok);
      TracedLast(trace0, trace1, bc.g.trace, b, c, ok);
      if !ok { return; }
      InstalledHomeOk(bc.g.view, view1, view0, start, lh0, data);
      NothingLogged(bc.disk, start, at);
    }

    /** commit: the block writes are exactly CommitWrites, in order, and afterwards nothing is
        logged or pinned and no home block has changed for its readers. One spare buffer is enough; with
        no other references to buffers there is one unless the header names as many blocks as there are. */
    method Commit() returns (ok: bool)
      requires Valid() && |bc.g.view| == |bc.disk| && |bc.g.view[start]| == BLOCK_WORDS
      modifies this, bc
      ensures bc.Valid()
      ensures Issued(old(bc.disk), bc.disk, TxWrites(old(bc.disk), start, old(lh), old(bc.g.view)), ok)
      ensures ok ==> Valid() && lh == [] && SameHome(start, bc.g.view, old(bc.g.view))
      ensures ok ==> bc.g.holds == old(bc.g.holds)
      ensures old(lh) == [] || Spare(old(bc.g.holds), old(at)) != {} ==> ok
      ensures Quiet(old(bc.g.holds)) ==> (ok <==> |old(lh)| < NBUF)
    {
      hide Unique, RefsOk, ListOk, Apply, DataOk, OnlyLocked, Pinned, Traced, LoggedIn, InstalledHome, HomeBlocks,
           Covers, SameHome, Issued, CommitWrites, PutHeader, LogWrites, ClearWrites, Spare, Available, Quiet;
      if Quiet(bc.g.holds) { FullHeader(bc.bufs, bc.g, bc.disk, start, at, lh); }
      ghost var disk0, view0, trace0, lh0 := bc.disk, bc.g.view, bc.g.trace, lh;
      if |lh| == 0 {
        NoWrites(disk0, start, lh, view0);
        SameHomeSelf(start, view0);
        return true;
      }
      HomeInRange(bc.disk, start, lh);
      StartNotPinned(at, lh, bc.disk, start);
      QuietOnDisk(bc.bufs, bc.g, bc.disk, start, at);
      ghost var tx := Transaction(lh, view0);
      ghost var ws := TxWrites(disk0, start, lh, view0);
      ghost var a, h1 := LogWrites(start, tx.data), PutHeader(view0[start], lh);
      CommitParts(view0[start], start, tx);
      HomeKeep(bc.disk, view0, start, lh);
      ok := WriteLog();
      ghost var view1, trace1 := bc.g.view, bc.g.trace;
      if !ok {
        TracedFirst(trace0, trace1, a, ws[|a|..], false);
        IssuedOk(disk0, bc.disk, bc.g, trace0, ws, false);
        return;
      }
      LoggedMeans(view1, view0, start, tx.data);
      ViewSize(bc.bufs, bc.g, bc.disk);
      ok := WriteHead();
      ghost var view2, trace2 := bc.g.view, bc.g.trace;
      HeadTraced(trace1, trace2, Write(start, h1), ok);
      TracedLast(trace0, trace1, trace2, a, [Write(start, h1)], ok);
      if !ok {
        TracedFirst(trace0, trace2, a + [Write(start, h1)], ws[|a| + 1..], false);
        IssuedOk(disk0, bc.disk, bc.g, trace0, ws, false);
        return;
      }
      HomeKeep(disk0, bc.disk, start, lh);
      ViewSize(bc.bufs, bc.g, bc.disk);
      ok := InstallAndClear(false);
      CommitTailIs(view2, view0, start, tx, ws);
      TracedLast(trace0, trace2, bc.g.trace, a + [Write(start, h1)], ws[|a| + 1..], ok);
      IssuedOk(disk0, bc.disk, bc.g, trace0, ws, ok);
      if ok {
        InstalledMeans(bc.g.view, view2, view0, start, lh0);
      }
    }

    /** read_head: the in-memory header becomes what the header block on disk says. */
    method ReadHead() returns (ok: bool)
      requires Valid() && lh == [] && at == map[] && Readable(bc.disk, start)
      requires HomeBlocks(bc.disk, start, HeaderBlocks(bc.disk[start]))
      modifies `lh, bc
      ensures bc.Valid() && bc.disk == old(bc.disk) && bc.g.trace == old(bc.g.trace) && bc.g.first == old(bc.g.first)
      ensures bc.g.view == old(bc.g.view)
      ensures ok ==> lh == HeaderBlocks(bc.disk[start]) && Pinned(bc.bufs, bc.g.pins, at) && OnlyLocked(bc.bufs, {})
      ensures (ok <==> Available(old(bc.bufs), start)) && (ok ==> bc.g.holds == old(bc.g.holds))
      ensures Spare(old(bc.g.holds), at) != {} ==> ok
    {
      hide Unique, RefsOk, ListOk, Apply, DataOk, OnlyLocked, Pinned, HomeBlocks, Covers, OnDisk, Spare, Available;
      if Spare(bc.g.holds, at) != {} { SpareAvailable(bc.bufs, bc.g, at, start); }
      Sizes(bc.bufs, bc.g.holds, bc.g.pins);
      NoLocks(bc.bufs);
      QuietOnDisk(bc.bufs, bc.g, bc.disk, start, at);
      var r := bc.Bread(start);
      assert !r.Waits?;
      if !r.Ready? {
        return false;
      }
      var i := r.i;
      PinnedAfterRead(old(bc.bufs), bc.bufs, old(bc.g), bc.g, i, start, at, {});
      assert bc.bufs[i].data == bc.disk[start] by { HeaderOnDisk(bc.g.view, bc.disk, start); }
      var blocks := ScanHeader(bc.bufs[i].data);
      lh := blocks;
      ghost var bufs1 := bc.bufs;
      bc.Brelse(i);
      PinnedSame(bufs1, bc.bufs, bc.g.pins, at);
      LocksDropped(bufs1, bc.bufs, i);
      ok := true;
    }

    /** recover_from_log after a boot: the block writes are exactly RecoveryWrites of the disk that
        the crash left. Two spare buffers are enough, and after a boot all are. */
    method RecoverFromLog() returns (ok: bool)
      requires Valid() && lh == [] && at == map[] && Readable(bc.disk, start)
      requires HomeBlocks(bc.disk, start, HeaderBlocks(bc.disk[start]))
      modifies this, bc
      ensures bc.Valid()
      ensures Issued(old(bc.disk), bc.disk, RecoveryWrites(old(bc.disk), start), ok)
      ensures ok ==> Valid() && lh == [] && bc.g.holds == old(bc.g.holds)
      ensures |Spare(old(bc.g.holds), map[])| >= 2 ==> ok
      ensures Quiet(old(bc.g.holds)) ==> ok
    {
      hide Unique, RefsOk, ListOk, Apply, DataOk, OnlyLocked, Pinned, Traced, HomeBlocks, Covers, Issued, OnDisk,
           InstalledHome, PutHeader, RecoveryWrites, ClearWrites, Spare, Available, Quiet;
      if Quiet(bc.g.holds) { SpareSize(bc.bufs, bc.g, at, lh); }
      ghost var disk0, trace0 := bc.disk, bc.g.trace;
      ghost var ws := RecoveryWrites(disk0, start);
      ViewIsDisk(bc.bufs, bc.g, bc.disk, at);
      ok := ReadHead();
      if !ok {
        TracedPrefix(trace0, ws, 0);
        TracedStart(trace0, ws);
        IssuedOk(disk0, bc.disk, bc.g, trace0, ws, false);
        return;
      }
      ok := InstallAndClear(true);
      RecoveryIs(disk0, start);
      IssuedOk(disk0, bc.disk, bc.g, trace0, ws, ok);
    }

    /** log_write: find the block in the header or append it and pin its buffer. False is a panic, "too
        big a transaction" or "log_write outside of trans"; outstanding is log.outstanding. */
    method LogWrite(i: nat, outstanding: nat) returns (ok: bool)
      requires bc.Valid() && i < NBUF && bc.bufs[i].locked && Caches(bc.bufs, i, bc.bufs[i].blockno)
      requires start + LOGBLOCKS < |bc.disk| && |lh| <= LOGBLOCKS && HomeBlocks(bc.disk, start, lh)
      requires Pinned(bc.bufs, bc.g.pins, at) && Covers(at, lh) && !InLog(start, bc.bufs[i].blockno)
      modifies `lh, `at, bc
      ensures ok <==> |old(lh)| < LOGBLOCKS && outstanding >= 1
      ensures !ok ==> lh == old(lh)
      ensures var b := old(bc.bufs[i].blockno);
              ok ==> lh == if b in old(lh) then old(lh) else old(lh) + [b]
      ensures bc.Valid() && |lh| <= LOGBLOCKS && HomeBlocks(bc.disk, start, lh)
      ensures Pinned(bc.bufs, bc.g.pins, at) && Covers(at, lh)
      ensures bc.disk == old(bc.disk) && bc.g.view == old(bc.g.view) && bc.g.trace == old(bc.g.trace)
      ensures bc.g.holds == old(bc.g.holds)
      ensures forall k :: 0 <= k < NBUF ==> bc.bufs[k].locked == old(bc.bufs)[k].locked
      ensures ok ==> Settled(bc.bufs, bc.g.pins, bc.disk, i)
    {
      hide Unique, RefsOk, ListOk, Apply, DataOk, Pinned, HomeBlocks, Covers;
      Sizes(bc.bufs, bc.g.holds, bc.g.pins);
      if |lh| >= LOGBLOCKS {
        return false;
      }
      if outstanding < 1 {
        return false;
      }
      RefCount(bc.bufs, bc.g.holds, bc.g.pins, i);
      CachedData(bc.bufs, bc.g, bc.disk, i);
      var b := bc.bufs[i].blockno;
      var k := 0;
      while k < |lh| && lh[k] != b
        invariant 0 <= k <= |lh| && b !in lh[..k]
      {
        k := k + 1;
      }
      if k < |lh| {
        LoggedPin(bc.bufs, bc.g.pins, at, lh, k, i);
        lh := lh[k := b];
        assert lh == old(lh);
      } else {
        assert lh[..k] == lh;
        HomeAppend(bc.disk, start, lh, b);
        NotPinned(bc.bufs, bc.g.pins, at, lh, i);
        ghost var bufs1, pins1 := bc.bufs, bc.g.pins;
        bc.Bpin(i);
        PinAdded(bufs1, bc.bufs, pins1, at, lh, i);
        lh := lh + [b];
        at := at[b := i];
      }
      ok := true;
    }

    /** The use of log_write that its comment describes: bread, modify, log_write, brelse. False is a
        panic: no buffer free, or the header full. */
    method Update(b: nat, blk: Block) returns (ok: bool)
      requires Valid() && b < |bc.disk| && !InLog(start, b)
      modifies this, bc
      ensures bc.Valid() && bc.disk == old(bc.disk)
      ensures ok ==> Valid() && lh == (if b in old(lh) then old(lh) else old(lh) + [b])
      ensures ok ==> bc.g.view == Put(old(bc.g.view), Write(b, blk)) && bc.g.holds == old(bc.g.holds)
      ensures ok <==> Available(old(bc.bufs), b) && |old(lh)| < LOGBLOCKS
    {
      hide Unique, RefsOk, ListOk, Apply, DataOk, OnlyLocked, Pinned, HomeBlocks, Covers, Settled, Available;
      Sizes(bc.bufs, bc.g.holds, bc.g.pins);
      NoLocks(bc.bufs);
      var r := bc.Bread(b);
      assert !r.Waits?;
      if !r.Ready? {
        return false;
      }
      var i := r.i;
      PinnedAfterRead(old(bc.bufs), bc.bufs, old(bc.g), bc.g, i, b, at, {});
      ghost var bufs1 := bc.bufs;
      bc.Modify(i, blk);
      PinnedSame(bufs1, bc.bufs, bc.g.pins, at);
      ok := LogWrite(i, 1);
      if !ok {
        return;
      }
      ghost var bufs2 := bc.bufs;
      Sizes(bc.bufs, bc.g.holds, bc.g.pins);
      bc.Brelse(i);
      PinnedSame(bufs2, bc.bufs, bc.g.pins, at);
      LockGone(bufs1, bufs2, bc.bufs, i);
    }

    /** A whole operation on a quiet log: the writes go through the cache and the log, and the end of
        the operation commits them. However far it came, crashes and recovery leave all of its writes
        or none, and all of them if it came to its end; then every reader sees them, too. With no other
        references to buffers it comes to its end if and only if it writes fewer blocks than there
        are buffers. */
    method Operation(ws: seq<Write>) returns (ok: bool)
      requires Valid() && lh == [] && at == map[] && GoodHeader(bc.disk[start]) && bc.disk[start][0] == 0
      requires forall k :: 0 <= k < |ws| ==> ws[k].bno < |bc.disk| && !InLog(start, ws[k].bno)
      modifies this, bc
      ensures bc.Valid()
      ensures forall ks :: AllOrNothing(old(bc.disk), bc.disk, start, ws, ok, ks)
      ensures ok ==> Valid() && lh == [] && SameHome(start, bc.g.view, Apply(old(bc.g.view), ws))
      ensures Quiet(old(bc.g.holds)) ==> (ok <==> |Blocks(ws)| < NBUF)
    {
      hide Unique, RefsOk, ListOk, Apply, DataOk, OnlyLocked, Pinned, HomeBlocks, Covers, AllOrNothing, Issued,
           SameHome, Logs, Available, Quiet, Blocks, Spare;
      ghost var d, view := bc.disk, bc.g.view;
      ViewIsDisk(bc.bufs, bc.g, bc.disk, at);
      NothingYet(d, start, ws);
      LogsNothing(ws);
      ApplyNone(view);
      assert ws[..0] == [];
      var k := 0;
      while k < |ws|
        invariant 0 <= k <= |ws| && Valid() && bc.disk == d && bc.g.view == Apply(view, ws[..k]) && Logs(lh, ws, k)
        invariant bc.g.holds == old(bc.g.holds)
      {
        ghost var lh1 := lh;
        LogsLength(bc.disk, start, lh, ws, k);
        if Quiet(bc.g.holds) { HeaderRoom(bc.bufs, bc.g, bc.disk, start, at, lh, ws[k].bno); }
        ok := Update(ws[k].bno, ws[k].blk);
        if !ok {
          return;
        }
        assert ws[..k] + [ws[k]] == ws[..k + 1];
        ApplyLast(view, ws[..k], ws[k]);
        LogsMore(lh1, lh, ws, k);
        k := k + 1;
      }
      assert ws[..k] == ws;
      LogsLength(bc.disk, start, lh, ws, k);
      ghost var lh1, view1 := lh, bc.g.view;
      ApplyFrame(view, ws, start);
      ViewSize(bc.bufs, bc.g, bc.disk);
      ok := Commit();
      forall ks ensures AllOrNothing(d, bc.disk, start, ws, ok, ks) {
        OperationSafe(d, bc.disk, start, lh1, view1, ws, ok, ks);
      }
    }
  }

  lemma NothingHeld(bufs: seq<Buf>, holds: seq<nat>, pins: seq<nat>)
    requires RefsOk(bufs, holds, pins) && forall i :: 0 <= i < NBUF ==> bufs[i].refcnt == 0
    ensures Quiet(holds)
  {
  }

  lemma NewBlocks(ws: seq<Write>, first: nat)
    requires forall k :: 0 <= k < |ws| ==> ws[k].bno == first + k
    ensures |Blocks(ws)| == |ws|
  {
    var bnos := seq(|ws|, k requires 0 <= k < |ws| => ws[k].bno);
    SizeOf(bnos);
    forall k | 0 <= k < |ws| ensures ws[k].bno in Elems(bnos) { assert bnos[k] == ws[k].bno; }
    assert Blocks(ws) == Elems(bnos);
  }

  /** As many blocks as the header has room for, which three operations may well write together: the commit
      finds no buffer for the first log block. */
  method FullLog(d: Disk, start: nat) returns (ws: seq<Write>, dev: LogDevice, ok: bool)
    requires start + LOGBLOCKS + NBUF < |d| && GoodHeader(d[start]) && d[start][0] == 0
    ensures |Blocks(ws)| == LOGBLOCKS && !ok && forall ks :: AllOrNothing(d, dev.bc.disk, start, ws, ok, ks)
  {
    hide Blocks, AllOrNothing, Quiet, RefsOk, Unique, ListOk, DataOk, Apply, Pinned, OnlyLocked, HomeBlocks, Covers;
    var bc := new BCache(d);
    NothingHeld(bc.bufs, bc.g.holds, bc.g.pins);
    dev := new LogDevice(bc, start);
    ws := seq(LOGBLOCKS, k requires 0 <= k < LOGBLOCKS => Write(start + LOGBLOCKS + 1 + k, d[start]));
    NewBlocks(ws, start + LOGBLOCKS + 1);
    ok := dev.Operation(ws);
  }
}
