/** The buffer cache of kernel/bio.c: NBUF buffers on a circular doubly linked list in order of
    last release, recycled least recently used first. Buffers are named by their index; the list
    head is node HEAD. */
module BufferCache {
  import opened Collections
  import opened CrashLog

  const NBUF := 30
  const HEAD := 30
  const ROOTDEV := 1

  datatype Buf = Buf(dev: nat, blockno: nat, refcnt: nat, valid: bool, locked: bool, data: Block)

  // ---- the linked list

  /** The nodes met when following next from the head and back to it. */
  function Cycle(order: seq<nat>): (c: seq<nat>) {
    [HEAD] + order + [HEAD]
  }

  ghost predicate Buffers(order: seq<nat>) {
    && (forall k :: 0 <= k < |order| ==> order[k] < NBUF)
    && (forall j, k :: 0 <= j < k < |order| ==> order[j] != order[k])
  }

  /** next and prev form one circular list through the head and the buffers of `order`. */
  ghost predicate Linked(next: seq<nat>, prev: seq<nat>, order: seq<nat>) {
    && |next| == NBUF + 1 && |prev| == NBUF + 1
    && Buffers(order)
    && var c := Cycle(order);
       forall k :: 0 <= k < |c| - 1 ==> next[c[k]] == c[k + 1] && prev[c[k + 1]] == c[k]
  }

  /** Two places of the cycle hold the same node only if both are the head. */
  lemma CycleDistinct(order: seq<nat>, i: nat, j: nat)
    requires Buffers(order) && i < |order| + 2 && j < |order| + 2 && i != j
    ensures Cycle(order)[i] == Cycle(order)[j] ==> Cycle(order)[i] == HEAD
  {
  }

  /** brelse, first half: unlink the buffer at position k. */
  lemma UnlinkOk(next: seq<nat>, prev: seq<nat>, order: seq<nat>, k: nat)
    requires Linked(next, prev, order) && k < |order|
    ensures var b := order[k];
            && next[b] <= NBUF && prev[b] <= NBUF
            && Linked(next[prev[b] := next[b]], prev[next[b] := prev[b]], Remove(order, k))
            && b !in Remove(order, k)
  {
    var b := order[k];
    var c := Cycle(order);
    assert c[k + 1] == b;
    var p, n := c[k], c[k + 2];
    assert prev[b] == p && next[b] == n;
    var order' := Remove(order, k);
    var c' := Cycle(order');
    var next', prev' := next[p := n], prev[n := p];
    forall j | 0 <= j < |c'| - 1 ensures next'[c'[j]] == c'[j + 1] && prev'[c'[j + 1]] == c'[j] {
      if j < k {
        assert c'[j] == c[j] && c'[j + 1] == c[j + 1];
        assert next[c[j]] == c[j + 1];
        CycleDistinct(order, j, k);
        CycleDistinct(order, j + 1, k + 2);
      } else if j == k {
        assert c'[j] == c[k] && c'[j + 1] == c[k + 2];
      } else {
        assert c'[j] == c[j + 1] && c'[j + 1] == c[j + 2];
        assert next[c[j + 1]] == c[j + 2];
        CycleDistinct(order, j + 1, k);
        CycleDistinct(order, j + 2, k + 2);
      }
    }
  }

  /** brelse, second half, and binit: insert b right after the head. */
  lemma PushOk(next: seq<nat>, prev: seq<nat>, order: seq<nat>, b: nat)
    requires Linked(next, prev, order) && b < NBUF && b !in order
    ensures var first := next[HEAD];
            && first <= NBUF
            && Linked(next[b := first][HEAD := b], prev[b := HEAD][first := b], [b] + order)
  {
    var c := Cycle(order);
    assert next[c[0]] == c[1];
    var first := next[HEAD];
    var order' := [b] + order;
    var c' := Cycle(order');
    var next', prev' := next[b := first][HEAD := b], prev[b := HEAD][first := b];
    forall j | 0 <= j < |c'| - 1 ensures next'[c'[j]] == c'[j + 1] && prev'[c'[j + 1]] == c'[j] {
      if j >= 2 {
        assert c'[j] == c[j - 1] && c'[j + 1] == c[j];
        assert next[c[j - 1]] == c[j];
        CycleDistinct(order, j, 1);
      }
    }
  }

  // ---- the invariant, on the values of the fields

  /** Proof state: the list from most to least recently released, when each buffer was last moved
      to the front, how many references are held by callers and by the log, the current contents of
      every block, and all disk writes since the disk was `first`. */
  datatype Ghost = Ghost(order: seq<nat>, stamp: seq<nat>, clock: nat,
                         holds: seq<nat>, pins: seq<nat>, view: Disk, first: Disk, trace: seq<Write>)

  /** The list runs from the most to the least recently released buffer. */
  ghost predicate Newest(order: seq<nat>, stamp: seq<nat>) {
    && (forall j :: 0 <= j < |order| ==> order[j] < |stamp|)
    && forall j, k :: 0 <= j < k < |order| ==> stamp[order[j]] > stamp[order[k]]
  }

  ghost predicate ListOk(next: seq<nat>, prev: seq<nat>, g: Ghost) {
    && Linked(next, prev, g.order)
    && |g.order| == NBUF == |g.stamp|
    && (forall b :: 0 <= b < NBUF ==> b in g.order && g.stamp[b] < g.clock)
    && Newest(g.order, g.stamp)
  }

  ghost predicate RefsOk(bufs: seq<Buf>, holds: seq<nat>, pins: seq<nat>) {
    && |bufs| == NBUF == |holds| == |pins|
    && forall i :: 0 <= i < NBUF ==>
         && bufs[i].refcnt == holds[i] + pins[i]
         && (bufs[i].locked ==> holds[i] > 0)
  }

  predicate IsFor(buf: Buf, dev: nat, b: int) {
    buf.dev == dev && buf.blockno == b
  }

  /** No two buffers hold the same block of a real device. */
  ghost predicate Unique(bufs: seq<Buf>) {
    forall i, j :: 0 <= i < j < |bufs| && bufs[i].dev != 0 ==> !IsFor(bufs[j], bufs[i].dev, bufs[i].blockno)
  }

  /** Buffer i caches block b of the disk. */
  predicate Caches(bufs: seq<Buf>, i: int, b: int) {
    0 <= i < |bufs| && IsFor(bufs[i], ROOTDEV, b) && bufs[i].valid
  }

  /** Every valid buffer has the current contents, and a block whose current contents are not on
      disk is cached in a buffer that is locked or pinned. */
  ghost predicate DataOk(bufs: seq<Buf>, pins: seq<nat>, disk: Disk, view: Disk) {
    && |view| == |disk| && |pins| == |bufs|
    && (forall i :: 0 <= i < |bufs| && bufs[i].dev == ROOTDEV ==> bufs[i].blockno < |disk|)
    && (forall i, b :: Caches(bufs, i, b) ==> b < |view| && bufs[i].data == view[b])
    && (forall b :: 0 <= b < |disk| && view[b] != disk[b] ==>
          exists i :: Caches(bufs, i, b) && (bufs[i].locked || pins[i] > 0))
  }

  ghost predicate Ok(next: seq<nat>, prev: seq<nat>, bufs: seq<Buf>, disk: Disk, g: Ghost) {
    && ListOk(next, prev, g)
    && RefsOk(bufs, g.holds, g.pins)
    && Unique(bufs)
    && DataOk(bufs, g.pins, disk, g.view)
    && disk == Apply(g.first, g.trace)
  }

  lemma OnlyBuffer(bufs: seq<Buf>, i: nat, j: nat)
    requires Unique(bufs) && i < |bufs| && j < |bufs| && i != j
    requires bufs[i].dev == ROOTDEV
    ensures !IsFor(bufs[j], ROOTDEV, bufs[i].blockno)
  {
    if i < j {
      assert !IsFor(bufs[j], bufs[i].dev, bufs[i].blockno);
    } else if bufs[j].dev == ROOTDEV {
      assert !IsFor(bufs[i], bufs[j].dev, bufs[j].blockno);
    }
  }

  /** A valid buffer that nobody locks or pins agrees with the disk. */
  lemma UnusedIsClean(bufs: seq<Buf>, pins: seq<nat>, disk: Disk, view: Disk, i: nat)
    requires Unique(bufs) && DataOk(bufs, pins, disk, view)
    requires i < |bufs| && bufs[i].dev == ROOTDEV && bufs[i].valid && !bufs[i].locked && pins[i] == 0
    ensures bufs[i].data == disk[bufs[i].blockno]
  {
    var b := bufs[i].blockno;
    assert Caches(bufs, i, b);
    if view[b] != disk[b] {
      var j :| Caches(bufs, j, b) && (bufs[j].locked || pins[j] > 0);
      OnlyBuffer(bufs, i, j);
    }
  }

  /** Recycling an unreferenced buffer for an uncached block loses nothing. */
  lemma RecycleOk(bufs: seq<Buf>, holds: seq<nat>, pins: seq<nat>, disk: Disk, view: Disk, i: nat, dev: nat, b: nat)
    requires RefsOk(bufs, holds, pins) && Unique(bufs) && DataOk(bufs, pins, disk, view)
    requires i < NBUF && bufs[i].refcnt == 0
    requires dev == ROOTDEV ==> b < |disk|
    requires forall j :: 0 <= j < NBUF ==> !IsFor(bufs[j], dev, b)
    ensures var bufs' := bufs[i := bufs[i].(dev := dev, blockno := b, valid := false, refcnt := 1)];
            && RefsOk(bufs', holds[i := 1], pins) && Unique(bufs') && DataOk(bufs', pins, disk, view)
  {
    var bufs' := bufs[i := bufs[i].(dev := dev, blockno := b, valid := false, refcnt := 1)];
    forall c | 0 <= c < |disk| && view[c] != disk[c]
      ensures exists j :: Caches(bufs', j, c) && (bufs'[j].locked || pins[j] > 0)
    {
      var j :| Caches(bufs, j, c) && (bufs[j].locked || pins[j] > 0);
      assert j != i;
      assert Caches(bufs', j, c);
    }
    forall j, c | Caches(bufs', j, c) ensures c < |view| && bufs'[j].data == view[c] {
      assert Caches(bufs, j, c);
    }
  }

  /** Changing only the reference count and the lock of a buffer; a buffer that is being unlocked is
      pinned or agrees with the disk. */
  lemma CountOk(bufs: seq<Buf>, holds: seq<nat>, pins: seq<nat>, disk: Disk, view: Disk, i: nat,
                h: nat, p: nat, locked: bool)
    requires RefsOk(bufs, holds, pins) && Unique(bufs) && DataOk(bufs, pins, disk, view)
    requires i < NBUF && (locked ==> h > 0)
    requires locked || p > 0 || (bufs[i].dev == ROOTDEV && bufs[i].valid ==> bufs[i].data == disk[bufs[i].blockno])
    ensures var bufs' := bufs[i := bufs[i].(refcnt := h + p, locked := locked)];
            && RefsOk(bufs', holds[i := h], pins[i := p]) && Unique(bufs')
            && DataOk(bufs', pins[i := p], disk, view)
  {
    var bufs' := bufs[i := bufs[i].(refcnt := h + p, locked := locked)];
    var pins' := pins[i := p];
    forall j, c | Caches(bufs', j, c) ensures c < |view| && bufs'[j].data == view[c] {
      assert Caches(bufs, j, c);
    }
    forall c | 0 <= c < |disk| && view[c] != disk[c]
      ensures exists j :: Caches(bufs', j, c) && (bufs'[j].locked || pins'[j] > 0)
    {
      var j :| Caches(bufs, j, c) && (bufs[j].locked || pins[j] > 0);
      assert Caches(bufs', j, c);
    }
  }

  /** Filling a locked buffer: with the disk block when it was invalid, or with new contents. */
  lemma FillOk(bufs: seq<Buf>, holds: seq<nat>, pins: seq<nat>, disk: Disk, view: Disk, i: nat, blk: Block)
    requires RefsOk(bufs, holds, pins) && Unique(bufs) && DataOk(bufs, pins, disk, view)
    requires i < NBUF && bufs[i].locked && bufs[i].dev == ROOTDEV
    ensures var bufs' := bufs[i := bufs[i].(valid := true, data := blk)];
            && RefsOk(bufs', holds, pins) && Unique(bufs')
            && DataOk(bufs', pins, disk, view[bufs[i].blockno := blk])
  {
    var b := bufs[i].blockno;
    var bufs' := bufs[i := bufs[i].(valid := true, data := blk)];
    var view' := view[b := blk];
    forall j, c | Caches(bufs', j, c) ensures c < |view'| && bufs'[j].data == view'[c] {
      if j != i {
        assert Caches(bufs, j, c);
        OnlyBuffer(bufs, i, j);
      }
    }
    forall c | 0 <= c < |disk| && view'[c] != disk[c]
      ensures exists j :: Caches(bufs', j, c) && (bufs'[j].locked || pins[j] > 0)
    {
      if c == b {
        assert Caches(bufs', i, c);
      } else {
        var j :| Caches(bufs, j, c) && (bufs[j].locked || pins[j] > 0);
        assert Caches(bufs', j, c);
      }
    }
  }

  /** Writing a locked, valid buffer to its place on disk. */
  lemma WriteOk(bufs: seq<Buf>, holds: seq<nat>, pins: seq<nat>, disk: Disk, view: Disk, i: nat)
    requires RefsOk(bufs, holds, pins) && Unique(bufs) && DataOk(bufs, pins, disk, view)
    requires i < NBUF && bufs[i].locked && bufs[i].dev == ROOTDEV && bufs[i].valid
    ensures bufs[i].blockno < |disk|
    ensures DataOk(bufs, pins, disk[bufs[i].blockno := bufs[i].data], view)
  {
    assert Caches(bufs, i, bufs[i].blockno);
  }

  /** An invalid locked buffer's block is up to date on disk. */
  lemma MissReadsLatest(bufs: seq<Buf>, pins: seq<nat>, disk: Disk, view: Disk, i: nat)
    requires Unique(bufs) && DataOk(bufs, pins, disk, view)
    requires i < |bufs| && bufs[i].dev == ROOTDEV && !bufs[i].valid
    ensures bufs[i].blockno < |disk| && view[bufs[i].blockno] == disk[bufs[i].blockno]
  {
    var b := bufs[i].blockno;
    if view[b] != disk[b] {
      var j :| Caches(bufs, j, b) && (bufs[j].locked || pins[j] > 0);
      OnlyBuffer(bufs, i, j);
    }
  }

  // ---- bcache

  /** All buffers after boot: unused, for block 0 of no device. */
  function Empty(): (bufs: seq<Buf>)
    ensures |bufs| == NBUF
  {
    seq(NBUF, _ => Buf(0, 0, 0, false, false, []))
  }

  ghost function Booted(order: seq<nat>, d: Disk): (g: Ghost) {
    var none := seq(NBUF, _ => 0);
    Ghost(order, seq(NBUF, i => i), NBUF, none, none, d, d, [])
  }

  lemma BootedOk(next: seq<nat>, prev: seq<nat>, order: seq<nat>, d: Disk)
    requires Linked(next, prev, order)
    requires |order| == NBUF && forall k :: 0 <= k < NBUF ==> order[k] == NBUF - 1 - k
    ensures Ok(next, prev, Empty(), d, Booted(order, d))
  {
    hide Linked;
    var g := Booted(order, d);
    forall b | 0 <= b < NBUF ensures b in order {
      assert order[NBUF - 1 - b] == b;
    }
    assert ListOk(next, prev, g);
  }

  lemma Sizes(bufs: seq<Buf>, holds: seq<nat>, pins: seq<nat>)
    requires RefsOk(bufs, holds, pins)
    ensures |bufs| == NBUF == |holds| == |pins|
  {
  }

  lemma RefCount(bufs: seq<Buf>, holds: seq<nat>, pins: seq<nat>, i: nat)
    requires RefsOk(bufs, holds, pins) && i < NBUF
    ensures |bufs| == NBUF == |holds| == |pins|
    ensures bufs[i].refcnt == holds[i] + pins[i] && (bufs[i].locked ==> holds[i] > 0)
  {
  }

  /** A buffer that may be unlocked: the log pins it, or its contents are on disk. */
  predicate Settled(bufs: seq<Buf>, pins: seq<nat>, disk: Disk, i: nat)
    requires i < |bufs| == |pins|
  {
    pins[i] > 0 || (bufs[i].dev == ROOTDEV && bufs[i].valid ==>
                      bufs[i].blockno < |disk| && bufs[i].data == disk[bufs[i].blockno])
  }

  lemma LockedOrClean(bufs: seq<Buf>, holds: seq<nat>, pins: seq<nat>, disk: Disk, view: Disk, i: nat)
    requires RefsOk(bufs, holds, pins) && Unique(bufs) && DataOk(bufs, pins, disk, view) && i < NBUF
    ensures bufs[i].locked || Settled(bufs, pins, disk, i)
  {
    if !bufs[i].locked && pins[i] == 0 && bufs[i].dev == ROOTDEV && bufs[i].valid {
      UnusedIsClean(bufs, pins, disk, view, i);
    }
  }

  lemma ListKeep(next: seq<nat>, prev: seq<nat>, g: Ghost, g': Ghost)
    requires ListOk(next, prev, g)
    requires g'.order == g.order && g'.stamp == g.stamp && g'.clock == g.clock
    ensures ListOk(next, prev, g')
  {
  }

  /** Buffer i is moved to the front now. */
  ghost function Front(g: Ghost, i: nat): (r: Ghost)
    requires i < |g.stamp| && i in g.order
  {
    var k :| 0 <= k < |g.order| && g.order[k] == i;
    g.(order := [i] + Remove(g.order, k), stamp := g.stamp[i := g.clock], clock := g.clock + 1)
  }

  lemma NotOwnNext(next: seq<nat>, prev: seq<nat>, order: seq<nat>, k: nat)
    requires Linked(next, prev, order) && k < |order|
    ensures next[order[k]] != order[k]
  {
    var c := Cycle(order);
    assert c[k + 1] == order[k] && next[c[k + 1]] == c[k + 2];
    CycleDistinct(order, k + 1, k + 2);
  }

  lemma FrontNewest(order: seq<nat>, stamp: seq<nat>, clock: nat, k: nat)
    requires Buffers(order) && |order| == NBUF == |stamp| && k < NBUF
    requires forall b :: 0 <= b < NBUF ==> stamp[b] < clock
    requires Newest(order, stamp)
    ensures Newest([order[k]] + Remove(order, k), stamp[order[k] := clock])
  {
    var order' := [order[k]] + Remove(order, k);
    var stamp' := stamp[order[k] := clock];
    forall j, m | 0 <= j < m < NBUF ensures stamp'[order'[j]] > stamp'[order'[m]] {
      var m' := if m <= k then m - 1 else m;
      assert order'[m] == order[m'] && m' != k;
      if j > 0 {
        var j' := if j <= k then j - 1 else j;
        assert order'[j] == order[j'] && j' != k;
      }
    }
  }

  lemma FrontSorted(g: Ghost, i: nat, k: nat)
    requires Buffers(g.order) && |g.order| == NBUF == |g.stamp| && k < NBUF && g.order[k] == i
    requires forall b :: 0 <= b < NBUF ==> b in g.order && g.stamp[b] < g.clock
    requires Newest(g.order, g.stamp)
    ensures var order' := [i] + Remove(g.order, k);
            var stamp' := g.stamp[i := g.clock];
            && (forall b :: 0 <= b < NBUF ==> b in order' && stamp'[b] < g.clock + 1)
            && Newest(order', stamp')
  {
    hide Newest;
    var order' := [i] + Remove(g.order, k);
    forall b | 0 <= b < NBUF ensures b in order' {
      assert b in g.order;
      if b != i {
        var m :| 0 <= m < NBUF && g.order[m] == b;
        assert order'[if m < k then m + 1 else m] == b;
      }
    }
    FrontNewest(g.order, g.stamp, g.clock, k);
  }

  lemma FrontOk(next: seq<nat>, prev: seq<nat>, g: Ghost, i: nat)
    requires ListOk(next, prev, g) && i < NBUF
    ensures |g.order| == NBUF == |g.stamp| && i in g.order && |next| == |prev| == NBUF + 1
    ensures next[i] <= NBUF && prev[i] <= NBUF && next[i] != i
    ensures var next1, prev1 := next[prev[i] := next[i]], prev[next[i] := prev[i]];
            && next1[HEAD] <= NBUF
            && ListOk(next1[i := next1[HEAD]][HEAD := i], prev1[i := HEAD][next1[HEAD] := i], Front(g, i))
            && Front(g, i).order[0] == i
    ensures forall j :: 0 <= j < NBUF && j != i ==> g.stamp[j] < g.clock
  {
    assert i in g.order;
    var k :| 0 <= k < |g.order| && g.order[k] == i && Front(g, i).order == [i] + Remove(g.order, k);
    UnlinkOk(next, prev, g.order, k);
    NotOwnNext(next, prev, g.order, k);
    PushOk(next[prev[i] := next[i]], prev[next[i] := prev[i]], Remove(g.order, k), i);
    FrontSorted(g, i, k);
  }

  /** What bread returns: the locked buffer caching block b with its current contents. Only that
      buffer changes, and it was unreferenced or already for this block. */
  ghost predicate Held(bufs: seq<Buf>, bufs': seq<Buf>, g: Ghost, g': Ghost, i: nat, b: nat)
    requires i < NBUF
  {
    && |bufs| == NBUF == |g.holds| && b < |g.view|
    && g' == g.(holds := g.holds[i := g.holds[i] + 1])
    && (bufs[i].refcnt > 0 ==> IsFor(bufs[i], ROOTDEV, b))
    && !bufs[i].locked
    && |bufs'| == NBUF && bufs' == bufs[i := bufs'[i]]
    && Caches(bufs', i, b) && bufs'[i].locked && bufs'[i].data == g.view[b]
  }

  /** A locked buffer is referenced, so it was not recycled. */
  lemma LockedHit(bufs: seq<Buf>, g: Ghost, i: nat, b: nat)
    requires RefsOk(bufs, g.holds, g.pins) && i < NBUF && bufs[i].locked
    requires !IsFor(bufs[i], ROOTDEV, b) ==> bufs[i].refcnt == 0
    ensures IsFor(bufs[i], ROOTDEV, b)
  {
  }

  /** What bget returns: the buffer already caching the block, or else the unreferenced buffer whose
      last release is oldest, now invalid and for this block. Nothing else changes. */
  ghost predicate Got(bufs: seq<Buf>, bufs': seq<Buf>, g: Ghost, g': Ghost, i: nat, dev: nat, b: nat)
    requires i < NBUF
  {
    && |bufs| == NBUF == |g.holds| == |g.stamp|
    && g' == g.(holds := g.holds[i := g.holds[i] + 1])
    && if IsFor(bufs[i], dev, b) then bufs' == bufs[i := bufs[i].(refcnt := bufs[i].refcnt + 1)]
       else
         && (forall j :: 0 <= j < NBUF ==> !IsFor(bufs[j], dev, b))
         && bufs[i].refcnt == 0
         && (forall j :: 0 <= j < NBUF && bufs[j].refcnt == 0 ==> g.stamp[i] <= g.stamp[j])
         && bufs' == bufs[i := bufs[i].(dev := dev, blockno := b, valid := false, refcnt := 1)]
  }

  /** A buffer for block b can be had: one has the block, or one is unreferenced. */
  ghost predicate Available(bufs: seq<Buf>, b: nat) {
    exists i :: 0 <= i < |bufs| && (bufs[i].refcnt == 0 || IsFor(bufs[i], ROOTDEV, b))
  }

  /** How bread ends: with the locked buffer, with the panic "bget: no buffers", or in acquiresleep,
      waiting for the holder of the buffer. */
  datatype ReadOutcome = Ready(i: nat) | NoBuffers | Waits(i: nat)

  class BCache {
    var next: seq<nat>
    var prev: seq<nat>
    var bufs: seq<Buf>
    var disk: Disk
    ghost var g: Ghost

    ghost predicate Valid()
      reads this
    {
      Ok(next, prev, bufs, disk, g)
    }

    /** binit: push every buffer on an empty list. */
    constructor (d: Disk)
      ensures Valid() && disk == d
      ensures g.view == d && g.first == d && g.trace == []
      ensures forall i :: 0 <= i < NBUF ==> bufs[i].dev == 0 && bufs[i].refcnt == 0 && !bufs[i].locked && g.pins[i] == 0
    {
      disk := d;
      bufs := Empty();
      next := seq(NBUF + 1, _ => HEAD);
      prev := seq(NBUF + 1, _ => HEAD);
      new;
      hide Ok;
      ghost var order: seq<nat> := [];
      var b := 0;
      while b < NBUF
        invariant 0 <= b <= NBUF
        invariant Linked(next, prev, order)
        invariant |order| == b && forall k :: 0 <= k < b ==> order[k] == b - 1 - k
        invariant disk == d && bufs == Empty()
      {
        PushOk(next, prev, order, b);
        next := next[b := next[HEAD]];
        prev := prev[b := HEAD];
        prev := prev[next[HEAD] := b];
        next := next[HEAD := b];
        order := [b] + order;
        b := b + 1;
      }
      g := Booted(order, d);
      BootedOk(next, prev, order, d);
    }

    /** bget, first loop: follow next from the head until the block is found. */
    method FindCached(dev: nat, b: nat) returns (r: Option<nat>)
      requires Valid()
      ensures r.Some? ==> r.value < NBUF && IsFor(bufs[r.value], dev, b)
      ensures r.None? ==> forall i :: 0 <= i < NBUF ==> !IsFor(bufs[i], dev, b)
    {
      hide Unique, DataOk, Apply, RefsOk;
      var i := next[HEAD];
      ghost var k := 0;
      ghost var c := Cycle(g.order);
      assert next[c[0]] == c[1];
      assert |bufs| == NBUF by { Sizes(bufs, g.holds, g.pins); }
      while i != HEAD
        invariant 0 <= k <= NBUF && i == c[k + 1]
        invariant forall j :: 0 <= j < k ==> !IsFor(bufs[g.order[j]], dev, b)
        decreases NBUF - k
      {
        assert i == g.order[k];
        if IsFor(bufs[i], dev, b) {
          return Some(i);
        }
        assert next[c[k + 1]] == c[k + 2];
        i := next[i];
        k := k + 1;
      }
      r := None;
      forall j | 0 <= j < NBUF ensures !IsFor(bufs[j], dev, b) {
        assert j in g.order;
      }
    }

    /** bget, second loop: follow prev from the head to the unreferenced buffer whose last release
        is oldest. */
    method FindUnused() returns (r: Option<nat>)
      requires Valid()
      ensures r.Some? ==> r.value < NBUF && bufs[r.value].refcnt == 0
      ensures r.Some? ==> forall j :: 0 <= j < NBUF && bufs[j].refcnt == 0 ==> g.stamp[r.value] <= g.stamp[j]
      ensures r.None? ==> forall i :: 0 <= i < NBUF ==> bufs[i].refcnt > 0
    {
      hide Unique, DataOk, Apply, RefsOk;
      var i := prev[HEAD];
      ghost var k := NBUF;
      ghost var c := Cycle(g.order);
      assert prev[c[NBUF + 1]] == c[NBUF];
      assert |bufs| == NBUF by { Sizes(bufs, g.holds, g.pins); }
      while i != HEAD
        invariant 0 <= k <= NBUF && i == c[k]
        invariant forall j :: k <= j < NBUF ==> bufs[g.order[j]].refcnt > 0
        decreases k
      {
        assert i == g.order[k - 1];
        if bufs[i].refcnt == 0 {
          forall j | 0 <= j < NBUF && bufs[j].refcnt == 0 ensures g.stamp[i] <= g.stamp[j] {
            assert j in g.order;
            var m :| 0 <= m < NBUF && g.order[m] == j;
          }
          return Some(i);
        }
        assert prev[c[k]] == c[k - 1];
        i := prev[i];
        k := k - 1;
      }
      r := None;
      forall j | 0 <= j < NBUF ensures bufs[j].refcnt > 0 {
        assert j in g.order;
      }
    }

    /** bget, up to waiting for the buffer's sleep lock: None is the panic "bget: no buffers". */
    method Bget(dev: nat, b: nat) returns (r: Option<nat>)
      requires Valid() && dev != 0 && (dev == ROOTDEV ==> b < |disk|)
      modifies this`bufs, this`g
      ensures Valid()
      ensures r.None? ==> bufs == old(bufs) && g == old(g)
      ensures r.None? ==> forall i :: 0 <= i < NBUF ==> bufs[i].refcnt > 0 && !IsFor(bufs[i], dev, b)
      ensures r.Some? ==> r.value < NBUF && Got(old(bufs), bufs, old(g), g, r.value, dev, b)
    {
      hide ListOk, Unique, DataOk, Apply, RefsOk;
      Sizes(bufs, g.holds, g.pins);
      var hit := FindCached(dev, b);
      if hit.Some? {
        var i := hit.value;
        RefCount(bufs, g.holds, g.pins, i);
        LockedOrClean(bufs, g.holds, g.pins, disk, g.view, i);
        CountOk(bufs, g.holds, g.pins, disk, g.view, i, g.holds[i] + 1, g.pins[i], bufs[i].locked);
        assert g.pins[i := g.pins[i]] == g.pins;
        bufs := bufs[i := bufs[i].(refcnt := bufs[i].refcnt + 1)];
        g := g.(holds := g.holds[i := g.holds[i] + 1]);
        ListKeep(next, prev, old(g), g);
        return Some(i);
      }
      var unused := FindUnused();
      if unused.None? {
        return None;
      }
      var i := unused.value;
      RefCount(bufs, g.holds, g.pins, i);
      RecycleOk(bufs, g.holds, g.pins, disk, g.view, i, dev, b);
      bufs := bufs[i := bufs[i].(dev := dev, blockno := b, valid := false, refcnt := 1)];
      g := g.(holds := g.holds[i := 1]);
      ListKeep(next, prev, old(g), g);
      r := Some(i);
    }

    /** acquiresleep on a buffer this caller has a reference to, once it is free. */
    method Acquiresleep(i: nat)
      requires Valid() && i < NBUF && g.holds[i] > 0 && !bufs[i].locked
      modifies this`bufs
      ensures Valid() && bufs == old(bufs)[i := old(bufs)[i].(locked := true)]
    {
      hide ListOk, Unique, DataOk, Apply, RefsOk;
      RefCount(bufs, g.holds, g.pins, i);
      CountOk(bufs, g.holds, g.pins, disk, g.view, i, g.holds[i], g.pins[i], true);
      assert g.pins[i := g.pins[i]] == g.pins && g.holds[i := g.holds[i]] == g.holds;
      bufs := bufs[i := bufs[i].(locked := true)];
    }

    /** releasesleep; the buffer must be pinned in the log or agree with the disk. */
    method Releasesleep(i: nat)
      requires Valid() && i < NBUF && bufs[i].locked && Settled(bufs, g.pins, disk, i)
      modifies this`bufs
      ensures Valid() && bufs == old(bufs)[i := old(bufs)[i].(locked := false)]
    {
      hide ListOk, Unique, DataOk, Apply, RefsOk;
      RefCount(bufs, g.holds, g.pins, i);
      CountOk(bufs, g.holds, g.pins, disk, g.view, i, g.holds[i], g.pins[i], false);
      assert g.pins[i := g.pins[i]] == g.pins && g.holds[i := g.holds[i]] == g.holds;
      bufs := bufs[i := bufs[i].(locked := false)];
    }

    /** bread: a locked buffer with the current contents of the block, whatever has been recycled. If
        somebody else holds its lock, it ends where acquiresleep waits, with a reference taken. */
    method Bread(b: nat) returns (r: ReadOutcome)
      requires Valid() && b < |disk|
      modifies this`bufs, this`g
      ensures Valid() && g == old(g).(holds := g.holds)
      ensures r.NoBuffers? ==> bufs == old(bufs) && g == old(g)
      ensures r.NoBuffers? <==> !Available(old(bufs), b)
      ensures r.Ready? ==> r.i < NBUF && Held(old(bufs), bufs, old(g), g, r.i, b)
      ensures r.Waits? ==> r.i < NBUF && Got(old(bufs), bufs, old(g), g, r.i, ROOTDEV, b)
      ensures r.Waits? ==> IsFor(old(bufs)[r.i], ROOTDEV, b) && old(bufs)[r.i].locked
    {
      hide ListOk, Unique, Apply, RefsOk;
      Sizes(bufs, g.holds, g.pins);
      var got := Bget(ROOTDEV, b);
      if got.None? {
        return NoBuffers;
      }
      var i := got.value;
      Sizes(bufs, g.holds, g.pins);
      if bufs[i].locked {
        LockedHit(old(bufs), old(g), i, b);
        return Waits(i);
      }
      r := Ready(i);
      Acquiresleep(i);
      if !bufs[i].valid {
        MissReadsLatest(bufs, g.pins, disk, g.view, i);
        FillOk(bufs, g.holds, g.pins, disk, g.view, i, disk[bufs[i].blockno]);
        assert g.view[bufs[i].blockno := disk[bufs[i].blockno]] == g.view;
        ghost var filled := bufs[i := bufs[i].(valid := true, data := disk[bufs[i].blockno])];
        bufs := bufs[i := bufs[i].(data := disk[bufs[i].blockno])];
        bufs := bufs[i := bufs[i].(valid := true)];
        assert bufs == filled;
      }
      assert Caches(bufs, i, b);
    }

    /** The lock holder changes b->data. */
    method Modify(i: nat, blk: Block)
      requires Valid() && i < NBUF && bufs[i].locked && bufs[i].dev == ROOTDEV && bufs[i].valid
      modifies this`bufs, this`g
      ensures Valid() && bufs[i].blockno < |g.view|
      ensures bufs == old(bufs)[i := old(bufs)[i].(data := blk)]
      ensures g == old(g).(view := old(g).view[bufs[i].blockno := blk])
    {
      hide ListOk, Unique, Apply, RefsOk;
      FillOk(bufs, g.holds, g.pins, disk, g.view, i, blk);
      Sizes(bufs, g.holds, g.pins);
      bufs := bufs[i := bufs[i].(data := blk)];
      g := g.(view := g.view[bufs[i].blockno := blk]);
      ListKeep(next, prev, old(g), g);
    }

    /** bwrite: the buffer's contents reach the disk. */
    method Bwrite(i: nat)
      requires Valid() && i < NBUF && bufs[i].locked && bufs[i].dev == ROOTDEV && bufs[i].valid
      modifies this`disk, this`g
      ensures Valid() && bufs[i].blockno < |old(disk)|
      ensures disk == old(disk)[bufs[i].blockno := bufs[i].data]
      ensures g == old(g).(trace := old(g).trace + [Write(bufs[i].blockno, bufs[i].data)])
    {
      hide ListOk, Unique, Apply, RefsOk, DataOk;
      WriteOk(bufs, g.holds, g.pins, disk, g.view, i);
      Sizes(bufs, g.holds, g.pins);
      ApplyLast(g.first, g.trace, Write(bufs[i].blockno, bufs[i].data));
      disk := disk[bufs[i].blockno := bufs[i].data];
      g := g.(trace := g.trace + [Write(bufs[i].blockno, bufs[i].data)]);
      ListKeep(next, prev, old(g), g);
    }

    /** bpin: the log keeps a reference to a buffer its caller holds. */
    method Bpin(i: nat)
      requires Valid() && i < NBUF && g.holds[i] > 0
      modifies this`bufs, this`g
      ensures Valid() && bufs == old(bufs)[i := old(bufs)[i].(refcnt := old(bufs)[i].refcnt + 1)]
      ensures g == old(g).(pins := old(g).pins[i := old(g).pins[i] + 1])
    {
      hide ListOk, Unique, Apply, RefsOk, DataOk;
      RefCount(bufs, g.holds, g.pins, i);
      CountOk(bufs, g.holds, g.pins, disk, g.view, i, g.holds[i], g.pins[i] + 1, bufs[i].locked);
      assert g.holds[i := g.holds[i]] == g.holds;
      bufs := bufs[i := bufs[i].(refcnt := bufs[i].refcnt + 1)];
      g := g.(pins := g.pins[i := g.pins[i] + 1]);
      ListKeep(next, prev, old(g), g);
    }

    /** bunpin, by the lock holder. */
    method Bunpin(i: nat)
      requires Valid() && i < NBUF && bufs[i].locked && g.pins[i] > 0
      modifies this`bufs, this`g
      ensures Valid() && old(bufs)[i].refcnt > 0
      ensures bufs == old(bufs)[i := old(bufs)[i].(refcnt := old(bufs)[i].refcnt - 1)]
      ensures g == old(g).(pins := old(g).pins[i := old(g).pins[i] - 1])
    {
      hide ListOk, Unique, Apply, RefsOk, DataOk;
      RefCount(bufs, g.holds, g.pins, i);
      CountOk(bufs, g.holds, g.pins, disk, g.view, i, g.holds[i], g.pins[i] - 1, bufs[i].locked);
      assert g.holds[i := g.holds[i]] == g.holds;
      bufs := bufs[i := bufs[i].(refcnt := bufs[i].refcnt - 1)];
      g := g.(pins := g.pins[i := g.pins[i] - 1]);
      ListKeep(next, prev, old(g), g);
    }

    /** brelse: drop the lock and one reference; the last reference moves the buffer to the front of
        the list, where it counts as just released. */
    method Brelse(i: nat)
      requires Valid() && i < NBUF && bufs[i].locked && Settled(bufs, g.pins, disk, i)
      modifies this`bufs, this`g, this`next, this`prev
      ensures Valid() && old(bufs)[i].refcnt > 0 && old(g).holds[i] > 0
      ensures bufs == old(bufs)[i := old(bufs)[i].(refcnt := old(bufs)[i].refcnt - 1, locked := false)]
      ensures g.holds == old(g).holds[i := old(g).holds[i] - 1]
      ensures g.pins == old(g).pins && g.view == old(g).view && g.first == old(g).first && g.trace == old(g).trace
      ensures bufs[i].refcnt > 0 ==> g.stamp == old(g).stamp && g.order == old(g).order
      ensures bufs[i].refcnt == 0 ==>
                && g.order[0] == i && g.stamp == old(g).stamp[i := g.stamp[i]]
                && forall j :: 0 <= j < NBUF && j != i ==> g.stamp[j] < g.stamp[i]
    {
      hide ListOk, Unique, Apply, RefsOk, DataOk;
      RefCount(bufs, g.holds, g.pins, i);
      Releasesleep(i);
      RefCount(bufs, g.holds, g.pins, i);
      CountOk(bufs, g.holds, g.pins, disk, g.view, i, g.holds[i] - 1, g.pins[i], false);
      assert g.pins[i := g.pins[i]] == g.pins;
      bufs := bufs[i := bufs[i].(refcnt := bufs[i].refcnt - 1)];
      g := g.(holds := g.holds[i := g.holds[i] - 1]);
      ListKeep(next, prev, old(g), g);
      if bufs[i].refcnt == 0 {
        FrontOk(next, prev, g, i);
        g := Front(g, i);
        prev := prev[next[i] := prev[i]];
        next := next[prev[i] := next[i]];
        next := next[i := next[HEAD]];
        prev := prev[i := HEAD];
        prev := prev[next[HEAD] := i];
        next := next[HEAD := i];
      }
    }
  }
}
