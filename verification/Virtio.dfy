/**
 * The virtio disk driver (kernel/virtio_disk.c) against a device that follows sections 2.6 and 5.2
 * of VIRTIO 1.1: the descriptor loops as a class, the queue protocol as a step system in which
 * driver and device take their steps in any order.
 */
module Virtio {
  import opened Collections

  const NUM := 8
  const WRAP := 65536       // ring indices are 16 bits wide

  /** What a descriptor points at: a request header, the data of a buffer, a status byte. */
  datatype Addr = Null | OpAddr(head: nat) | DataAddr(buf: nat) | StatusAddr(head: nat)

  datatype Desc = Desc(addr: Addr, next: nat, hasNext: bool, deviceWrites: bool)

  /** struct virtio_blk_req */
  datatype BlkReq = BlkReq(write: bool, sector: nat)

  datatype Info = Info(status: nat, b: Option<nat>)

  const ZERO := Desc(Null, 0, false, false)

  /** How far a request has come; the number is its place in the ring it is in. */
  datatype Phase =
    | Prepared            // in the avail ring, not yet announced
    | Published(m: nat)   // announced, not yet taken by the device
    | Taken               // the device works on it
    | Moved               // the data is moved and the status written
    | Filled              // in the used ring, not yet announced
    | Used(m: nat)        // announced there, not yet seen by the driver
    | Completed           // b->disk is 0, the descriptors are not yet freed

  /** A request in flight, by its first descriptor. */
  datatype Req = Req(second: nat, third: nat, buf: nat, write: bool, sector: nat, phase: Phase, serial: nat)

  predicate Apart(h: nat, r: Req) {
    h < NUM && r.second < NUM && r.third < NUM && h != r.second && h != r.third && r.second != r.third
  }

  /** The same value at three descriptors. */
  function Set3<T>(s: seq<T>, a: nat, b: nat, c: nat, x: T): (s': seq<T>)
    requires |s| == NUM && a < NUM && b < NUM && c < NUM
    ensures |s'| == NUM
  {
    s[a := x][b := x][c := x]
  }

  /** The three descriptors of a request, as virtio_disk_rw formats them. */
  function Link(desc: seq<Desc>, h: nat, r: Req): (desc': seq<Desc>)
    requires |desc| == NUM && Apart(h, r)
  {
    desc[h := Desc(OpAddr(h), r.second, true, false)][r.second := Desc(DataAddr(r.buf), r.third, true, !r.write)]
        [r.third := Desc(StatusAddr(h), 0, false, true)]
  }

  predicate InChain(r: Req, head: nat, i: nat) { i == head || i == r.second || i == r.third }

  predicate Linked(desc: seq<Desc>, head: nat, r: Req)
    requires |desc| == NUM
  {
    && Apart(head, r)
    && desc[head] == Desc(OpAddr(head), r.second, true, false)
    && desc[r.second] == Desc(DataAddr(r.buf), r.third, true, !r.write)
    && desc[r.third] == Desc(StatusAddr(head), 0, false, true)
  }

  /** The descriptors are linked for the request, and its header says what it asks for. */
  predicate Formatted(desc: seq<Desc>, ops: seq<BlkReq>, head: nat, r: Req)
    requires |desc| == NUM && |ops| == NUM
  {
    && Apart(head, r)
    && ops[head] == BlkReq(r.write, r.sector) && Linked(desc, head, r)
  }

  /** Every descriptor is free or in exactly one chain: owner names the chain. */
  ghost predicate Partition(free: seq<bool>, owner: seq<Option<nat>>, reqs: map<nat, Req>) {
    && |free| == NUM && |owner| == NUM
    && (forall i: nat :: i < NUM ==> (free[i] <==> owner[i].None?))
    && (forall i: nat :: i < NUM && owner[i].Some? ==> owner[i].value in reqs
                                                       && InChain(reqs[owner[i].value], owner[i].value, i))
    && (forall h: nat :: h in reqs ==>
          && Apart(h, reqs[h])
          && owner[h] == Some(h) && owner[reqs[h].second] == Some(h) && owner[reqs[h].third] == Some(h))
  }

  ghost predicate Formats(desc: seq<Desc>, ops: seq<BlkReq>, reqs: map<nat, Req>) {
    |desc| == NUM && |ops| == NUM && forall h: nat :: h in reqs ==> Formatted(desc, ops, h, reqs[h])
  }

  /** The device has moved the data and written the status. */
  predicate Transferred(phase: Phase) { phase.Moved? || phase.Filled? || phase.Used? }

  /** Buffers: a request in flight has b->disk set until it is completed, and no two share one. */
  ghost predicate BufsOk(info: seq<Info>, busy: set<nat>, reqs: map<nat, Req>) {
    && |info| == NUM
    && (forall h: nat :: h in reqs ==>
          && h < NUM && info[h].b == Some(reqs[h].buf)
          && (Transferred(reqs[h].phase) ==> info[h].status == 0)
          && (reqs[h].buf in busy <==> !reqs[h].phase.Completed?))
    && (forall g: nat, h: nat :: g in reqs && h in reqs && g != h ==> reqs[g].buf != reqs[h].buf)
  }

  /** Entry number m of a ring, in a slot of its own. */
  function Slot(m: nat): (i: nat) ensures i < NUM { m % NUM }

  /** A count as a 16-bit index. */
  function Idx(m: nat): (i: nat) { m % WRAP }

  /** A ring holds the entries of `queue`, numbered from `first`, that the other side has not read. */
  ghost predicate RingOk(ring: seq<nat>, first: nat, queue: seq<nat>) {
    && |ring| == NUM && |queue| < NUM
    && forall j: nat :: j < |queue| ==> ring[Slot(first + j)] == queue[j]
  }

  /** The announced requests are those in the avail ring, in order. */
  ghost predicate AvailOk(first: nat, queue: seq<nat>, reqs: map<nat, Req>) {
    && (forall j: nat :: j < |queue| ==> queue[j] in reqs && reqs[queue[j]].phase == Published(first + j))
    && (forall h: nat :: h in reqs && reqs[h].phase.Published? ==>
          first <= reqs[h].phase.m < first + |queue| && queue[reqs[h].phase.m - first] == h)
  }

  /** The finished requests are those in the used ring, in order. */
  ghost predicate UsedOk(first: nat, queue: seq<nat>, reqs: map<nat, Req>) {
    && (forall j: nat :: j < |queue| ==> queue[j] in reqs && reqs[queue[j]].phase == Used(first + j))
    && (forall h: nat :: h in reqs && reqs[h].phase.Used? ==>
          first <= reqs[h].phase.m < first + |queue| && queue[reqs[h].phase.m - first] == h)
  }

  // ---- rings and 16-bit indices

  lemma SlotsApart(first: nat, j: nat, m: nat)
    requires j < m < NUM
    ensures Slot(first + j) != Slot(first + m)
  {
  }

  /** A new entry does not overwrite an unread one. */
  lemma RingPut(ring: seq<nat>, first: nat, queue: seq<nat>, h: nat)
    requires RingOk(ring, first, queue) && |queue| + 1 < NUM
    ensures RingOk(ring[Slot(first + |queue|) := h], first, queue + [h])
    ensures RingOk(ring[Slot(first + |queue|) := h], first, queue)
  {
    hide Slot;
    var ring', queue' := ring[Slot(first + |queue|) := h], queue + [h];
    forall j: nat | j < |queue'| ensures ring'[Slot(first + j)] == queue'[j] {
      if j < |queue| { SlotsApart(first, j, |queue|); }
    }
    forall j: nat | j < |queue| ensures ring'[Slot(first + j)] == queue[j] {
      assert queue'[j] == queue[j];
    }
  }

  /** Reading the oldest entry. */
  lemma RingGet(ring: seq<nat>, first: nat, queue: seq<nat>)
    requires RingOk(ring, first, queue) && queue != []
    ensures ring[Slot(first)] == queue[0] && RingOk(ring, first + 1, queue[1..])
  {
    hide Slot;
    assert Slot(first + 0) == Slot(first);
    forall j: nat | j < |queue[1..]| ensures ring[Slot(first + 1 + j)] == queue[1..][j] {
      assert Slot(first + (j + 1)) == Slot(first + 1 + j);
    }
  }

  lemma EightDivides(a: nat, r: nat)
    ensures (8 * a + r) % 8 == r % 8
  {
  }

  /** The truncated index finds the same slot as the true count. */
  lemma SlotOfIndex(m: nat)
    ensures Slot(Idx(m)) == Slot(m) && Idx(Idx(m) + 1) == Idx(m + 1)
  {
    var q, r := m / WRAP, m % WRAP;
    assert m == WRAP * q + r;
    EightDivides(8192 * q, r);
  }

  lemma Reduce(q: nat, r: nat)
    requires r < WRAP
    ensures (WRAP * q + r) % WRAP == r
  {
  }

  /** Comparing truncated indices tells whether the ring is empty. */
  lemma EmptyTest(first: nat, len: nat)
    requires len < NUM
    ensures Idx(first) == Idx(first + len) <==> len == 0
  {
    if len > 0 {
      var q, r := first / WRAP, first % WRAP;
      assert first == WRAP * q + r;
      if r + len < WRAP {
        Reduce(q, r + len);
      } else {
        Reduce(q + 1, r + len - WRAP);
      }
    }
  }

  // ---- how many requests fit

  /** Different numbers below NUM, none of them x, are fewer than NUM. */
  lemma FewerThan(s: seq<nat>, x: nat)
    requires Distinct(s) && x < NUM && forall i :: 0 <= i < |s| ==> s[i] < NUM && s[i] != x
    ensures |s| < NUM
  {
    SizeOf(s);
    var others := {0, 1, 2, 3, 4, 5, 6, 7} - {x};
    assert Elems(s) <= others;
    SubsetSize(Elems(s), others);
  }

  // ---- descriptors

  /** desc and free agree outside the descriptors in use. */
  predicate SameInUse(free: seq<bool>, desc: seq<Desc>, desc': seq<Desc>) {
    |free| == |desc| == |desc'| && forall i :: 0 <= i < |free| && !free[i] ==> desc'[i] == desc[i]
  }

  /** Who holds vdisk_lock across steps: a request between writing its ring entry and announcing it,
      or the interrupt handler. */
  datatype Holder = Nobody | Requester(head: nat) | Handler

  /** A request is prepared but not announced exactly while its requester holds the lock; m is the
      number of the next ring entry. */
  ghost predicate LockOk(lock: Holder, reqs: map<nat, Req>, ring: seq<nat>, m: nat) {
    && |ring| == NUM
    && (forall h: nat :: h in reqs && reqs[h].phase.Prepared? ==> lock == Requester(h))
    && (lock.Requester? ==> lock.head in reqs && reqs[lock.head].phase.Prepared? && ring[Slot(m)] == lock.head)
  }

  /** The device writes one used entry at a time; m is the number of the next one. */
  ghost predicate FillOk(filling: Option<nat>, reqs: map<nat, Req>, ring: seq<nat>, m: nat) {
    && |ring| == NUM
    && (forall h: nat :: h in reqs && reqs[h].phase.Filled? ==> filling == Some(h))
    && (filling.Some? ==>
          filling.value in reqs && reqs[filling.value].phase.Filled? && ring[Slot(m)] == filling.value)
  }

  /** Each request has a number of its own, and is completed once. */
  ghost predicate Serials(reqs: map<nat, Req>, completed: set<nat>, nextSerial: nat) {
    && (forall h: nat :: h in reqs ==> reqs[h].serial < nextSerial
                                       && (reqs[h].serial in completed <==> reqs[h].phase.Completed?))
    && (forall g: nat, h: nat :: g in reqs && h in reqs && g != h ==> reqs[g].serial != reqs[h].serial)
    && (forall x :: x in completed ==> x < nextSerial)
  }

  /** Driver and device at one moment, with the history that the invariant speaks of. */
  datatype Snap = Snap(
    free: seq<bool>, desc: seq<Desc>, ops: seq<BlkReq>, info: seq<Info>,
    availRing: seq<nat>, availIdx: nat, usedRing: seq<nat>, usedIdx: nat,
    seenIdx: nat, devAvail: nat,       // disk.used_idx, and the device's own index into the avail ring
    filling: Option<nat>,              // the request whose used entry the device has written and not announced
    busy: set<nat>,                    // buffers with b->disk == 1
    lock: Holder,                      // vdisk_lock
    platter: map<nat, nat>, data: map<nat, nat>,   // contents of sectors and buffers
    reqs: map<nat, Req>, owner: seq<Option<nat>>,
    taken: nat, availQ: seq<nat>,      // entries the device has read, and those it has not
    seen: nat, usedQ: seq<nat>,        // entries the driver has handled, and those it has not
    nextSerial: nat, completed: set<nat>)

  predicate Sized(s: Snap) {
    |s.free| == |s.owner| == |s.desc| == |s.ops| == |s.info| == |s.availRing| == |s.usedRing| == NUM
  }

  ghost predicate Rings(s: Snap) {
    && RingOk(s.availRing, s.taken, s.availQ) && AvailOk(s.taken, s.availQ, s.reqs)
    && RingOk(s.usedRing, s.seen, s.usedQ) && UsedOk(s.seen, s.usedQ, s.reqs)
    && s.devAvail == Idx(s.taken) && s.availIdx == Idx(s.taken + |s.availQ|)
    && s.seenIdx == Idx(s.seen) && s.usedIdx == Idx(s.seen + |s.usedQ|)
  }

  ghost predicate Ok(s: Snap) {
    && Partition(s.free, s.owner, s.reqs) && Formats(s.desc, s.ops, s.reqs) && BufsOk(s.info, s.busy, s.reqs)
    && Rings(s) && LockOk(s.lock, s.reqs, s.availRing, s.taken + |s.availQ|)
       && Serials(s.reqs, s.completed, s.nextSerial)
    && FillOk(s.filling, s.reqs, s.usedRing, s.seen + |s.usedQ|)
  }

  // ---- how the invariants move with a request

  function SetPhase(reqs: map<nat, Req>, h: nat, phase: Phase): (r: map<nat, Req>)
    requires h in reqs
  {
    reqs[h := reqs[h].(phase := phase)]
  }

  lemma PhaseKeeps(free: seq<bool>, owner: seq<Option<nat>>, desc: seq<Desc>, ops: seq<BlkReq>, reqs: map<nat, Req>,
                   h: nat, phase: Phase)
    requires Partition(free, owner, reqs) && Formats(desc, ops, reqs) && h in reqs
    ensures Partition(free, owner, SetPhase(reqs, h, phase)) && Formats(desc, ops, SetPhase(reqs, h, phase))
  {
  }

  /** A new request on three free descriptors. */
  lemma PartitionAdd(free: seq<bool>, owner: seq<Option<nat>>, reqs: map<nat, Req>, h: nat, r: Req)
    requires Partition(free, owner, reqs) && Apart(h, r) && free[h] && free[r.second] && free[r.third]
    ensures h !in reqs
    ensures Partition(Set3(free, h, r.second, r.third, false),
                      Set3(owner, h, r.second, r.third, Some(h)), reqs[h := r])
  {
  }

  /** The descriptors of a request go back. */
  lemma PartitionRemove(free: seq<bool>, owner: seq<Option<nat>>, reqs: map<nat, Req>, h: nat)
    requires Partition(free, owner, reqs) && h in reqs
    ensures var r := reqs[h];
            Partition(Set3(free, h, r.second, r.third, true), Set3(owner, h, r.second, r.third, None), reqs - {h})
  {
    var r := reqs[h];
    forall g: nat | g in reqs && g != h
      ensures !InChain(r, h, g) && !InChain(r, h, reqs[g].second) && !InChain(r, h, reqs[g].third)
    {
      assert owner[g] == Some(g) && owner[reqs[g].second] == Some(g) && owner[reqs[g].third] == Some(g);
    }
    forall i: nat | i < NUM && owner[i] == Some(h) ensures InChain(r, h, i) { }
  }

  /** The second descriptor of a chain is the head of none, so the heads in a ring leave room. */
  lemma Room(free: seq<bool>, owner: seq<Option<nat>>, reqs: map<nat, Req>, h: nat, queue: seq<nat>)
    requires Partition(free, owner, reqs) && h in reqs && Distinct(queue)
    requires forall j :: 0 <= j < |queue| ==> queue[j] in reqs && queue[j] != h
    ensures |queue| + 1 < NUM
  {
    var x := reqs[h].second;
    var heads := queue + [h];
    forall i | 0 <= i < |heads| ensures heads[i] < NUM && heads[i] != x {
      assert heads[i] in reqs;
    }
    FewerThan(heads, x);
  }

  lemma AvailDistinct(first: nat, queue: seq<nat>, reqs: map<nat, Req>)
    requires AvailOk(first, queue, reqs)
    ensures Distinct(queue)
  {
    forall i, j | 0 <= i < j < |queue| ensures queue[i] != queue[j] {
      assert reqs[queue[i]].phase == Published(first + i) && reqs[queue[j]].phase == Published(first + j);
    }
  }

  lemma UsedDistinct(first: nat, queue: seq<nat>, reqs: map<nat, Req>)
    requires UsedOk(first, queue, reqs)
    ensures Distinct(queue)
  {
    forall i, j | 0 <= i < j < |queue| ensures queue[i] != queue[j] {
      assert reqs[queue[i]].phase == Used(first + i) && reqs[queue[j]].phase == Used(first + j);
    }
  }

  ghost function FreeOnes(free: seq<bool>): (s: set<nat>) { set i: nat | i < |free| && free[i] }

  /** Fewer than three, if all free ones are in a list that short. */
  lemma FewFree(free: seq<bool>, idx: seq<nat>)
    requires |idx| < 3 && forall i: nat :: i < |free| && free[i] ==> i in idx
    ensures |FreeOnes(free)| < 3
  {
    var some := if |idx| == 0 then {} else if |idx| == 1 then {idx[0]} else {idx[0], idx[1]};
    SubsetSize(FreeOnes(free), some);
  }

  lemma ThreeFree(free: seq<bool>, i: nat, j: nat, k: nat)
    requires i < j < k < |free| && free[i] && free[j] && free[k]
    ensures |FreeOnes(free)| >= 3
  {
    SubsetSize({i, j, k}, FreeOnes(free));
  }

  /** The first free descriptors, in order, are taken, and no others. */
  ghost predicate Allotted(free0: seq<bool>, free: seq<bool>, idx: seq<nat>) {
    && |free0| == |free| == NUM
    && (forall j :: 0 <= j < |idx| ==> idx[j] < NUM && free0[idx[j]])
    && (forall j, k :: 0 <= j < k < |idx| ==> idx[j] < idx[k])
    && (forall k :: 0 <= k < NUM ==> (free[k] <==> free0[k] && k !in idx))
    && (idx != [] ==> forall k :: 0 <= k < idx[|idx| - 1] && free0[k] ==> k in idx)
  }

  lemma AllottedNone(free: seq<bool>)
    requires |free| == NUM
    ensures Allotted(free, free, [])
  {
  }

  lemma AllottedIs(free0: seq<bool>, free: seq<bool>, idx: seq<nat>)
    requires Allotted(free0, free, idx)
    ensures |free0| == |free| == NUM && Distinct(idx)
    ensures forall j :: 0 <= j < |idx| ==> idx[j] < NUM && free0[idx[j]] && !free[idx[j]]
    ensures forall k :: 0 <= k < NUM ==> (free[k] <==> free0[k] && k !in idx)
    ensures |idx| == 3 ==> idx[0] < idx[1] < idx[2] && forall k :: 0 <= k < idx[2] && free0[k] ==> k in idx
  {
  }

  /** One more, if it is the first that is free. */
  lemma AllottedNext(free0: seq<bool>, free: seq<bool>, free': seq<bool>, idx: seq<nat>, d: nat)
    requires Allotted(free0, free, idx) && d < NUM && free[d] && free' == free[d := false]
    requires forall k :: 0 <= k < d ==> !free[k]
    ensures Allotted(free0, free', idx + [d])
  {
    var idx' := idx + [d];
    forall k | 0 <= k < NUM ensures free'[k] <==> free0[k] && k !in idx' {
      assert free[k] <==> free0[k] && k !in idx;
    }
    assert free0[d] && d !in idx;
    assert forall j :: 0 <= j < |idx| ==> idx[j] in idx;
  }

  /** disk.free and disk.desc, which vdisk_lock protects. */
  class Descriptors {
    var free: seq<bool>
    var desc: seq<Desc>

    /** alloc_desc: the first free descriptor, or -1. */
    method AllocDesc() returns (r: int)
      requires |free| == NUM
      modifies `free
      ensures r == -1 || 0 <= r < NUM
      ensures r == -1 ==> free == old(free) && forall i :: 0 <= i < NUM ==> !free[i]
      ensures r != -1 ==> old(free)[r] && free == old(free)[r := false] && forall i :: 0 <= i < r ==> !old(free)[i]
    {
      var i := 0;
      while i < NUM
        invariant 0 <= i <= NUM && free == old(free)
        invariant forall j :: 0 <= j < i ==> !free[j]
      {
        if free[i] {
          free := free[i := false];
          return i;
        }
        i := i + 1;
      }
      r := -1;
    }

    /** free_desc; a descriptor that is free already would make it panic. */
    method FreeDesc(i: nat)
      requires |free| == NUM && |desc| == NUM && i < NUM && !free[i]
      modifies `free, `desc
      ensures free == old(free)[i := true] && desc == old(desc)[i := ZERO]
    {
      desc := desc[i := ZERO];
      free := free[i := true];
    }

    /** The loop of alloc3_desc that gives descriptors back. */
    method GiveBack(idx: seq<nat>)
      requires |free| == NUM && |desc| == NUM && Distinct(idx)
      requires forall k :: 0 <= k < |idx| ==> idx[k] < NUM && !free[idx[k]]
      modifies `free, `desc
      ensures |free| == NUM && |desc| == NUM
      ensures forall k :: 0 <= k < NUM ==> (free[k] <==> old(free)[k] || k in idx)
      ensures forall k :: 0 <= k < NUM && k !in idx ==> desc[k] == old(desc)[k]
    {
      var j := 0;
      while j < |idx|
        invariant 0 <= j <= |idx| && |free| == NUM && |desc| == NUM
        invariant forall k :: 0 <= k < NUM ==> (free[k] <==> old(free)[k] || k in idx[..j])
        invariant forall k :: 0 <= k < NUM && k !in idx[..j] ==> desc[k] == old(desc)[k]
      {
        assert idx[j] !in idx[..j];
        FreeDesc(idx[j]);
        assert idx[..j + 1] == idx[..j] + [idx[j]];
        j := j + 1;
      }
      assert idx[..j] == idx;
    }

    /** alloc3_desc: the first three free descriptors, or none, exactly when fewer are free. */
    method Alloc3Desc() returns (ok: bool, idx: seq<nat>)
      requires |free| == NUM && |desc| == NUM
      modifies `free, `desc
      ensures ok ==> |idx| == 3 && idx[0] < idx[1] < idx[2] < NUM
      ensures ok ==> old(free)[idx[0]] && old(free)[idx[1]] && old(free)[idx[2]] && desc == old(desc)
      ensures ok ==> forall i :: 0 <= i < idx[2] && old(free)[i] ==> i in idx
      ensures ok ==> free == Set3(old(free), idx[0], idx[1], idx[2], false)
      ensures ok <==> |FreeOnes(old(free))| >= 3
      ensures !ok ==> free == old(free) && SameInUse(old(free), old(desc), desc)
    {
      hide FreeOnes, Allotted;
      idx := [];
      var i := 0;
      AllottedNone(free);
      while i < 3
        invariant 0 <= i <= 3 && |idx| == i && desc == old(desc) && Allotted(old(free), free, idx)
      {
        AllottedIs(old(free), free, idx);
        ghost var free1 := free;
        var d := AllocDesc();
        if d < 0 {
          FewFree(old(free), idx);
          GiveBack(idx);
          assert free == old(free);
          return false, [];
        }
        AllottedNext(old(free), free1, free, idx, d);
        idx := idx + [d];
        i := i + 1;
      }
      AllottedIs(old(free), free, idx);
      ThreeFree(old(free), idx[0], idx[1], idx[2]);
      assert free == Set3(old(free), idx[0], idx[1], idx[2], false);
      ok := true;
    }

    /** free_chain: the three descriptors of a request, following the next fields. */
    method FreeChain(head: nat, ghost r: Req)
      requires |free| == NUM && |desc| == NUM && Linked(desc, head, r)
      requires !free[head] && !free[r.second] && !free[r.third]
      modifies `free, `desc
      ensures free == Set3(old(free), head, r.second, r.third, true)
              && desc == Set3(old(desc), head, r.second, r.third, ZERO)
    {
      var i := head;
      ghost var n := 0;
      while true
        invariant 0 <= n <= 2 && |free| == NUM && |desc| == NUM
        invariant n == 0 ==> i == head && free == old(free) && desc == old(desc)
        invariant n == 1 ==> i == r.second && free == old(free)[head := true] && desc == old(desc)[head := ZERO]
        invariant n == 2 ==> i == r.third && free == old(free)[head := true][r.second := true]
        invariant n == 2 ==> desc == old(desc)[head := ZERO][r.second := ZERO]
        decreases 3 - n
      {
        var flag, nxt := desc[i].hasNext, desc[i].next;
        FreeDesc(i);
        if flag { i := nxt; } else { break; }
        n := n + 1;
      }
    }
  }

  /** The state after a request has been prepared. */
  ghost function Added(s: Snap, h: nat, r: Req): (s': Snap)
    requires Sized(s) && Apart(h, r)
  {
    s.(free := Set3(s.free, h, r.second, r.third, false), owner := Set3(s.owner, h, r.second, r.third, Some(h)),
       desc := Link(s.desc, h, r), ops := s.ops[h := BlkReq(r.write, r.sector)],
       info := s.info[h := Info(0xff, Some(r.buf))], busy := s.busy + {r.buf},
       availRing := s.availRing[Slot(s.availIdx) := h], lock := Requester(h),
       reqs := s.reqs[h := r], nextSerial := s.nextSerial + 1)
  }

  lemma FormatsAdd(free: seq<bool>, owner: seq<Option<nat>>, desc: seq<Desc>, ops: seq<BlkReq>, reqs: map<nat, Req>,
                   h: nat, r: Req)
    requires Partition(free, owner, reqs) && Formats(desc, ops, reqs)
    requires Apart(h, r)
    requires free[h] && free[r.second] && free[r.third]
    ensures Formats(Link(desc, h, r), ops[h := BlkReq(r.write, r.sector)], reqs[h := r])
  {
  }

  lemma BufsAdd(info: seq<Info>, busy: set<nat>, reqs: map<nat, Req>, h: nat, r: Req)
    requires BufsOk(info, busy, reqs) && h !in reqs && h < NUM && r.phase.Prepared?
    requires forall g :: g in reqs ==> reqs[g].buf != r.buf
    ensures |info| == NUM && BufsOk(info[h := Info(0xff, Some(r.buf))], busy + {r.buf}, reqs[h := r])
  {
  }

  lemma AddToChains(s: Snap, h: nat, r: Req)
    requires Ok(s) && Sized(s) && Apart(h, r) && s.free[h] && s.free[r.second] && s.free[r.third]
    requires r.phase.Prepared? && forall g :: g in s.reqs ==> s.reqs[g].buf != r.buf
    ensures h !in s.reqs
    ensures var s' := Added(s, h, r);
            Partition(s'.free, s'.owner, s'.reqs) && Formats(s'.desc, s'.ops, s'.reqs)
            && BufsOk(s'.info, s'.busy, s'.reqs)
  {
    hide Partition, Formats, BufsOk, LockOk, FillOk, Serials, Rings, Set3, Link, Slot;
    PartitionAdd(s.free, s.owner, s.reqs, h, r);
    FormatsAdd(s.free, s.owner, s.desc, s.ops, s.reqs, h, r);
    BufsAdd(s.info, s.busy, s.reqs, h, r);
  }

  lemma QueuesAdd(reqs: map<nat, Req>, h: nat, r: Req, taken: nat, availQ: seq<nat>, seen: nat, usedQ: seq<nat>)
    requires h !in reqs && AvailOk(taken, availQ, reqs) && UsedOk(seen, usedQ, reqs) && r.phase.Prepared?
    ensures AvailOk(taken, availQ, reqs[h := r]) && UsedOk(seen, usedQ, reqs[h := r])
  {
  }

  lemma RingRoom(free: seq<bool>, owner: seq<Option<nat>>, reqs: map<nat, Req>, h: nat, r: Req, taken: nat,
                 availQ: seq<nat>, seen: nat, usedQ: seq<nat>)
    requires Partition(free, owner, reqs) && h !in reqs && AvailOk(taken, availQ, reqs) && UsedOk(seen, usedQ, reqs)
             && r.phase.Prepared?
    requires Apart(h, r)
    requires free[h] && free[r.second] && free[r.third]
    ensures |availQ| + 1 < NUM && AvailOk(taken, availQ, reqs[h := r]) && UsedOk(seen, usedQ, reqs[h := r])
  {
    QueuesAdd(reqs, h, r, taken, availQ, seen, usedQ);
    AvailDistinct(taken, availQ, reqs);
    PartitionAdd(free, owner, reqs, h, r);
    assert forall j :: 0 <= j < |availQ| ==> availQ[j] in reqs;
    hide Partition, Set3, AvailOk, UsedOk;
    Room(Set3(free, h, r.second, r.third, false), Set3(owner, h, r.second, r.third, Some(h)), reqs[h := r], h, availQ);
  }

  lemma LockAdd(lock: Holder, reqs: map<nat, Req>, ring: seq<nat>, m: nat, h: nat, r: Req)
    requires LockOk(lock, reqs, ring, m) && lock.Nobody? && r.phase.Prepared?
    ensures LockOk(Requester(h), reqs[h := r], ring[Slot(m) := h], m)
  {
  }

  lemma AddToRings(s: Snap, h: nat, r: Req)
    requires Ok(s) && Sized(s) && s.lock.Nobody? && Apart(h, r) && s.free[h] && s.free[r.second] && s.free[r.third]
    requires r.phase.Prepared? && h !in s.reqs
    ensures var s' := Added(s, h, r); Rings(s') && LockOk(s'.lock, s'.reqs, s'.availRing, s'.taken + |s'.availQ|)
  {
    hide Partition, AvailOk, UsedOk, RingOk, Formats, BufsOk, LockOk, Serials, Set3, Link, Slot, Idx;
    RingRoom(s.free, s.owner, s.reqs, h, r, s.taken, s.availQ, s.seen, s.usedQ);
    SlotOfIndex(s.taken + |s.availQ|);
    RingPut(s.availRing, s.taken, s.availQ, h);
    LockAdd(s.lock, s.reqs, s.availRing, s.taken + |s.availQ|, h, r);
  }

  lemma FillAdd(filling: Option<nat>, reqs: map<nat, Req>, ring: seq<nat>, m: nat, h: nat, r: Req)
    requires FillOk(filling, reqs, ring, m) && h !in reqs && r.phase.Prepared?
    ensures FillOk(filling, reqs[h := r], ring, m)
  {
    hide Slot;
  }

  lemma SerialsAdd(reqs: map<nat, Req>, completed: set<nat>, nextSerial: nat, h: nat, r: Req)
    requires Serials(reqs, completed, nextSerial) && h !in reqs && r.phase.Prepared? && r.serial == nextSerial
    ensures Serials(reqs[h := r], completed, nextSerial + 1)
  {
  }

  lemma AddRequest(s: Snap, h: nat, r: Req)
    requires Ok(s) && Sized(s) && s.lock.Nobody? && Apart(h, r) && s.free[h] && s.free[r.second] && s.free[r.third]
    requires r.phase.Prepared? && r.serial == s.nextSerial && forall g :: g in s.reqs ==> s.reqs[g].buf != r.buf
    ensures h !in s.reqs && Ok(Added(s, h, r))
  {
    hide Partition, Formats, BufsOk, LockOk, FillOk, Serials, Rings, Set3, Link, Slot;
    AddToChains(s, h, r);
    AddToRings(s, h, r);
    FillAdd(s.filling, s.reqs, s.usedRing, s.seen + |s.usedQ|, h, r);
    SerialsAdd(s.reqs, s.completed, s.nextSerial, h, r);
  }

  lemma Shapes(s: Snap)
    requires Ok(s)
    ensures Sized(s)
  {
  }

  // ---- the steps

  datatype Step =
    | Prepare(h: nat, r: Req)   // virtio_disk_rw up to the ring entry; the lock stays held
    | Scrub(i: nat)             // alloc3_desc giving a descriptor back when it cannot get three
    | Announce                  // avail->idx += 1, notify, sleep
    | DevTake                   // the device reads the next avail entry
    | DevMove(h: nat)           // the device transfers the data and writes the status
    | DevFill(h: nat)           // it writes the used entry
    | DevBump                   // it advances used->idx
    | IntrEnter                 // virtio_disk_intr: acquire
    | IntrOne                   // one turn of its loop
    | IntrLeave                 // its loop test fails: release
    | Finish(h: nat)            // virtio_disk_rw: b->disk is 0, free_chain

  function Get(m: map<nat, nat>, k: nat): (v: nat) { if k in m then m[k] else 0 }

  /** alloc3_desc can hand out any three free descriptors; the caller holds b's sleep lock, so b is in
      no other request. The device finishes what it has taken, in any order. */
  ghost predicate Enabled(s: Snap, step: Step) {
    Sized(s) &&
    match step
    case Prepare(h, r) =>
      && s.lock.Nobody? && Apart(h, r) && s.free[h] && s.free[r.second] && s.free[r.third]
      && r.phase.Prepared? && r.serial == s.nextSerial && forall g :: g in s.reqs ==> s.reqs[g].buf != r.buf
    case Scrub(i) => i < NUM && s.free[i]
    case Announce => s.lock.Requester?
    case DevTake => s.devAvail != s.availIdx
    case DevMove(h) => h in s.reqs && s.reqs[h].phase.Taken?
    case DevFill(h) => s.filling.None? && h in s.reqs && s.reqs[h].phase.Moved?
    case DevBump => s.filling.Some? && s.filling.value in s.reqs
    case IntrEnter => s.lock.Nobody?
    case IntrOne => s.lock.Handler? && s.seenIdx != s.usedIdx
    case IntrLeave => s.lock.Handler? && s.seenIdx == s.usedIdx
    case Finish(h) => s.lock.Nobody? && h in s.reqs && !s.reqs[h].phase.Prepared? && s.reqs[h].buf !in s.busy
  }

  /** The sector and buffer the device finds by following the chain from descriptor h. */
  function DeviceView(s: Snap, h: nat): (v: Option<(BlkReq, nat, nat)>)
    requires Sized(s)
  {
    if h < NUM && s.desc[h].addr.OpAddr? && s.desc[h].addr.head < NUM && s.desc[h].hasNext && s.desc[h].next < NUM then
      var d1 := s.desc[s.desc[h].next];
      if d1.addr.DataAddr? && d1.hasNext && d1.next < NUM && s.desc[d1.next].addr.StatusAddr? then
        Some((s.ops[s.desc[h].addr.head], d1.addr.buf, s.desc[d1.next].addr.head))
      else None
    else None
  }

  ghost function DoAnnounce(s: Snap): (s': Snap)
    requires s.lock.Requester? && s.lock.head in s.reqs
  {
    var h := s.lock.head;
    s.(availIdx := Idx(s.availIdx + 1), lock := Nobody, availQ := s.availQ + [h],
       reqs := SetPhase(s.reqs, h, Published(s.taken + |s.availQ|)))
  }

  ghost function DoTake(s: Snap): (s': Snap)
    requires |s.availRing| == NUM
  {
    var h := s.availRing[Slot(s.devAvail)];
    s.(devAvail := Idx(s.devAvail + 1), taken := s.taken + 1, availQ := if s.availQ == [] then [] else s.availQ[1..],
       reqs := if h in s.reqs then SetPhase(s.reqs, h, Taken) else s.reqs)
  }

  ghost function DoMove(s: Snap, h: nat): (s': Snap)
    requires Sized(s) && h in s.reqs
  {
    var v := DeviceView(s, h);
    if v.None? then s
    else
      var (op, buf, st) := v.value;
      s.(platter := if op.write then s.platter[op.sector := Get(s.data, buf)] else s.platter,
         data := if op.write then s.data else s.data[buf := Get(s.platter, op.sector)],
         info := if st < NUM then s.info[st := s.info[st].(status := 0)] else s.info,
         reqs := SetPhase(s.reqs, h, Phase.Moved))
  }

  ghost function DoFill(s: Snap, h: nat): (s': Snap)
    requires Sized(s) && h in s.reqs
  {
    s.(usedRing := s.usedRing[Slot(s.usedIdx) := h], filling := Some(h), reqs := SetPhase(s.reqs, h, Filled))
  }

  ghost function DoBump(s: Snap): (s': Snap)
    requires s.filling.Some? && s.filling.value in s.reqs
  {
    var h := s.filling.value;
    s.(usedIdx := Idx(s.usedIdx + 1), filling := None, usedQ := s.usedQ + [h],
       reqs := SetPhase(s.reqs, h, Used(s.seen + |s.usedQ|)))
  }

  ghost function DoIntr(s: Snap): (s': Snap)
    requires Sized(s)
  {
    var id := s.usedRing[Slot(s.seenIdx)];
    if id < NUM && s.info[id].b.Some? && id in s.reqs then
      s.(busy := s.busy - {s.info[id].b.value}, seenIdx := Idx(s.seenIdx + 1), seen := s.seen + 1,
         usedQ := if s.usedQ == [] then [] else s.usedQ[1..],
         reqs := SetPhase(s.reqs, id, Completed), completed := s.completed + {s.reqs[id].serial})
    else s
  }

  ghost function DoFinish(s: Snap, h: nat): (s': Snap)
    requires Sized(s) && h in s.reqs && Apart(h, s.reqs[h])
  {
    var r := s.reqs[h];
    s.(info := s.info[h := s.info[h].(b := None)],
       free := Set3(s.free, h, r.second, r.third, true), desc := Set3(s.desc, h, r.second, r.third, ZERO),
       owner := Set3(s.owner, h, r.second, r.third, None), reqs := s.reqs - {h})
  }

  lemma LockHead(lock: Holder, reqs: map<nat, Req>, ring: seq<nat>, m: nat)
    requires LockOk(lock, reqs, ring, m) && lock.Requester?
    ensures lock.head in reqs && reqs[lock.head].phase.Prepared? && |ring| == NUM && ring[Slot(m)] == lock.head
  {
  }

  lemma AnnounceLock(lock: Holder, reqs: map<nat, Req>, ring: seq<nat>, m: nat, phase: Phase)
    requires LockOk(lock, reqs, ring, m) && lock.Requester? && !phase.Prepared?
    ensures lock.head in reqs && LockOk(Nobody, SetPhase(reqs, lock.head, phase), ring, m + 1)
  {
  }

  lemma BufsPhase(info: seq<Info>, busy: set<nat>, reqs: map<nat, Req>, h: nat, phase: Phase)
    requires BufsOk(info, busy, reqs) && h in reqs && !reqs[h].phase.Completed? && !phase.Completed?
             && !Transferred(phase)
    ensures BufsOk(info, busy, SetPhase(reqs, h, phase))
  {
  }

  lemma SerialsPhase(reqs: map<nat, Req>, completed: set<nat>, nextSerial: nat, h: nat, phase: Phase)
    requires Serials(reqs, completed, nextSerial) && h in reqs && !reqs[h].phase.Completed? && !phase.Completed?
    ensures Serials(SetPhase(reqs, h, phase), completed, nextSerial)
  {
  }

  lemma RoomToAnnounce(free: seq<bool>, owner: seq<Option<nat>>, reqs: map<nat, Req>, h: nat, first: nat,
                       queue: seq<nat>)
    requires Partition(free, owner, reqs) && h in reqs && !reqs[h].phase.Published? && AvailOk(first, queue, reqs)
    ensures |queue| + 1 < NUM
  {
    hide Partition;
    AvailDistinct(first, queue, reqs);
    assert forall j :: 0 <= j < |queue| ==> queue[j] in reqs && queue[j] != h;
    hide AvailOk;
    Room(free, owner, reqs, h, queue);
  }

  lemma RingAppend(ring: seq<nat>, first: nat, queue: seq<nat>, h: nat)
    requires RingOk(ring, first, queue) && |queue| + 1 < NUM && ring[Slot(first + |queue|)] == h
    ensures RingOk(ring, first, queue + [h])
  {
    hide Slot;
    var queue' := queue + [h];
    forall j: nat | j < |queue'| ensures ring[Slot(first + j)] == queue'[j] { }
  }

  lemma QueueAppend(first: nat, queue: seq<nat>, reqs: map<nat, Req>, h: nat)
    requires AvailOk(first, queue, reqs) && h in reqs && !reqs[h].phase.Published?
    ensures AvailOk(first, queue + [h], SetPhase(reqs, h, Published(first + |queue|)))
  {
  }

  lemma UsedPhase(first: nat, queue: seq<nat>, reqs: map<nat, Req>, h: nat, phase: Phase)
    requires UsedOk(first, queue, reqs) && h in reqs && !reqs[h].phase.Used? && !phase.Used?
    ensures UsedOk(first, queue, SetPhase(reqs, h, phase))
  {
  }

  lemma AnnounceRings(s: Snap, h: nat)
    requires Ok(s) && s.lock == Requester(h) && h in s.reqs && s.reqs[h].phase.Prepared?
    ensures Rings(DoAnnounce(s))
  {
    hide Partition, Formats, BufsOk, Serials, LockOk, FillOk, AvailOk, UsedOk, RingOk, SetPhase, Slot, Idx;
    LockHead(s.lock, s.reqs, s.availRing, s.taken + |s.availQ|);
    SlotOfIndex(s.taken + |s.availQ|);
    RoomToAnnounce(s.free, s.owner, s.reqs, h, s.taken, s.availQ);
    QueueAppend(s.taken, s.availQ, s.reqs, h);
    UsedPhase(s.seen, s.usedQ, s.reqs, h, Published(s.taken + |s.availQ|));
    RingAppend(s.availRing, s.taken, s.availQ, h);
  }

  lemma FillPhase(filling: Option<nat>, reqs: map<nat, Req>, ring: seq<nat>, m: nat, h: nat, phase: Phase)
    requires FillOk(filling, reqs, ring, m) && h in reqs && !reqs[h].phase.Filled? && !phase.Filled?
    ensures FillOk(filling, SetPhase(reqs, h, phase), ring, m)
  {
    hide Slot;
  }

  lemma AnnounceOk(s: Snap)
    requires Ok(s) && s.lock.Requester?
    ensures s.lock.head in s.reqs && Ok(DoAnnounce(s))
  {
    hide Partition, Formats, BufsOk, Serials, Rings, LockOk, FillOk, SetPhase, Idx;
    var h := s.lock.head;
    LockHead(s.lock, s.reqs, s.availRing, s.taken + |s.availQ|);
    var phase := Published(s.taken + |s.availQ|);
    PhaseKeeps(s.free, s.owner, s.desc, s.ops, s.reqs, h, phase);
    BufsPhase(s.info, s.busy, s.reqs, h, phase);
    SerialsPhase(s.reqs, s.completed, s.nextSerial, h, phase);
    AnnounceRings(s, h);
    AnnounceLock(s.lock, s.reqs, s.availRing, s.taken + |s.availQ|, phase);
    FillPhase(s.filling, s.reqs, s.usedRing, s.seen + |s.usedQ|, h, phase);
  }

  lemma AvailPhase(first: nat, queue: seq<nat>, reqs: map<nat, Req>, h: nat, phase: Phase)
    requires AvailOk(first, queue, reqs) && h in reqs && !reqs[h].phase.Published? && !phase.Published?
    ensures AvailOk(first, queue, SetPhase(reqs, h, phase))
  {
  }

  lemma RingLen(ring: seq<nat>, first: nat, queue: seq<nat>)
    requires RingOk(ring, first, queue)
    ensures |queue| < NUM && |ring| == NUM
  {
  }

  lemma AvailPop(first: nat, queue: seq<nat>, reqs: map<nat, Req>)
    requires AvailOk(first, queue, reqs) && queue != []
    ensures queue[0] in reqs && reqs[queue[0]].phase == Published(first)
    ensures AvailOk(first + 1, queue[1..], SetPhase(reqs, queue[0], Taken))
  {
    var rest := queue[1..];
    forall j: nat | j < |rest| ensures rest[j] in reqs && reqs[rest[j]].phase == Published(first + 1 + j) {
      assert rest[j] == queue[j + 1];
    }
  }

  lemma LockPhase(lock: Holder, reqs: map<nat, Req>, ring: seq<nat>, m: nat, h: nat, phase: Phase)
    requires LockOk(lock, reqs, ring, m) && h in reqs && !reqs[h].phase.Prepared? && !phase.Prepared?
    ensures LockOk(lock, SetPhase(reqs, h, phase), ring, m)
  {
  }

  /** The device reads the oldest announced request. */
  lemma TakeOk(s: Snap)
    requires Ok(s) && Sized(s) && s.devAvail != s.availIdx
    ensures s.availQ != [] && s.availRing[Slot(s.devAvail)] == s.availQ[0] && s.availQ[0] in s.reqs
    ensures s.reqs[s.availQ[0]].phase.Published? && Ok(DoTake(s))
  {
    hide Partition, Formats, BufsOk, Serials, LockOk, FillOk, AvailOk, UsedOk, RingOk, SetPhase, Slot, Idx;
    RingLen(s.availRing, s.taken, s.availQ);
    EmptyTest(s.taken, |s.availQ|);
    SlotOfIndex(s.taken);
    RingGet(s.availRing, s.taken, s.availQ);
    AvailPop(s.taken, s.availQ, s.reqs);
    var h := s.availQ[0];
    PhaseKeeps(s.free, s.owner, s.desc, s.ops, s.reqs, h, Taken);
    BufsPhase(s.info, s.busy, s.reqs, h, Taken);
    SerialsPhase(s.reqs, s.completed, s.nextSerial, h, Taken);
    UsedPhase(s.seen, s.usedQ, s.reqs, h, Taken);
    LockPhase(s.lock, s.reqs, s.availRing, s.taken + |s.availQ|, h, Taken);
    FillPhase(s.filling, s.reqs, s.usedRing, s.seen + |s.usedQ|, h, Taken);
  }

  /** Following the chain, the device finds the request's own sector, buffer and status byte. */
  lemma DeviceSees(s: Snap, h: nat)
    requires Sized(s) && Formats(s.desc, s.ops, s.reqs) && h in s.reqs
    ensures var r := s.reqs[h]; h < NUM && DeviceView(s, h) == Some((BlkReq(r.write, r.sector), r.buf, h))
  {
  }

  lemma RoomToUse(free: seq<bool>, owner: seq<Option<nat>>, reqs: map<nat, Req>, h: nat, first: nat, queue: seq<nat>)
    requires Partition(free, owner, reqs) && h in reqs && !reqs[h].phase.Used? && UsedOk(first, queue, reqs)
    ensures |queue| + 1 < NUM
  {
    hide Partition;
    UsedDistinct(first, queue, reqs);
    assert forall j :: 0 <= j < |queue| ==> queue[j] in reqs && queue[j] != h;
    hide UsedOk;
    Room(free, owner, reqs, h, queue);
  }

  lemma UsedAppend(first: nat, queue: seq<nat>, reqs: map<nat, Req>, h: nat)
    requires UsedOk(first, queue, reqs) && h in reqs && !reqs[h].phase.Used?
    ensures UsedOk(first, queue + [h], SetPhase(reqs, h, Used(first + |queue|)))
  {
  }

  lemma BufsMoved(info: seq<Info>, busy: set<nat>, reqs: map<nat, Req>, h: nat)
    requires BufsOk(info, busy, reqs) && h in reqs && !reqs[h].phase.Completed?
    ensures |info| == NUM && h < NUM
    ensures BufsOk(info[h := info[h].(status := 0)], busy, SetPhase(reqs, h, Phase.Moved))
  {
  }

  lemma BufsOn(info: seq<Info>, busy: set<nat>, reqs: map<nat, Req>, h: nat, phase: Phase)
    requires BufsOk(info, busy, reqs) && h in reqs && Transferred(reqs[h].phase) && Transferred(phase)
    ensures BufsOk(info, busy, SetPhase(reqs, h, phase))
  {
  }

  /** A new entry beyond the announced ones. */
  lemma RingBeyond(ring: seq<nat>, first: nat, queue: seq<nat>, h: nat)
    requires RingOk(ring, first, queue)
    ensures RingOk(ring[Slot(first + |queue|) := h], first, queue)
  {
    hide Slot;
    var ring' := ring[Slot(first + |queue|) := h];
    forall j: nat | j < |queue| ensures ring'[Slot(first + j)] == queue[j] {
      SlotsApart(first, j, |queue|);
    }
  }

  lemma FillStart(filling: Option<nat>, reqs: map<nat, Req>, ring: seq<nat>, m: nat, h: nat)
    requires FillOk(filling, reqs, ring, m) && filling.None? && h in reqs
    ensures FillOk(Some(h), SetPhase(reqs, h, Filled), ring[Slot(m) := h], m)
  {
    hide Slot;
  }

  lemma FillHead(filling: Option<nat>, reqs: map<nat, Req>, ring: seq<nat>, m: nat)
    requires FillOk(filling, reqs, ring, m) && filling.Some?
    ensures filling.value in reqs && reqs[filling.value].phase.Filled? && |ring| == NUM
            && ring[Slot(m)] == filling.value
  {
  }

  lemma FillEnd(filling: Option<nat>, reqs: map<nat, Req>, ring: seq<nat>, m: nat, phase: Phase)
    requires FillOk(filling, reqs, ring, m) && filling.Some? && !phase.Filled?
    ensures filling.value in reqs && FillOk(None, SetPhase(reqs, filling.value, phase), ring, m + 1)
  {
    hide Slot;
  }

  lemma MoveOk(s: Snap, h: nat)
    requires Ok(s) && Sized(s) && h in s.reqs && s.reqs[h].phase.Taken?
    ensures Ok(DoMove(s, h))
  {
    hide Partition, Formats, BufsOk, Serials, LockOk, FillOk, AvailOk, UsedOk, RingOk, SetPhase, Slot, Idx, DeviceView;
    DeviceSees(s, h);
    PhaseKeeps(s.free, s.owner, s.desc, s.ops, s.reqs, h, Phase.Moved);
    BufsMoved(s.info, s.busy, s.reqs, h);
    SerialsPhase(s.reqs, s.completed, s.nextSerial, h, Phase.Moved);
    AvailPhase(s.taken, s.availQ, s.reqs, h, Phase.Moved);
    UsedPhase(s.seen, s.usedQ, s.reqs, h, Phase.Moved);
    LockPhase(s.lock, s.reqs, s.availRing, s.taken + |s.availQ|, h, Phase.Moved);
    FillPhase(s.filling, s.reqs, s.usedRing, s.seen + |s.usedQ|, h, Phase.Moved);
  }

  lemma FillOne(s: Snap, h: nat)
    requires Ok(s) && Sized(s) && s.filling.None? && h in s.reqs && s.reqs[h].phase.Moved?
    ensures Ok(DoFill(s, h)) && |s.usedQ| + 1 < NUM
  {
    hide Partition, Formats, BufsOk, Serials, LockOk, FillOk, AvailOk, UsedOk, RingOk, SetPhase, Slot, Idx;
    RoomToUse(s.free, s.owner, s.reqs, h, s.seen, s.usedQ);
    SlotOfIndex(s.seen + |s.usedQ|);
    RingBeyond(s.usedRing, s.seen, s.usedQ, h);
    PhaseKeeps(s.free, s.owner, s.desc, s.ops, s.reqs, h, Filled);
    BufsOn(s.info, s.busy, s.reqs, h, Filled);
    SerialsPhase(s.reqs, s.completed, s.nextSerial, h, Filled);
    AvailPhase(s.taken, s.availQ, s.reqs, h, Filled);
    UsedPhase(s.seen, s.usedQ, s.reqs, h, Filled);
    LockPhase(s.lock, s.reqs, s.availRing, s.taken + |s.availQ|, h, Filled);
    FillStart(s.filling, s.reqs, s.usedRing, s.seen + |s.usedQ|, h);
  }

  lemma BumpOk(s: Snap)
    requires Ok(s) && Sized(s) && s.filling.Some? && s.filling.value in s.reqs
    ensures Ok(DoBump(s))
  {
    hide Partition, Formats, BufsOk, Serials, LockOk, FillOk, AvailOk, UsedOk, RingOk, SetPhase, Slot, Idx;
    var h, phase := s.filling.value, Used(s.seen + |s.usedQ|);
    FillHead(s.filling, s.reqs, s.usedRing, s.seen + |s.usedQ|);
    RoomToUse(s.free, s.owner, s.reqs, h, s.seen, s.usedQ);
    SlotOfIndex(s.seen + |s.usedQ|);
    RingAppend(s.usedRing, s.seen, s.usedQ, h);
    UsedAppend(s.seen, s.usedQ, s.reqs, h);
    PhaseKeeps(s.free, s.owner, s.desc, s.ops, s.reqs, h, phase);
    BufsOn(s.info, s.busy, s.reqs, h, phase);
    SerialsPhase(s.reqs, s.completed, s.nextSerial, h, phase);
    AvailPhase(s.taken, s.availQ, s.reqs, h, phase);
    LockPhase(s.lock, s.reqs, s.availRing, s.taken + |s.availQ|, h, phase);
    FillEnd(s.filling, s.reqs, s.usedRing, s.seen + |s.usedQ|, phase);
  }

  /** What the interrupt handler finds in the used ring: a finished request with status 0, whose own
      buffer is marked. */
  lemma IntrSees(s: Snap)
    requires Ok(s) && Sized(s) && s.seenIdx != s.usedIdx
    ensures s.usedQ != [] && s.usedRing[Slot(s.seenIdx)] == s.usedQ[0] && s.usedQ[0] in s.reqs && s.usedQ[0] < NUM
    ensures var h := s.usedQ[0];
            && s.reqs[h].phase == Used(s.seen) && s.info[h].status == 0 && s.info[h].b == Some(s.reqs[h].buf)
            && s.reqs[h].buf in s.busy && s.reqs[h].serial !in s.completed && s.reqs[h].serial < s.nextSerial
  {
    hide Partition, Formats, LockOk, AvailOk, RingOk, Slot, Idx;
    RingLen(s.usedRing, s.seen, s.usedQ);
    EmptyTest(s.seen, |s.usedQ|);
    SlotOfIndex(s.seen);
    RingGet(s.usedRing, s.seen, s.usedQ);
    assert s.usedQ[0] in s.reqs && s.reqs[s.usedQ[0]].phase == Used(s.seen + 0);
  }

  lemma UsedPop(first: nat, queue: seq<nat>, reqs: map<nat, Req>)
    requires UsedOk(first, queue, reqs) && queue != []
    ensures queue[0] in reqs && UsedOk(first + 1, queue[1..], SetPhase(reqs, queue[0], Completed))
  {
    var rest := queue[1..];
    assert reqs[queue[0]].phase == Used(first + 0);
    forall j: nat | j < |rest| ensures rest[j] in reqs && reqs[rest[j]].phase == Used(first + 1 + j) {
      assert rest[j] == queue[j + 1];
    }
  }

  lemma BufsDone(info: seq<Info>, busy: set<nat>, reqs: map<nat, Req>, h: nat)
    requires BufsOk(info, busy, reqs) && h in reqs
    ensures BufsOk(info, busy - {reqs[h].buf}, SetPhase(reqs, h, Completed))
  {
  }

  lemma SerialsDone(reqs: map<nat, Req>, completed: set<nat>, nextSerial: nat, h: nat)
    requires Serials(reqs, completed, nextSerial) && h in reqs
    ensures Serials(SetPhase(reqs, h, Completed), completed + {reqs[h].serial}, nextSerial)
  {
  }

  lemma IntrOk(s: Snap)
    requires Ok(s) && Sized(s) && s.seenIdx != s.usedIdx
    ensures Ok(DoIntr(s))
  {
    hide Partition, Formats, BufsOk, Serials, LockOk, FillOk, AvailOk, UsedOk, RingOk, SetPhase, Slot, Idx;
    IntrSees(s);
    var h := s.usedQ[0];
    SlotOfIndex(s.seen);
    RingGet(s.usedRing, s.seen, s.usedQ);
    UsedPop(s.seen, s.usedQ, s.reqs);
    PhaseKeeps(s.free, s.owner, s.desc, s.ops, s.reqs, h, Completed);
    BufsDone(s.info, s.busy, s.reqs, h);
    SerialsDone(s.reqs, s.completed, s.nextSerial, h);
    AvailPhase(s.taken, s.availQ, s.reqs, h, Completed);
    LockPhase(s.lock, s.reqs, s.availRing, s.taken + |s.availQ|, h, Completed);
    FillPhase(s.filling, s.reqs, s.usedRing, s.seen + |s.usedQ|, h, Completed);
  }

  lemma DoneIs(s: Snap, h: nat)
    requires Ok(s) && h in s.reqs && s.reqs[h].buf !in s.busy
    ensures Apart(h, s.reqs[h]) && s.reqs[h].phase.Completed? && s.reqs[h].serial in s.completed
  {
    hide Rings, LockOk, Formats;
  }

  lemma FormatsRemove(free: seq<bool>, owner: seq<Option<nat>>, desc: seq<Desc>, ops: seq<BlkReq>, reqs: map<nat, Req>,
                      h: nat)
    requires Partition(free, owner, reqs) && Formats(desc, ops, reqs) && h in reqs
    ensures var r := reqs[h]; Apart(h, r) && Formats(Set3(desc, h, r.second, r.third, ZERO), ops, reqs - {h})
  {
    var r := reqs[h];
    forall g: nat | g in reqs && g != h
      ensures g != r.second && g != r.third && !InChain(r, h, reqs[g].second) && !InChain(r, h, reqs[g].third)
    {
      assert owner[g] == Some(g) && owner[reqs[g].second] == Some(g) && owner[reqs[g].third] == Some(g);
    }
    hide Partition;
  }

  lemma BufsRemove(info: seq<Info>, busy: set<nat>, reqs: map<nat, Req>, completed: set<nat>, nextSerial: nat, h: nat)
    requires BufsOk(info, busy, reqs) && Serials(reqs, completed, nextSerial) && h in reqs
    ensures |info| == NUM && h < NUM
    ensures BufsOk(info[h := info[h].(b := None)], busy, reqs - {h}) && Serials(reqs - {h}, completed, nextSerial)
  {
  }

  lemma QueuesRemove(s: Snap, h: nat)
    requires h in s.reqs && s.reqs[h].phase.Completed?
    requires AvailOk(s.taken, s.availQ, s.reqs) && UsedOk(s.seen, s.usedQ, s.reqs)
    requires LockOk(s.lock, s.reqs, s.availRing, s.taken + |s.availQ|)
    requires FillOk(s.filling, s.reqs, s.usedRing, s.seen + |s.usedQ|)
    ensures AvailOk(s.taken, s.availQ, s.reqs - {h}) && UsedOk(s.seen, s.usedQ, s.reqs - {h})
    ensures LockOk(s.lock, s.reqs - {h}, s.availRing, s.taken + |s.availQ|)
    ensures FillOk(s.filling, s.reqs - {h}, s.usedRing, s.seen + |s.usedQ|)
  {
    hide Slot;
  }

  lemma FinishOk(s: Snap, h: nat)
    requires Ok(s) && Sized(s) && h in s.reqs && !s.reqs[h].phase.Prepared? && s.reqs[h].buf !in s.busy
    ensures Apart(h, s.reqs[h]) && s.reqs[h].phase.Completed? && s.reqs[h].serial in s.completed && Ok(DoFinish(s, h))
  {
    hide Partition, Formats, BufsOk, Serials, LockOk, FillOk, AvailOk, UsedOk, RingOk, Slot, Idx, Set3;
    DoneIs(s, h);
    PartitionRemove(s.free, s.owner, s.reqs, h);
    FormatsRemove(s.free, s.owner, s.desc, s.ops, s.reqs, h);
    BufsRemove(s.info, s.busy, s.reqs, s.completed, s.nextSerial, h);
    QueuesRemove(s, h);
  }

  lemma FormatsScrub(free: seq<bool>, owner: seq<Option<nat>>, desc: seq<Desc>, ops: seq<BlkReq>, reqs: map<nat, Req>,
                     i: nat)
    requires Partition(free, owner, reqs) && Formats(desc, ops, reqs) && i < NUM && free[i]
    ensures Formats(desc[i := ZERO], ops, reqs)
  {
    forall h: nat | h in reqs ensures !InChain(reqs[h], h, i) {
      assert owner[h] == Some(h);
    }
    hide Partition;
  }

  lemma ScrubOk(s: Snap, i: nat)
    requires Ok(s) && Sized(s) && i < NUM && s.free[i]
    ensures Ok(s.(desc := s.desc[i := ZERO]))
  {
    hide Partition, Formats, LockOk, Serials, BufsOk, AvailOk, UsedOk, RingOk, Idx;
    FormatsScrub(s.free, s.owner, s.desc, s.ops, s.reqs, i);
  }

  lemma HolderOk(s: Snap, lock: Holder)
    requires Ok(s) && !s.lock.Requester? && !lock.Requester?
    ensures Ok(s.(lock := lock))
  {
    hide Partition, Formats, BufsOk, Serials, AvailOk, UsedOk, RingOk, Slot, Idx;
  }

  /** One step. */
  ghost function Do(s: Snap, step: Step): (s': Snap)
    requires Enabled(s, step)
  {
    match step
    case Prepare(h, r) => Added(s, h, r)
    case Scrub(i) => s.(desc := s.desc[i := ZERO])
    case Announce => if s.lock.head in s.reqs then DoAnnounce(s) else s
    case DevTake => DoTake(s)
    case DevMove(h) => DoMove(s, h)
    case DevFill(h) => DoFill(s, h)
    case DevBump => DoBump(s)
    case IntrEnter => s.(lock := Handler)
    case IntrOne => DoIntr(s)
    case IntrLeave => s.(lock := Nobody)
    case Finish(h) => if Apart(h, s.reqs[h]) then DoFinish(s, h) else s
  }

  lemma StepOk(s: Snap, step: Step)
    requires Ok(s) && Enabled(s, step)
    ensures Ok(Do(s, step)) && Sized(Do(s, step))
  {
    hide Ok, Added, DoAnnounce, DoTake, DoMove, DoFill, DoBump, DoIntr, DoFinish;
    match step {
      case Prepare(h, r) => AddRequest(s, h, r);
      case Scrub(i) => ScrubOk(s, i);
      case Announce => AnnounceOk(s);
      case DevTake => TakeOk(s);
      case DevMove(h) => MoveOk(s, h);
      case DevFill(h) => FillOne(s, h);
      case DevBump => BumpOk(s);
      case IntrEnter => HolderOk(s, Handler);
      case IntrOne => IntrOk(s);
      case IntrLeave => HolderOk(s, Nobody);
      case Finish(h) => FinishOk(s, h);
    }
    Shapes(Do(s, step));
  }

  /** virtio_disk_init: all descriptors free, both rings empty. */
  ghost function Init(platter: map<nat, nat>, data: map<nat, nat>): (s: Snap) {
    Snap(seq(NUM, _ => true), seq(NUM, _ => ZERO), seq(NUM, _ => BlkReq(false, 0)), seq(NUM, _ => Info(0, None)),
         seq(NUM, _ => 0), 0, seq(NUM, _ => 0), 0, 0, 0, None, {}, Nobody, platter, data,
         map[], seq(NUM, _ => None), 0, [], 0, [], 0, {})
  }

  lemma InitOk(platter: map<nat, nat>, data: map<nat, nat>)
    ensures Ok(Init(platter, data)) && Sized(Init(platter, data))
  {
  }

  ghost predicate Next(s: Snap, s': Snap) {
    exists step :: Enabled(s, step) && s' == Do(s, step)
  }

  ghost predicate Runs(states: seq<Snap>) {
    && |states| > 0 && states[0] == Init(states[0].platter, states[0].data)
    && forall i :: 0 <= i < |states| - 1 ==> Next(states[i], states[i + 1])
  }

  lemma {:induction false} RunOk(states: seq<Snap>, i: nat)
    requires Runs(states) && i < |states|
    ensures Ok(states[i]) && Sized(states[i])
  {
    hide Ok, Sized, Enabled, Do;
    if i == 0 {
      InitOk(states[0].platter, states[0].data);
    } else {
      RunOk(states, i - 1);
      assert Next(states[i - 1], states[i - 1 + 1]);
      var step :| Enabled(states[i - 1], step) && states[i] == Do(states[i - 1], step);
      StepOk(states[i - 1], step);
    }
  }

  // ---- what holds in every run

  /** Every descriptor is free or in exactly one chain of three. */
  lemma OneOwner(states: seq<Snap>, k: nat, i: nat)
    requires Runs(states) && k < |states| && i < NUM
    ensures Sized(states[k])
    ensures states[k].free[i] <==> forall h :: h in states[k].reqs ==> !InChain(states[k].reqs[h], h, i)
    ensures forall g, h ::
              && g in states[k].reqs && h in states[k].reqs
              && InChain(states[k].reqs[g], g, i) && InChain(states[k].reqs[h], h, i)
              ==> g == h
    ensures forall h :: h in states[k].reqs ==> Apart(h, states[k].reqs[h])
  {
    RunOk(states, k);
    var s := states[k];
    hide Runs, Formats, BufsOk, Rings, LockOk, Serials;
    forall h | h in s.reqs && InChain(s.reqs[h], h, i) ensures s.owner[i] == Some(h) { }
    if !s.free[i] {
      assert s.owner[i].value in s.reqs && InChain(s.reqs[s.owner[i].value], s.owner[i].value, i);
    }
  }

  lemma AvailKept(s: Snap, step: Step, j: nat)
    requires Ok(s) && Enabled(s, step) && step.Prepare? && j < |s.availQ|
    ensures Slot(s.availIdx) != Slot(s.taken + j) && |Do(s, step).availRing| == NUM
    ensures Do(s, step).availRing[Slot(s.taken + j)] == s.availQ[j]
  {
    hide Slot, Partition, Formats, BufsOk, LockOk, Serials, AvailOk, UsedOk, Idx, Link, Set3;
    PartitionAdd(s.free, s.owner, s.reqs, step.h, step.r);
    RingRoom(s.free, s.owner, s.reqs, step.h, step.r, s.taken, s.availQ, s.seen, s.usedQ);
    SlotOfIndex(s.taken + |s.availQ|);
    SlotsApart(s.taken, j, |s.availQ|);
  }

  /** The driver overwrites no ring entry that the device has not read, though indices wrap at 65536:
      the slot it writes is not the slot of the j-th unread entry. */
  lemma AvailNotOverwritten(states: seq<Snap>, k: nat, step: Step, j: nat)
    requires Runs(states) && k < |states| && Enabled(states[k], step) && step.Prepare? && j < |states[k].availQ|
    ensures Slot(states[k].availIdx) != Slot(states[k].taken + j) && |Do(states[k], step).availRing| == NUM
    ensures Do(states[k], step).availRing[Slot(states[k].taken + j)] == states[k].availQ[j]
  {
    hide Runs, Ok, Slot, Enabled, Do;
    RunOk(states, k);
    AvailKept(states[k], step, j);
  }

  lemma UsedKept(s: Snap, h: nat, j: nat)
    requires Ok(s) && Enabled(s, DevFill(h)) && j < |s.usedQ|
    ensures Slot(s.usedIdx) != Slot(s.seen + j) && |Do(s, DevFill(h)).usedRing| == NUM
    ensures Do(s, DevFill(h)).usedRing[Slot(s.seen + j)] == s.usedQ[j]
  {
    hide Slot, Partition, Formats, BufsOk, LockOk, Serials, AvailOk, UsedOk, Idx, SetPhase;
    FillOne(s, h);
    SlotOfIndex(s.seen + |s.usedQ|);
    SlotsApart(s.seen, j, |s.usedQ|);
  }

  /** The device overwrites no used entry that the driver has not read. */
  lemma UsedNotOverwritten(states: seq<Snap>, k: nat, h: nat, j: nat)
    requires Runs(states) && k < |states| && Enabled(states[k], DevFill(h)) && j < |states[k].usedQ|
    ensures Slot(states[k].usedIdx) != Slot(states[k].seen + j) && |Do(states[k], DevFill(h)).usedRing| == NUM
    ensures Do(states[k], DevFill(h)).usedRing[Slot(states[k].seen + j)] == states[k].usedQ[j]
  {
    hide Runs, Ok, Slot, Enabled, Do;
    RunOk(states, k);
    UsedKept(states[k], h, j);
  }

  lemma AvailHead(s: Snap)
    requires Ok(s) && s.availQ != []
    ensures s.availQ[0] in s.reqs && s.reqs[s.availQ[0]].phase == Published(s.taken)
  {
    hide Partition, Formats, BufsOk, LockOk, Serials, UsedOk, RingOk, Idx;
    assert s.reqs[s.availQ[0]].phase == Published(s.taken + 0);
  }

  /** The device reads the announced requests in order, each one once. */
  lemma TakenInOrder(states: seq<Snap>, k: nat)
    requires Runs(states) && k < |states| && Enabled(states[k], DevTake)
    ensures var s := states[k];
            && s.availQ != [] && s.availRing[Slot(s.devAvail)] == s.availQ[0] && s.availQ[0] in s.reqs
            && s.reqs[s.availQ[0]].phase == Published(s.taken) && Do(s, DevTake).availQ == s.availQ[1..]
  {
    hide Runs, Ok, Slot, Idx;
    RunOk(states, k);
    TakeOk(states[k]);
    AvailHead(states[k]);
  }

  /** The interrupt handler completes each request once, for the buffer it was made for, and finds
      status 0: the panic is not reached. */
  lemma CompletedOnce(states: seq<Snap>, k: nat)
    requires Runs(states) && k < |states| && Enabled(states[k], IntrOne)
    ensures var s := states[k]; var id := s.usedRing[Slot(s.seenIdx)]; var s' := Do(s, IntrOne);
            && id < NUM && id in s.reqs && s.info[id].status == 0 && s.info[id].b == Some(s.reqs[id].buf)
            && s.reqs[id].buf in s.busy && s'.busy == s.busy - {s.reqs[id].buf}
            && s.reqs[id].serial !in s.completed && s'.completed == s.completed + {s.reqs[id].serial}
  {
    hide Runs, Ok, Slot, Idx;
    RunOk(states, k);
    IntrSees(states[k]);
  }

  /** The handler does not take a used entry that the device has written but not announced. */
  lemma NotSeenEarly(states: seq<Snap>, k: nat)
    requires Runs(states) && k < |states| && Enabled(states[k], IntrOne) && states[k].filling.Some?
    ensures var s := states[k];
            && s.filling.value in s.reqs && s.reqs[s.filling.value].phase.Filled?
            && s.usedRing[Slot(s.seenIdx)] != s.filling.value && s.usedRing[Slot(s.usedIdx)] == s.filling.value
  {
    RunOk(states, k);
    var s := states[k];
    hide Runs, Slot, Idx, Partition, Formats, BufsOk, LockOk, Serials, FillOk, RingOk, AvailOk, UsedOk;
    IntrSees(s);
    FillHead(s.filling, s.reqs, s.usedRing, s.seen + |s.usedQ|);
    SlotOfIndex(s.seen + |s.usedQ|);
  }

  /** virtio_disk_rw returns only after the handler has completed its own request, and then frees
      exactly its three descriptors. */
  lemma ReturnsAfterCompletion(states: seq<Snap>, k: nat, h: nat)
    requires Runs(states) && k < |states| && Enabled(states[k], Finish(h))
    ensures var s := states[k]; var s' := Do(s, Finish(h));
            && s.reqs[h].serial in s.completed && s'.reqs == s.reqs - {h}
            && |s'.free| == NUM && forall i: nat :: i < NUM ==> (s'.free[i] <==> s.free[i] || InChain(s.reqs[h], h, i))
  {
    hide Runs, Ok;
    RunOk(states, k);
    FinishOk(states[k], h);
  }

  /** The device moves data between the sector and the buffer of the request, and nothing else. */
  lemma OwnTransfer(states: seq<Snap>, k: nat, h: nat)
    requires Runs(states) && k < |states| && Enabled(states[k], DevMove(h))
    ensures var s, s' := states[k], Do(states[k], DevMove(h));
            var r := s.reqs[h];
            if r.write then s'.platter == s.platter[r.sector := Get(s.data, r.buf)] && s'.data == s.data
            else s'.data == s.data[r.buf := Get(s.platter, r.sector)] && s'.platter == s.platter
  {
    hide Runs, Slot, Idx, Partition, BufsOk, Rings, LockOk, Serials, DeviceView;
    RunOk(states, k);
    DeviceSees(states[k], h);
  }
}
