/** Progress of kernel/virtio_disk.c: the interrupt handler leaves no finished request behind, and every request can
    be brought to its end from every state. */
module DiskServes {
  import opened Collections
  import opened Virtio

  /** How far a request is from its end. */
  function Distance(phase: Phase): (k: nat) {
    match phase
    case Prepared => 7
    case Published(m) => 6
    case Taken => 5
    case Moved => 4
    case Filled => 3
    case Used(m) => 2
    case Completed => 1
  }

  /** What has to happen before the next step for this request: entries before it, or a lock to be dropped. */
  function Before(s: Snap, phase: Phase): (k: nat) {
    match phase
    case Published(m) => |s.availQ|
    case Moved => if s.filling.Some? then 1 else 0
    case Used(m) => if s.lock.Requester? then 2 else if s.lock.Nobody? then 1 else 0
    case Completed => if s.lock.Nobody? then 0 else 1
    case _ => 0
  }

  function Entries(s: Snap, phase: Phase): (k: nat) { if phase.Used? || phase.Completed? then |s.usedQ| else 0 }

  /** The step that brings request h nearer to its end. */
  function Toward(s: Snap, h: nat): (step: Step)
    requires h in s.reqs
  {
    match s.reqs[h].phase
    case Prepared => Announce
    case Published(m) => DevTake
    case Taken => DevMove(h)
    case Moved => if s.filling.Some? then DevBump else DevFill(h)
    case Filled => DevBump
    case Used(m) => if s.lock.Requester? then Announce else if s.lock.Nobody? then IntrEnter else IntrOne
    case Completed =>
      if s.lock.Requester? then Announce else if s.lock.Nobody? then Finish(h)
      else if s.usedQ != [] then IntrOne else IntrLeave
  }

  ghost predicate Nearer(s: Snap, s': Snap, h: nat) {
    && h in s.reqs && h in s'.reqs && s'.reqs[h].serial == s.reqs[h].serial
    && var p, p' := s.reqs[h].phase, s'.reqs[h].phase;
       || Distance(p') < Distance(p)
       || (Distance(p') == Distance(p)
           && (Before(s', p') < Before(s, p) || (Before(s', p') == Before(s, p) && Entries(s', p') < Entries(s, p))))
  }

  /** The two index tests tell whether there are entries. */
  lemma Indices(s: Snap)
    requires Ok(s)
    ensures (s.devAvail != s.availIdx <==> s.availQ != []) && (s.seenIdx != s.usedIdx <==> s.usedQ != [])
  {
    hide Partition, Formats, BufsOk, LockOk, FillOk, AvailOk, UsedOk, Serials, Idx, RingOk;
    RingLen(s.availRing, s.taken, s.availQ);
    RingLen(s.usedRing, s.seen, s.usedQ);
    EmptyTest(s.taken, |s.availQ|);
    EmptyTest(s.seen, |s.usedQ|);
  }

  /** The interrupt handler leaves its loop only when it has completed every request that the device has announced
      as done. */
  lemma HandlerDrains(states: seq<Snap>, k: nat)
    requires Runs(states) && k < |states| && Enabled(states[k], IntrLeave)
    ensures states[k].usedQ == [] && forall h :: h in states[k].reqs ==> !states[k].reqs[h].phase.Used?
  {
    hide Runs;
    RunOk(states, k);
    Indices(states[k]);
    hide Partition, Formats, BufsOk, LockOk, FillOk, AvailOk, Serials, Idx, RingOk;
  }

  lemma TowardAnnounce(s: Snap, h: nat)
    requires Ok(s) && Sized(s) && h in s.reqs && s.lock.Requester? && !s.reqs[h].phase.Published?
    requires s.reqs[h].phase.Prepared? || s.reqs[h].phase.Used? || s.reqs[h].phase.Completed?
    ensures Enabled(s, Announce) && Nearer(s, Do(s, Announce), h)
  {
    hide Partition, Formats, BufsOk, FillOk, AvailOk, UsedOk, Serials, Idx, RingOk, Slot;
    LockHead(s.lock, s.reqs, s.availRing, s.taken + |s.availQ|);
  }

  lemma PublishedIsQueued(s: Snap, h: nat)
    requires Ok(s) && h in s.reqs && s.reqs[h].phase.Published?
    ensures s.availQ != []
  {
    hide Partition, Formats, BufsOk, LockOk, FillOk, UsedOk, Serials, Idx, RingOk;
  }

  lemma TowardTake(s: Snap, h: nat)
    requires Ok(s) && Sized(s) && h in s.reqs && s.reqs[h].phase.Published?
    ensures Enabled(s, DevTake) && Nearer(s, Do(s, DevTake), h)
  {
    hide Ok, Idx, Slot;
    Indices(s);
    PublishedIsQueued(s, h);
    TakeOk(s);
  }

  lemma SeesOwn(s: Snap, h: nat)
    requires Ok(s) && Sized(s) && h in s.reqs
    ensures h < NUM && DeviceView(s, h).Some? && DeviceView(s, h).value.2 == h
  {
    hide Partition, BufsOk, LockOk, FillOk, Rings, Serials, DeviceView;
    DeviceSees(s, h);
  }

  lemma FilledIs(s: Snap, h: nat)
    requires Ok(s) && h in s.reqs
    ensures s.reqs[h].phase.Filled? ==> s.filling == Some(h)
    ensures s.filling.Some? ==> s.filling.value in s.reqs && s.reqs[s.filling.value].phase.Filled?
  {
    hide Partition, Formats, BufsOk, LockOk, Rings, Serials, Slot;
  }

  lemma TowardUsed(s: Snap, h: nat)
    requires Ok(s) && Sized(s) && h in s.reqs
    requires s.reqs[h].phase.Taken? || s.reqs[h].phase.Moved? || s.reqs[h].phase.Filled?
    ensures Enabled(s, Toward(s, h)) && Nearer(s, Do(s, Toward(s, h)), h)
  {
    hide Ok, Idx, Slot, DeviceView;
    SeesOwn(s, h);
    FilledIs(s, h);
  }

  lemma TowardIntr(s: Snap, h: nat)
    requires Ok(s) && Sized(s) && h in s.reqs && s.lock.Handler? && s.usedQ != []
    requires s.reqs[h].phase.Used? || s.reqs[h].phase.Completed?
    ensures Enabled(s, IntrOne) && Nearer(s, Do(s, IntrOne), h)
  {
    hide Ok, Idx, Slot;
    Indices(s);
    IntrSees(s);
  }

  lemma UsedIsQueued(s: Snap, h: nat)
    requires Ok(s) && h in s.reqs && s.reqs[h].phase.Used?
    ensures s.usedQ != []
  {
    hide Partition, Formats, BufsOk, LockOk, FillOk, AvailOk, Serials, Idx, RingOk;
  }

  /** The request with this number is completed and gone. */
  ghost predicate Ended(serial: nat, s: Snap) {
    serial in s.completed && forall g :: g in s.reqs ==> s.reqs[g].serial != serial
  }

  lemma CompletedIs(s: Snap, h: nat)
    requires Ok(s) && h in s.reqs && s.reqs[h].phase.Completed?
    ensures s.reqs[h].buf !in s.busy && s.reqs[h].serial in s.completed
    ensures forall g :: g in s.reqs && g != h ==> s.reqs[g].serial != s.reqs[h].serial
  {
    hide Partition, Formats, LockOk, FillOk, AvailOk, UsedOk, Rings;
  }

  lemma TowardFinish(s: Snap, h: nat)
    requires Ok(s) && Sized(s) && h in s.reqs && s.lock.Nobody? && s.reqs[h].phase.Completed?
    ensures Enabled(s, Finish(h)) && Ended(s.reqs[h].serial, Do(s, Finish(h)))
  {
    hide Ok, Set3;
    CompletedIs(s, h);
    FinishOk(s, h);
  }

  lemma TowardEnd(s: Snap, h: nat)
    requires Ok(s) && Sized(s) && h in s.reqs && !s.lock.Requester?
    requires s.reqs[h].phase.Used? || s.reqs[h].phase.Completed?
    ensures Enabled(s, Toward(s, h))
    ensures !Toward(s, h).Finish? ==> Nearer(s, Do(s, Toward(s, h)), h)
    ensures Toward(s, h).Finish? ==> Ended(s.reqs[h].serial, Do(s, Toward(s, h)))
  {
    hide Ok, Idx, Slot, DoIntr, DoFinish, Ended;
    Indices(s);
    if s.reqs[h].phase.Used? { UsedIsQueued(s, h); }
    if s.lock.Handler? && s.usedQ != [] { TowardIntr(s, h); }
    if s.lock.Nobody? && s.reqs[h].phase.Completed? { TowardFinish(s, h); }
  }

  lemma PreparedIs(s: Snap, h: nat)
    requires Ok(s) && h in s.reqs && s.reqs[h].phase.Prepared?
    ensures s.lock == Requester(h)
  {
    hide Partition, Formats, BufsOk, FillOk, AvailOk, UsedOk, Serials, Idx, RingOk, Slot;
  }

  lemma TowardOk(s: Snap, h: nat)
    requires Ok(s) && Sized(s) && h in s.reqs
    ensures Enabled(s, Toward(s, h))
    ensures !Toward(s, h).Finish? ==> Nearer(s, Do(s, Toward(s, h)), h)
    ensures Toward(s, h).Finish? ==> Ended(s.reqs[h].serial, Do(s, Toward(s, h)))
  {
    if s.reqs[h].phase.Prepared? { PreparedIs(s, h); }
    hide Ok, Do, Enabled, Nearer, Ended;
    match s.reqs[h].phase
    case Prepared => TowardAnnounce(s, h);
    case Published(m) => TowardTake(s, h);
    case Taken => TowardUsed(s, h);
    case Moved => TowardUsed(s, h);
    case Filled => TowardUsed(s, h);
    case Used(m) => if s.lock.Requester? { TowardAnnounce(s, h); } else { TowardEnd(s, h); }
    case Completed => if s.lock.Requester? { TowardAnnounce(s, h); } else { TowardEnd(s, h); }
  }

  ghost function Last(states: seq<Snap>): (s: Snap)
    requires states != []
  {
    states[|states| - 1]
  }

  lemma RunsMore(states: seq<Snap>, step: Step)
    requires Runs(states) && Enabled(Last(states), step)
    ensures Runs(states + [Do(Last(states), step)])
  {
    hide Do, Enabled;
    var m, more := |states| - 1, states + [Do(Last(states), step)];
    forall i | 0 <= i < |more| - 1 ensures Next(more[i], more[i + 1]) {
      if i < m { assert Next(states[i], states[i + 1]); }
    }
  }

  /** No request is stuck: from every state there is a run that completes it and lets virtio_disk_rw return. */
  lemma {:induction false} Served(states: seq<Snap>, h: nat) returns (more: seq<Snap>)
    requires Runs(states) && h in Last(states).reqs
    ensures states <= more && Runs(more) && Ended(Last(states).reqs[h].serial, Last(more))
    decreases Distance(Last(states).reqs[h].phase), Before(Last(states), Last(states).reqs[h].phase),
              Entries(Last(states), Last(states).reqs[h].phase)
  {
    var s := Last(states);
    hide Runs, Ok, Do, Enabled, Toward, Ended, Distance, Before, Entries;
    RunOk(states, |states| - 1);
    TowardOk(s, h);
    var step := Toward(s, h);
    RunsMore(states, step);
    more := states + [Do(s, step)];
    if !step.Finish? {
      more := Served(more, h);
    }
  }
}
