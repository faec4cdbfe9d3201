/**
 * race_increment (kernel/race.c) over the spin lock of kernel/spinlock.c, as a step system: n
 * processes, each on its own hart, make k increments each, with or without the lock. Every load,
 * store and atomic exchange is one step, and a schedule names the process that takes each step.
 */
module Counter {
  import opened Collections

  /** The next step of a process. */
  datatype Pc =
    | Loop                 // i < iterations
    | Push                 // push_off()
    | Hold                 // if (holding(lk)) panic("acquire")
    | Swap                 // the atomic exchange, again and again
    | SetCpu               // lk->cpu = mycpu()
    | Load                 // temp = counter
    | Store(temp: int)     // counter = temp + 1
    | OpsLoad              // total_ops++, its load
    | OpsStore(temp: int)  // total_ops++, its store
    | Check                // if (!holding(lk)) panic("release")
    | ClearCpu             // lk->cpu = 0
    | Unlock               // the atomic store of 0
    | Pop                  // pop_off()
    | Done

  /** The interrupt state of a hart: the enable bit, and push_off's depth and saved bit. */
  datatype Hart = Hart(intr: bool, noff: nat, intena: bool)

  datatype State = State(
    pc: seq<Pc>, it: seq<nat>,           // it: the loop variable i
    counter: int, ops: int,
    locked: bool, cpu: Option<nat>,      // the spin lock
    hart: seq<Hart>, panicked: bool,
    holder: Option<nat>,                 // history: who took the lock
    lastC: Option<nat>, lastO: Option<nat>)  // history: who stored last

  ghost predicate Sized(s: State, n: nat) { |s.pc| == |s.it| == |s.hart| == n }

  ghost function Init(n: nat): (s: State) {
    State(seq(n, i => Loop), seq(n, i => 0), 0, 0, false, None, seq(n, i => Hart(true, 0, false)), false, None, None,
          None)
  }

  // What one step of process p does, variable by variable; lock is use_lock.

  ghost function NextPc(s: State, n: nat, k: nat, lock: bool, p: nat): (pc: Pc)
    requires Sized(s, n) && p < n
  {
    match s.pc[p]
    case Loop => if s.it[p] >= k then Done else if lock then Push else Load
    case Push => Hold
    case Hold => Swap
    case Swap => if s.locked then Swap else SetCpu
    case SetCpu => Load
    case Load => Store(s.counter)
    case Store(t) => OpsLoad
    case OpsLoad => OpsStore(s.ops)
    case OpsStore(u) => if lock then Check else Loop
    case Check => ClearCpu
    case ClearCpu => Unlock
    case Unlock => Pop
    case Pop => Loop
    case Done => Done
  }

  ghost function NextIt(s: State, n: nat, lock: bool, p: nat): (it: seq<nat>)
    requires Sized(s, n) && p < n
  {
    if s.pc[p].Pop? || (s.pc[p].OpsStore? && !lock) then s.it[p := s.it[p] + 1] else s.it
  }

  function PushOff(h: Hart): (h': Hart) {
    Hart(false, h.noff + 1, if h.noff == 0 then h.intr else h.intena)
  }

  /** pop_off, where it does not panic. */
  function PopOff(h: Hart): (h': Hart)
    requires h.noff >= 1
  {
    Hart(h.intr || (h.noff == 1 && h.intena), h.noff - 1, h.intena)
  }

  predicate PopPanics(h: Hart) { h.intr || h.noff < 1 }

  /** How many push_offs are not undone; true is a push_off, false a pop_off. */
  function Depth(calls: seq<bool>): (d: int) {
    if calls == [] then 0 else Depth(calls[..|calls| - 1]) + if calls[|calls| - 1] then 1 else -1
  }

  /** The hart after the calls. */
  function After(h: Hart, calls: seq<bool>): (h': Hart) {
    if calls == [] then h
    else
      var g := After(h, calls[..|calls| - 1]);
      if calls[|calls| - 1] then PushOff(g) else if PopPanics(g) then g else PopOff(g)
  }

  /** push_off and pop_off are matched: as long as there were never more pop_offs than push_offs, interrupts are off
      while some push_off is not undone, are what they were before when all are, and pop_off panics exactly when
      there is none left to undo. */
  lemma {:induction false} Matched(h: Hart, calls: seq<bool>)
    requires h.noff == 0 && forall k :: 0 <= k <= |calls| ==> Depth(calls[..k]) >= 0
    ensures var g, d := After(h, calls), Depth(calls);
            && g.noff == d && (d > 0 ==> !g.intr && g.intena == h.intr) && (d == 0 ==> g.intr == h.intr)
            && (PopPanics(g) <==> d == 0)
  {
    assert calls[..|calls|] == calls;
    if calls != [] {
      var m := |calls| - 1;
      var front := calls[..m];
      forall k | 0 <= k <= m ensures Depth(front[..k]) >= 0 { assert front[..k] == calls[..k]; }
      Matched(h, front);
    }
  }

  ghost function NextHart(s: State, n: nat, p: nat): (hart: seq<Hart>)
    requires Sized(s, n) && p < n
  {
    if s.pc[p].Push? then s.hart[p := PushOff(s.hart[p])]
    else if s.pc[p].Pop? && !PopPanics(s.hart[p]) then s.hart[p := PopOff(s.hart[p])]
    else s.hart
  }

  predicate Holding(s: State, p: nat) { s.locked && s.cpu == Some(p) }

  ghost predicate Panics(s: State, n: nat, p: nat)
    requires Sized(s, n) && p < n
  {
    (s.pc[p].Hold? && Holding(s, p)) || (s.pc[p].Check? && !Holding(s, p)) || (s.pc[p].Pop? && PopPanics(s.hart[p]))
  }

  ghost function NextHolder(pc: Pc, locked: bool, holder: Option<nat>, p: nat): (holder': Option<nat>) {
    if pc.Swap? && !locked then Some(p) else if pc.Unlock? then None else holder
  }

  /** One step of process p; a finished process does nothing. */
  ghost function Step(s: State, n: nat, k: nat, lock: bool, p: nat): (s': State)
    requires Sized(s, n) && p < n
    ensures Sized(s', n)
  {
    State(
      s.pc[p := NextPc(s, n, k, lock, p)], NextIt(s, n, lock, p),
      if s.pc[p].Store? then s.pc[p].temp + 1 else s.counter,
      if s.pc[p].OpsStore? then s.pc[p].temp + 1 else s.ops,
      if s.pc[p].Swap? then true else if s.pc[p].Unlock? then false else s.locked,
      if s.pc[p].SetCpu? then Some(p) else if s.pc[p].ClearCpu? then None else s.cpu,
      NextHart(s, n, p), s.panicked || Panics(s, n, p),
      NextHolder(s.pc[p], s.locked, s.holder, p),
      if s.pc[p].Store? then Some(p) else s.lastC,
      if s.pc[p].OpsStore? then Some(p) else s.lastO)
  }

  /** The state after a schedule; entries that name no process are skipped. */
  ghost function Exec(s: State, n: nat, k: nat, lock: bool, sched: seq<nat>): (s': State)
    requires Sized(s, n)
    ensures Sized(s', n)
    decreases sched
  {
    if sched == [] then s
    else Exec(if sched[0] < n then Step(s, n, k, lock, sched[0]) else s, n, k, lock, sched[1..])
  }

  lemma {:induction false} ExecAppend(s: State, n: nat, k: nat, lock: bool, a: seq<nat>, b: seq<nat>)
    requires Sized(s, n)
    ensures Exec(s, n, k, lock, a + b) == Exec(Exec(s, n, k, lock, a), n, k, lock, b)
    decreases a
  {
    hide Step;
    if a == [] {
      assert a + b == b;
    } else {
      assert (a + b)[0] == a[0] && (a + b)[1..] == a[1..] + b;
      ExecAppend(if a[0] < n then Step(s, n, k, lock, a[0]) else s, n, k, lock, a[1..], b);
    }
  }

  ghost predicate Finished(s: State, n: nat)
    requires Sized(s, n)
  {
    forall p: nat :: p < n ==> s.pc[p].Done?
  }

  // ---- counting stores

  /** The stores to counter a process has made. */
  function Stored(pc: Pc, it: nat): (m: nat) {
    if pc.OpsLoad? || pc.OpsStore? || pc.Check? || pc.ClearCpu? || pc.Unlock? || pc.Pop? then it + 1 else it
  }

  /** The stores to total_ops a process has made. */
  function OpsStored(pc: Pc, it: nat): (m: nat) {
    if pc.Check? || pc.ClearCpu? || pc.Unlock? || pc.Pop? then it + 1 else it
  }

  ghost function Counts(s: State, n: nat): (c: seq<nat>)
    requires Sized(s, n)
    ensures |c| == n && forall p :: 0 <= p < n ==> c[p] == Stored(s.pc[p], s.it[p])
  {
    seq(n, p requires 0 <= p < n => Stored(s.pc[p], s.it[p]))
  }

  ghost function OpsCounts(s: State, n: nat): (c: seq<nat>)
    requires Sized(s, n)
    ensures |c| == n && forall p :: 0 <= p < n ==> c[p] == OpsStored(s.pc[p], s.it[p])
  {
    seq(n, p requires 0 <= p < n => OpsStored(s.pc[p], s.it[p]))
  }

  /** Only reached with use_lock. */
  predicate InLock(pc: Pc) {
    pc.Push? || pc.Hold? || pc.Swap? || pc.SetCpu? || pc.Check? || pc.ClearCpu? || pc.Unlock? || pc.Pop?
  }

  lemma MoveOn(s: State, n: nat, k: nat, lock: bool, p: nat)
    requires Sized(s, n) && p < n && (InLock(s.pc[p]) ==> lock)
    ensures var pc', it' := NextPc(s, n, k, lock, p), NextIt(s, n, lock, p);
            && |it'| == n && (forall q :: 0 <= q < n && q != p ==> it'[q] == s.it[q])
            && Stored(pc', it'[p]) == Stored(s.pc[p], s.it[p]) + (if s.pc[p].Store? then 1 else 0)
            && OpsStored(pc', it'[p]) == OpsStored(s.pc[p], s.it[p]) + (if s.pc[p].OpsStore? then 1 else 0)
  {
  }

  /** A step makes at most one store to each cell. */
  lemma CountStep(s: State, n: nat, k: nat, lock: bool, p: nat)
    requires Sized(s, n) && p < n && (InLock(s.pc[p]) ==> lock)
    ensures Sum(Counts(Step(s, n, k, lock, p), n)) == Sum(Counts(s, n)) + (if s.pc[p].Store? then 1 else 0)
    ensures Sum(OpsCounts(Step(s, n, k, lock, p), n)) == Sum(OpsCounts(s, n)) + (if s.pc[p].OpsStore? then 1 else 0)
  {
    hide NextHart, Panics, Sum;
    var s' := Step(s, n, k, lock, p);
    MoveOn(s, n, k, lock, p);
    hide NextPc, NextIt, Stored, OpsStored;
    assert Counts(s', n) == Counts(s, n)[p := Stored(s'.pc[p], s'.it[p])];
    assert OpsCounts(s', n) == OpsCounts(s, n)[p := OpsStored(s'.pc[p], s'.it[p])];
    SumUpdate(Counts(s, n), p, Stored(s'.pc[p], s'.it[p]));
    SumUpdate(OpsCounts(s, n), p, OpsStored(s'.pc[p], s'.it[p]));
  }

  // ---- what holds with and without the lock

  /** The loop of process p. */
  ghost predicate LoopAt(s: State, n: nat, k: nat, lock: bool, p: nat)
    requires Sized(s, n) && p < n
  {
    && s.it[p] <= k && (s.pc[p].Done? ==> s.it[p] == k) && (!s.pc[p].Loop? && !s.pc[p].Done? ==> s.it[p] < k)
    && (InLock(s.pc[p]) ==> lock)
  }

  /** A value a process has loaded and not stored yet, between the two bounds; own is the number of
      stores it has made, total that of all processes. */
  predicate TempOk(t: int, own: nat, total: nat) { 0 <= t <= total && (own >= 1 ==> t >= 1) }

  ghost predicate RacyAt(s: State, n: nat, p: nat)
    requires Sized(s, n) && p < n
  {
    && (Stored(s.pc[p], s.it[p]) >= 1 ==> s.lastC.Some?)
    && (OpsStored(s.pc[p], s.it[p]) >= 1 ==> s.lastO.Some?)
    && (s.pc[p].Store? ==> TempOk(s.pc[p].temp, Stored(s.pc[p], s.it[p]), Sum(Counts(s, n))))
    && (s.pc[p].OpsStore? ==> TempOk(s.pc[p].temp, OpsStored(s.pc[p], s.it[p]), Sum(OpsCounts(s, n))))
  }

  function Min2(k: nat): (m: nat) { if k < 2 then k else 2 }

  /** A cell: at most as many as the stores, and at least 2 once the last process to store has stored
      twice. */
  predicate CellOk(val: int, last: Option<nat>, counts: seq<nat>) {
    && 0 <= val <= Sum(counts)
    && (last.Some? ==> last.value < |counts| && counts[last.value] >= 1 && val >= Min2(counts[last.value]))
  }

  ghost predicate Racy(s: State, n: nat, k: nat, lock: bool) {
    && Sized(s, n)
    && CellOk(s.counter, s.lastC, Counts(s, n)) && CellOk(s.ops, s.lastO, OpsCounts(s, n))
    && forall p: nat :: p < n ==> LoopAt(s, n, k, lock, p) && RacyAt(s, n, p)
  }

  lemma RacyInit(n: nat, k: nat, lock: bool)
    ensures Racy(Init(n), n, k, lock)
  {
    var s := Init(n);
    SumBound(Counts(s, n), 0);
    SumBound(OpsCounts(s, n), 0);
  }

  lemma LoopStep(s: State, n: nat, k: nat, lock: bool, p: nat, q: nat)
    requires Sized(s, n) && p < n && q < n && LoopAt(s, n, k, lock, p) && LoopAt(s, n, k, lock, q)
    ensures LoopAt(Step(s, n, k, lock, p), n, k, lock, q)
  {
    hide NextHart, Panics;
  }

  lemma CellStep(s: State, n: nat, k: nat, lock: bool, p: nat)
    requires Racy(s, n, k, lock) && p < n
    ensures CellOk(Step(s, n, k, lock, p).counter, Step(s, n, k, lock, p).lastC, Counts(Step(s, n, k, lock, p), n))
    ensures CellOk(Step(s, n, k, lock, p).ops, Step(s, n, k, lock, p).lastO, OpsCounts(Step(s, n, k, lock, p), n))
  {
    hide NextHart, Panics, Sum;
    assert LoopAt(s, n, k, lock, p) && RacyAt(s, n, p);
    CountStep(s, n, k, lock, p);
    MoveOn(s, n, k, lock, p);
    hide NextPc, NextIt, Stored, OpsStored, Racy, LoopAt;
  }

  lemma RacyAtStep(s: State, n: nat, k: nat, lock: bool, p: nat, q: nat)
    requires Racy(s, n, k, lock) && p < n && q < n
    ensures RacyAt(Step(s, n, k, lock, p), n, q)
  {
    hide NextHart, Panics, Sum;
    assert LoopAt(s, n, k, lock, p) && RacyAt(s, n, p) && RacyAt(s, n, q);
    CountStep(s, n, k, lock, p);
    MoveOn(s, n, k, lock, p);
    hide NextIt, Stored, OpsStored, Racy, LoopAt;
  }

  lemma RacyStep(s: State, n: nat, k: nat, lock: bool, p: nat)
    requires Racy(s, n, k, lock) && p < n
    ensures Racy(Step(s, n, k, lock, p), n, k, lock)
  {
    CellStep(s, n, k, lock, p);
    forall q: nat | q < n ensures LoopAt(Step(s, n, k, lock, p), n, k, lock, q)
           && RacyAt(Step(s, n, k, lock, p), n, q) {
      hide Step, RacyAt, CellOk;
      assert LoopAt(s, n, k, lock, q) && LoopAt(s, n, k, lock, p);
      LoopStep(s, n, k, lock, p, q);
      RacyAtStep(s, n, k, lock, p, q);
    }
    hide Step, RacyAt, CellOk, LoopAt;
  }

  lemma {:induction false} RacyExec(s: State, n: nat, k: nat, lock: bool, sched: seq<nat>)
    requires Sized(s, n) && Racy(s, n, k, lock)
    ensures Racy(Exec(s, n, k, lock, sched), n, k, lock)
    decreases sched
  {
    hide Racy, Step;
    if sched != [] {
      if sched[0] < n {
        RacyStep(s, n, k, lock, sched[0]);
        RacyExec(Step(s, n, k, lock, sched[0]), n, k, lock, sched[1..]);
      } else {
        RacyExec(s, n, k, lock, sched[1..]);
      }
    }
  }

  lemma FinalBounds(s: State, n: nat, k: nat, lock: bool)
    requires Racy(s, n, k, lock) && Finished(s, n) && n >= 1 && k >= 1
    ensures Min2(k) <= s.counter <= n * k && Min2(k) <= s.ops <= n * k
    ensures Sum(Counts(s, n)) == n * k && Sum(OpsCounts(s, n)) == n * k
  {
    hide Sum;
    forall p: nat | p < n ensures Counts(s, n)[p] == k && OpsCounts(s, n)[p] == k {
      assert LoopAt(s, n, k, lock, p);
    }
    SumBound(Counts(s, n), k);
    SumBound(OpsCounts(s, n), k);
    assert RacyAt(s, n, 0);
    assert Counts(s, n)[0] == k && OpsCounts(s, n)[0] == k;
  }

  /** Without the lock, every schedule that lets all processes finish leaves both cells between
      min(2, k) and n * k. */
  lemma UnlockedBounds(n: nat, k: nat, sched: seq<nat>)
    requires n >= 1 && k >= 1 && Finished(Exec(Init(n), n, k, false, sched), n)
    ensures var s := Exec(Init(n), n, k, false, sched);
            Min2(k) <= s.counter <= n * k && Min2(k) <= s.ops <= n * k
  {
    RacyInit(n, k, false);
    RacyExec(Init(n), n, k, false, sched);
    FinalBounds(Exec(Init(n), n, k, false, sched), n, k, false);
  }

  // ---- with the lock

  /** Between the exchange that took the lock and the store that gives it back. */
  predicate HasLock(pc: Pc) {
    pc.SetCpu? || pc.Load? || pc.Store? || pc.OpsLoad? || pc.OpsStore? || pc.Check? || pc.ClearCpu? || pc.Unlock?
  }

  /** lk->cpu is set. */
  predicate HasCpu(pc: Pc) {
    pc.Load? || pc.Store? || pc.OpsLoad? || pc.OpsStore? || pc.Check? || pc.ClearCpu?
  }

  /** Interrupts are off from push_off to pop_off, and on again after it. */
  predicate HartOk(pc: Pc, h: Hart) {
    if pc.Loop? || pc.Push? || pc.Done? then h.intr && h.noff == 0 else !h.intr && h.noff == 1 && h.intena
  }

  ghost predicate LockedAt(s: State, n: nat, p: nat)
    requires Sized(s, n) && p < n
  {
    && (HasLock(s.pc[p]) <==> s.holder == Some(p)) && (HasCpu(s.pc[p]) <==> s.cpu == Some(p))
    && (s.pc[p].Store? ==> s.pc[p].temp == s.counter) && (s.pc[p].OpsStore? ==> s.pc[p].temp == s.ops)
    && HartOk(s.pc[p], s.hart[p])
  }

  ghost predicate Locked(s: State, n: nat, k: nat) {
    && Sized(s, n) && !s.panicked && (s.locked <==> s.holder.Some?)
    && s.counter == Sum(Counts(s, n)) && s.ops == Sum(OpsCounts(s, n))
    && forall p: nat :: p < n ==> LoopAt(s, n, k, true, p) && LockedAt(s, n, p)
  }

  lemma LockedInit(n: nat, k: nat)
    ensures Locked(Init(n), n, k)
  {
    var s := Init(n);
    SumBound(Counts(s, n), 0);
    SumBound(OpsCounts(s, n), 0);
  }

  lemma LockedAtStep(s: State, n: nat, k: nat, p: nat, q: nat)
    requires Sized(s, n) && p < n && q < n && LockedAt(s, n, p) && LockedAt(s, n, q) && (s.locked <==> s.holder.Some?)
    requires LoopAt(s, n, k, true, p)
    ensures LockedAt(Step(s, n, k, true, p), n, q) && !Panics(s, n, p)
  {
    hide NextIt, Sum, Counts, OpsCounts;
  }

  lemma LockedStep(s: State, n: nat, k: nat, p: nat)
    requires Locked(s, n, k) && p < n
    ensures Locked(Step(s, n, k, true, p), n, k)
  {
    hide Sum, NextIt, NextHart, NextPc;
    assert LockedAt(s, n, p) && LoopAt(s, n, k, true, p);
    CountStep(s, n, k, true, p);
    forall q: nat | q < n
      ensures LoopAt(Step(s, n, k, true, p), n, k, true, q) && LockedAt(Step(s, n, k, true, p), n, q)
              && !Panics(s, n, p)
    {
      hide Step, LockedAt, Panics;
      assert LoopAt(s, n, k, true, q) && LockedAt(s, n, q);
      LoopStep(s, n, k, true, p, q);
      LockedAtStep(s, n, k, p, q);
    }
    assert !Panics(s, n, p);
    hide LoopAt, Panics;
  }

  lemma {:induction false} LockedExec(s: State, n: nat, k: nat, sched: seq<nat>)
    requires Sized(s, n) && Locked(s, n, k)
    ensures Locked(Exec(s, n, k, true, sched), n, k)
    decreases sched
  {
    hide Locked, Step;
    if sched != [] {
      if sched[0] < n {
        LockedStep(s, n, k, sched[0]);
        LockedExec(Step(s, n, k, true, sched[0]), n, k, sched[1..]);
      } else {
        LockedExec(s, n, k, sched[1..]);
      }
    }
  }

  lemma {:induction false} HolderExec(s: State, n: nat, k: nat, sched: seq<nat>)
    requires Sized(s, n) && (s.holder.Some? ==> s.holder.value < n)
    ensures var s' := Exec(s, n, k, true, sched); s'.holder.Some? ==> s'.holder.value < n
    decreases sched
  {
    if sched != [] {
      HolderExec(if sched[0] < n then Step(s, n, k, true, sched[0]) else s, n, k, sched[1..]);
    }
  }

  /** The holder is one of the processes. */
  lemma HolderIn(n: nat, k: nat, sched: seq<nat>)
    ensures var s := Exec(Init(n), n, k, true, sched); s.holder.Some? ==> s.holder.value < n
  {
    HolderExec(Init(n), n, k, sched);
  }

  /** With the lock, every schedule that lets all processes finish ends at exactly n * k. */
  lemma LockedExact(n: nat, k: nat, sched: seq<nat>)
    requires Finished(Exec(Init(n), n, k, true, sched), n)
    ensures var s := Exec(Init(n), n, k, true, sched); s.counter == n * k && s.ops == n * k && !s.locked
  {
    LockedInit(n, k);
    LockedExec(Init(n), n, k, sched);
    var s := Exec(Init(n), n, k, true, sched);
    forall p: nat | p < n ensures Counts(s, n)[p] == k && OpsCounts(s, n)[p] == k && s.holder != Some(p) {
      assert LoopAt(s, n, k, true, p) && LockedAt(s, n, p);
    }
    SumBound(Counts(s, n), k);
    SumBound(OpsCounts(s, n), k);
    HolderIn(n, k, sched);
  }

  /** Spin lock: in every state of every schedule at most one process is in the critical section, no
      check in acquire, release or pop_off panics, and interrupts are off from acquire to release and
      on again outside. */
  lemma MutualExclusion(n: nat, k: nat, sched: seq<nat>, p: nat, q: nat)
    requires p < n && q < n
    ensures var s := Exec(Init(n), n, k, true, sched);
            && !s.panicked && (HasLock(s.pc[p]) && HasLock(s.pc[q]) ==> p == q) && (HasLock(s.pc[p]) ==> s.locked)
            && s.hart[p].intr == (s.pc[p].Loop? || s.pc[p].Push? || s.pc[p].Done?)
  {
    LockedInit(n, k);
    LockedExec(Init(n), n, k, sched);
    var s := Exec(Init(n), n, k, true, sched);
    assert LockedAt(s, n, p) && LockedAt(s, n, q);
    hide Exec, Sum, Init;
  }

  // ---- with the lock, all processes can finish

  /** How far a process is from the end of its iteration. */
  function Rest(pc: Pc): (m: nat) {
    match pc
    case Loop => 13
    case Push => 12
    case Hold => 11
    case Swap => 10
    case SetCpu => 9
    case Load => 8
    case Store(_) => 7
    case OpsLoad => 6
    case OpsStore(_) => 5
    case Check => 4
    case ClearCpu => 3
    case Unlock => 2
    case Pop => 1
    case Done => 0
  }

  /** Nothing but its own steps keeps process p from finishing. */
  ghost predicate Clear(s: State, n: nat, k: nat, p: nat) {
    && Sized(s, n) && p < n && s.it[p] <= k && (!s.pc[p].Loop? && !s.pc[p].Done? ==> s.it[p] < k)
    && (HasLock(s.pc[p]) || !s.locked)
  }

  lemma ClearStep(s: State, n: nat, k: nat, p: nat)
    requires Clear(s, n, k, p) && !s.pc[p].Done?
    ensures var t := Step(s, n, k, true, p);
            && Clear(t, n, k, p) && (k - t.it[p]) * 13 + Rest(t.pc[p]) < (k - s.it[p]) * 13 + Rest(s.pc[p])
            && forall q :: 0 <= q < n && q != p ==> t.pc[q] == s.pc[q] && t.it[q] == s.it[q]
  {
    hide NextHart, Panics, NextHolder;
  }

  /** Process p makes its increments undisturbed and is done. */
  lemma {:induction false} LockedToTheEnd(s: State, n: nat, k: nat, p: nat) returns (sched: seq<nat>)
    requires Clear(s, n, k, p)
    ensures var t := Exec(s, n, k, true, sched);
            && !t.locked && t.pc[p].Done?
            && forall q :: 0 <= q < n && q != p ==> t.pc[q] == s.pc[q] && t.it[q] == s.it[q]
    decreases (k - s.it[p]) * 13 + Rest(s.pc[p])
  {
    if s.pc[p].Done? {
      sched := [];
    } else {
      ClearStep(s, n, k, p);
      hide Step, Clear, Rest;
      var rest := LockedToTheEnd(Step(s, n, k, true, p), n, k, p);
      sched := [p] + rest;
      assert sched[1..] == rest;
    }
  }

  /** Processes q, q + 1, ... do so one after the other. */
  lemma {:induction false} LockedInTurn(s: State, n: nat, k: nat, q: nat) returns (sched: seq<nat>)
    requires Sized(s, n) && q <= n && !s.locked && forall p: nat :: q <= p < n ==> s.pc[p].Loop? && s.it[p] == 0
    ensures var t := Exec(s, n, k, true, sched);
            && (forall p: nat :: q <= p < n ==> t.pc[p].Done?) && (forall p: nat :: p < q ==> t.pc[p] == s.pc[p])
    decreases n - q
  {
    if q == n {
      sched := [];
    } else {
      hide Exec;
      var a := LockedToTheEnd(s, n, k, q);
      var b := LockedInTurn(Exec(s, n, k, true, a), n, k, q + 1);
      sched := a + b;
      ExecAppend(s, n, k, true, a, b);
    }
  }

  /** With the lock some schedule lets all processes finish, for any number of them and of increments. */
  lemma LockedFinishes(n: nat, k: nat) returns (sched: seq<nat>)
    ensures var s := Exec(Init(n), n, k, true, sched); Finished(s, n) && s.counter == n * k && s.ops == n * k
  {
    var s0 := Init(n);
    assert forall p: nat :: p < n ==> s0.pc[p].Loop? && s0.it[p] == 0;
    hide Exec, Init;
    sched := LockedInTurn(s0, n, k, 0);
    LockedExact(n, k, sched);
  }

  // ---- the lower bound is reached

  /** One step of p, seen through the variables that matter without the lock. */
  lemma One(s: State, n: nat, k: nat, p: nat)
    requires Sized(s, n) && p < n && !InLock(s.pc[p])
    ensures var s' := Exec(s, n, k, false, [p]);
            && s'.pc == s.pc[p := NextPc(s, n, k, false, p)] && s'.it == NextIt(s, n, false, p)
            && s'.counter == (if s.pc[p].Store? then s.pc[p].temp + 1 else s.counter)
  {
    hide NextPc, NextIt;
    assert [p][1..] == [];
    assert Exec(s, n, k, false, [p]) == Exec(Step(s, n, k, false, p), n, k, false, [p][1..]);
  }

  /** p loads the counter. */
  lemma LoadNow(s: State, n: nat, k: nat, p: nat) returns (sched: seq<nat>)
    requires Sized(s, n) && p < n && s.pc[p].Loop? && s.it[p] < k
    ensures var s' := Exec(s, n, k, false, sched);
            s'.pc == s.pc[p := Store(s.counter)] && s'.it == s.it && s'.counter == s.counter
  {
    hide Exec;
    One(s, n, k, p);
    var s1 := Exec(s, n, k, false, [p]);
    One(s1, n, k, p);
    sched := [p] + [p];
    ExecAppend(s, n, k, false, [p], [p]);
  }

  /** p stores what it loaded, and ends the iteration. */
  lemma StoreNow(s: State, n: nat, k: nat, p: nat) returns (sched: seq<nat>)
    requires Sized(s, n) && p < n && s.pc[p].Store?
    ensures var s' := Exec(s, n, k, false, sched);
            s'.pc == s.pc[p := Loop] && s'.it == s.it[p := s.it[p] + 1] && s'.counter == s.pc[p].temp + 1
  {
    hide Exec;
    One(s, n, k, p);
    var s1 := Exec(s, n, k, false, [p]);
    One(s1, n, k, p);
    var s2 := Exec(s1, n, k, false, [p]);
    One(s2, n, k, p);
    ExecAppend(s1, n, k, false, [p], [p]);
    sched := [p] + ([p] + [p]);
    ExecAppend(s, n, k, false, [p], [p] + [p]);
  }

  /** p makes one increment undisturbed. */
  lemma Once(s: State, n: nat, k: nat, p: nat) returns (sched: seq<nat>)
    requires Sized(s, n) && p < n && s.pc[p].Loop? && s.it[p] < k
    ensures var s' := Exec(s, n, k, false, sched);
            s'.pc == s.pc && s'.it == s.it[p := s.it[p] + 1] && s'.counter == s.counter + 1
  {
    hide Exec;
    var a := LoadNow(s, n, k, p);
    var s1 := Exec(s, n, k, false, a);
    var b := StoreNow(s1, n, k, p);
    assert s.pc[p := Store(s.counter)][p := Loop] == s.pc;
    sched := a + b;
    ExecAppend(s, n, k, false, a, b);
  }

  /** p makes m increments undisturbed. */
  lemma {:induction false} Alone(s: State, n: nat, k: nat, p: nat, m: nat) returns (sched: seq<nat>)
    requires Sized(s, n) && p < n && s.pc[p].Loop? && s.it[p] + m <= k
    ensures var s' := Exec(s, n, k, false, sched);
            s'.pc == s.pc && s'.it == s.it[p := s.it[p] + m] && s'.counter == s.counter + m
    decreases m
  {
    if m == 0 {
      sched := [];
    } else {
      hide Exec;
      var a := Once(s, n, k, p);
      var s1 := Exec(s, n, k, false, a);
      var b := Alone(s1, n, k, p, m - 1);
      sched := a + b;
      ExecAppend(s, n, k, false, a, b);
    }
  }

  /** p makes its remaining increments undisturbed and is done. */
  lemma ToTheEnd(s: State, n: nat, k: nat, p: nat) returns (sched: seq<nat>)
    requires Sized(s, n) && p < n && s.pc[p].Loop? && s.it[p] <= k
    ensures var s' := Exec(s, n, k, false, sched);
            s'.pc == s.pc[p := Done] && s'.it == s.it[p := k] && s'.counter == s.counter + k - s.it[p]
  {
    hide Exec;
    var a := Alone(s, n, k, p, k - s.it[p]);
    var s1 := Exec(s, n, k, false, a);
    One(s1, n, k, p);
    sched := a + [p];
    ExecAppend(s, n, k, false, a, [p]);
  }

  /** Processes q, q + 1, ... run to the end one after the other. */
  lemma {:induction false} Others(s: State, n: nat, k: nat, q: nat) returns (sched: seq<nat>)
    requires Sized(s, n) && q <= n && forall p: nat :: q <= p < n ==> s.pc[p].Loop? && s.it[p] == 0
    ensures var s' := Exec(s, n, k, false, sched);
            && (forall p: nat :: q <= p < n ==> s'.pc[p].Done?)
            && (forall p: nat :: p < q ==> s'.pc[p] == s.pc[p] && s'.it[p] == s.it[p])
    decreases n - q
  {
    if q == n {
      sched := [];
    } else {
      hide Exec;
      var a := ToTheEnd(s, n, k, q);
      var s1 := Exec(s, n, k, false, a);
      var b := Others(s1, n, k, q + 1);
      sched := a + b;
      ExecAppend(s, n, k, false, a, b);
    }
  }

  /** Process 0 loads 0, the others work, process 1 up to its last increment, and process 0 stores 1. */
  lemma FirstHalf(n: nat, k: nat) returns (sched: seq<nat>)
    requires n >= 2 && k >= 2
    ensures var s := Exec(Init(n), n, k, false, sched);
            && s.counter == 1 && s.pc[0].Loop? && s.it[0] == 1 && s.pc[1].Loop? && s.it[1] == k - 1
            && forall p: nat :: 2 <= p < n ==> s.pc[p].Done?
  {
    var s0 := Init(n);
    assert forall p: nat :: p < n ==> s0.pc[p].Loop? && s0.it[p] == 0;
    hide Exec, Init;
    var a := LoadNow(s0, n, k, 0);
    var s1 := Exec(s0, n, k, false, a);
    var b := Others(s1, n, k, 2);
    var s2 := Exec(s1, n, k, false, b);
    var c := Alone(s2, n, k, 1, k - 1);
    var s3 := Exec(s2, n, k, false, c);
    var d := StoreNow(s3, n, k, 0);
    sched := a + (b + (c + d));
    ExecAppend(s2, n, k, false, c, d);
    ExecAppend(s1, n, k, false, b, c + d);
    ExecAppend(s0, n, k, false, a, b + (c + d));
  }

  /** Process 1 loads 1, process 0 finishes, and process 1 stores 2. */
  lemma SecondHalf(s: State, n: nat, k: nat) returns (sched: seq<nat>)
    requires n >= 2 && k >= 2 && Sized(s, n)
    requires s.counter == 1 && s.pc[0].Loop? && s.it[0] == 1 && s.pc[1].Loop? && s.it[1] == k - 1
    requires forall p: nat :: 2 <= p < n ==> s.pc[p].Done?
    ensures var s' := Exec(s, n, k, false, sched); Finished(s', n) && s'.counter == 2
  {
    hide Exec;
    var a := LoadNow(s, n, k, 1);
    var s1 := Exec(s, n, k, false, a);
    var b := ToTheEnd(s1, n, k, 0);
    var s2 := Exec(s1, n, k, false, b);
    var c := StoreNow(s2, n, k, 1);
    var s3 := Exec(s2, n, k, false, c);
    var d := ToTheEnd(s3, n, k, 1);
    sched := a + (b + (c + d));
    ExecAppend(s2, n, k, false, c, d);
    ExecAppend(s1, n, k, false, b, c + d);
    ExecAppend(s, n, k, false, a, b + (c + d));
  }

  /** For two or more processes with two or more increments each, some schedule without the lock
      ends at 2: process 0 holds a stale 0 while the others work, process 1 a stale 1. */
  lemma TwoIsReached(n: nat, k: nat) returns (sched: seq<nat>)
    requires n >= 2 && k >= 2
    ensures var s := Exec(Init(n), n, k, false, sched); Finished(s, n) && s.counter == 2
  {
    var a := FirstHalf(n, k);
    var b := SecondHalf(Exec(Init(n), n, k, false, a), n, k);
    sched := a + b;
    ExecAppend(Init(n), n, k, false, a, b);
    hide Exec, Init;
  }

  // ---- exactly when the lock is not needed

  /** Process 0 loads 0, the others finish, process 0 stores 1 and finishes. */
  lemma LostUpdates(n: nat, k: nat) returns (sched: seq<nat>)
    requires n >= 2 && k >= 1
    ensures var s := Exec(Init(n), n, k, false, sched); Finished(s, n) && s.counter == k
  {
    var s0 := Init(n);
    assert forall p: nat :: p < n ==> s0.pc[p].Loop? && s0.it[p] == 0;
    hide Exec, Init;
    var a := LoadNow(s0, n, k, 0);
    var s1 := Exec(s0, n, k, false, a);
    var b := Others(s1, n, k, 1);
    var s2 := Exec(s1, n, k, false, b);
    var c := StoreNow(s2, n, k, 0);
    var s3 := Exec(s2, n, k, false, c);
    var d := ToTheEnd(s3, n, k, 0);
    sched := a + (b + (c + d));
    ExecAppend(s2, n, k, false, c, d);
    ExecAppend(s1, n, k, false, b, c + d);
    ExecAppend(s0, n, k, false, a, b + (c + d));
  }

  /** What a process has loaded is still there. */
  ghost predicate FreshAt(s: State, n: nat, p: nat)
    requires Sized(s, n) && p < n
  {
    (s.pc[p].Store? ==> s.pc[p].temp == s.counter) && (s.pc[p].OpsStore? ==> s.pc[p].temp == s.ops)
  }

  ghost predicate Undisturbed(s: State, n: nat, k: nat) {
    && Racy(s, n, k, false) && s.counter == Sum(Counts(s, n)) && s.ops == Sum(OpsCounts(s, n))
    && forall p: nat :: p < n ==> FreshAt(s, n, p)
  }

  lemma FreshStep(s: State, n: nat, k: nat, p: nat, q: nat)
    requires (n <= 1 || k == 0) && Sized(s, n) && p < n && q < n && LoopAt(s, n, k, false, p)
             && LoopAt(s, n, k, false, q)
    requires FreshAt(s, n, p)
    ensures FreshAt(Step(s, n, k, false, p), n, q)
  {
    hide NextHart, Panics, NextIt, NextHolder;
  }

  lemma UndisturbedStep(s: State, n: nat, k: nat, p: nat)
    requires (n <= 1 || k == 0) && Undisturbed(s, n, k) && p < n
    ensures Undisturbed(Step(s, n, k, false, p), n, k)
  {
    hide Sum, NextPc, NextIt, NextHart, Panics, CellOk, RacyAt;
    assert LoopAt(s, n, k, false, p) && FreshAt(s, n, p);
    CountStep(s, n, k, false, p);
    RacyStep(s, n, k, false, p);
    forall q: nat | q < n ensures FreshAt(Step(s, n, k, false, p), n, q) {
      assert LoopAt(s, n, k, false, q);
      FreshStep(s, n, k, p, q);
    }
    hide LoopAt;
  }

  lemma {:induction false} UndisturbedExec(s: State, n: nat, k: nat, sched: seq<nat>)
    requires (n <= 1 || k == 0) && Sized(s, n) && Undisturbed(s, n, k)
    ensures Undisturbed(Exec(s, n, k, false, sched), n, k)
    decreases sched
  {
    hide Undisturbed, Step;
    if sched != [] {
      if sched[0] < n {
        UndisturbedStep(s, n, k, sched[0]);
        UndisturbedExec(Step(s, n, k, false, sched[0]), n, k, sched[1..]);
      } else {
        UndisturbedExec(s, n, k, sched[1..]);
      }
    }
  }

  lemma NobodyElse(n: nat, k: nat, sched: seq<nat>)
    requires (n <= 1 || k == 0) && Finished(Exec(Init(n), n, k, false, sched), n)
    ensures var s := Exec(Init(n), n, k, false, sched); s.counter == n * k && s.ops == n * k
  {
    var s0, s := Init(n), Exec(Init(n), n, k, false, sched);
    RacyInit(n, k, false);
    SumBound(Counts(s0, n), 0);
    SumBound(OpsCounts(s0, n), 0);
    assert Undisturbed(s0, n, k);
    UndisturbedExec(s0, n, k, sched);
    forall p: nat | p < n ensures Counts(s, n)[p] == k && OpsCounts(s, n)[p] == k {
      assert LoopAt(s, n, k, false, p);
    }
    SumBound(Counts(s, n), k);
    SumBound(OpsCounts(s, n), k);
  }

  ghost predicate AlwaysExact(n: nat, k: nat) {
    forall sched :: Finished(Exec(Init(n), n, k, false, sched), n) ==>
                      var s := Exec(Init(n), n, k, false, sched); s.counter == n * k && s.ops == n * k
  }

  /** Without the lock, every schedule that lets all processes finish ends at n * k if and only if there
      are no two processes, or no increments. */
  lemma UnlockedExact(n: nat, k: nat)
    ensures AlwaysExact(n, k) <==> n <= 1 || k == 0
  {
    if n <= 1 || k == 0 {
      forall sched | Finished(Exec(Init(n), n, k, false, sched), n)
        ensures var s := Exec(Init(n), n, k, false, sched); s.counter == n * k && s.ops == n * k
      {
        NobodyElse(n, k, sched);
      }
    } else {
      var sched := LostUpdates(n, k);
      assert n * k > k;
      assert Finished(Exec(Init(n), n, k, false, sched), n);
    }
  }
}
