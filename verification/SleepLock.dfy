/**
 * Sleep locks and sleep/wakeup (kernel/sleeplock.c, kernel/proc.c) as a step system: any number of
 * processes contend for one sleep lock, and every atomic step of acquiresleep, releasesleep, sleep,
 * wakeup, kkill and the scheduler is a transition.
 */
module SleepLock {
  import opened Collections

  /** What p->state says; Running stands for every state but the other two. */
  datatype Run = Running | Sleeping | Runnable

  /** Where a process is; the comment names the step it takes next. */
  datatype Pc =
    | Idle                    // acquiresleep or kkill
    | Acquire                 // acquire(&lk->lk)
    | Test                    // while (lk->locked)
    | LockSelf                // sleep: acquire(&p->lock)
    | DropSpin                // release(lk)
    | SetChan                 // p->chan = chan
    | SetState                // p->state = SLEEPING
    | Switch                  // sched(), and the scheduler's release(&p->lock)
    | Asleep                  // the scheduler's acquire(&p->lock)
    | Picked                  // the scheduler's test for RUNNABLE
    | Tidy                    // p->chan = 0
    | DropSelf                // release(&p->lock)
    | Reacquire               // acquire(lk)
    | Take                    // lk->locked = 1; lk->pid = p->pid
    | LeaveAcquire            // release(&lk->lk)
    | Critical                // holding the sleep lock; releasesleep next
    | AcquireToRelease        // acquire(&lk->lk)
    | Clear                   // lk->locked = 0; lk->pid = 0
    | Wake(v: nat)            // wakeup: acquire(&proc[v].lock)
    | WakeTest(v: nat)        // the test of proc[v], which may make it RUNNABLE
    | WakeDrop(v: nat)        // release(&proc[v].lock)
    | LeaveRelease            // release(&lk->lk)
    | Kill(v: nat)            // kkill: acquire(&proc[v].lock)
    | KillTest(v: nat)        // a sleeping victim becomes RUNNABLE
    | KillDrop(v: nat)        // release(&proc[v].lock)

  datatype State = State(
    pc: seq<Pc>, run: seq<Run>, chan: seq<bool>,   // chan: p->chan is the sleep lock
    plock: seq<Option<nat>>,                        // who holds each p->lock
    spin: Option<nat>,                              // who holds lk->lk
    locked: bool, owner: Option<nat>)               // lk->locked and lk->pid

  ghost predicate Sized(s: State, n: nat) { |s.pc| == |s.run| == |s.chan| == |s.plock| == n }

  /** All processes idle, the lock as initsleeplock leaves it. */
  ghost function Init(n: nat): (s: State) {
    State(seq(n, i => Idle), seq(n, i => Running), seq(n, i => false), seq(n, i => None), None, false, None)
  }

  /** kill: which way an idle process goes. */
  datatype Choice = Go | KillOne(victim: nat)

  ghost predicate Free(lock: Option<nat>) { lock.None? }

  /** A step may have to wait for a spin lock; nothing else blocks. */
  ghost predicate Enabled(s: State, n: nat, p: nat, c: Choice)
    requires Sized(s, n)
  {
    && p < n
    && (s.pc[p].Idle? && c.KillOne? ==> c.victim < n)
    && (s.pc[p].Acquire? || s.pc[p].Reacquire? || s.pc[p].AcquireToRelease? ==> Free(s.spin))
    && (s.pc[p].LockSelf? || s.pc[p].Asleep? ==> Free(s.plock[p]))
    && (s.pc[p].Wake? ==> s.pc[p].v == p || s.pc[p].v >= n || Free(s.plock[s.pc[p].v]))
    && (s.pc[p].Kill? ==> s.pc[p].v < n && Free(s.plock[s.pc[p].v]))
  }

  // What one step of process p does, variable by variable.

  ghost function NextPc(s: State, n: nat, p: nat, c: Choice): (pc: Pc)
    requires Sized(s, n) && p < n
  {
    match s.pc[p]
    case Idle => if c.KillOne? then Kill(c.victim) else Acquire
    case Acquire => Test
    case Test => if s.locked then LockSelf else Take
    case LockSelf => DropSpin
    case DropSpin => SetChan
    case SetChan => SetState
    case SetState => Switch
    case Switch => Asleep
    case Asleep => Picked
    case Picked => if s.run[p].Runnable? then Tidy else Asleep
    case Tidy => DropSelf
    case DropSelf => Reacquire
    case Reacquire => Test
    case Take => LeaveAcquire
    case LeaveAcquire => Critical
    case Critical => AcquireToRelease
    case AcquireToRelease => Clear
    case Clear => Wake(0)
    case Wake(v) => if v >= n then LeaveRelease else if v == p then Wake(v + 1) else WakeTest(v)
    case WakeTest(v) => WakeDrop(v)
    case WakeDrop(v) => Wake(v + 1)
    case LeaveRelease => Idle
    case Kill(v) => KillTest(v)
    case KillTest(v) => KillDrop(v)
    case KillDrop(v) => Idle
  }

  ghost function NextRun(s: State, n: nat, p: nat): (run: seq<Run>)
    requires Sized(s, n) && p < n
  {
    match s.pc[p]
    case SetState => s.run[p := Sleeping]
    case Picked => if s.run[p].Runnable? then s.run[p := Running] else s.run
    case WakeTest(v) => if v < n && s.run[v].Sleeping? && s.chan[v] then s.run[v := Runnable] else s.run
    case KillTest(v) => if v < n && s.run[v].Sleeping? then s.run[v := Runnable] else s.run
    case _ => s.run
  }

  ghost function NextChan(s: State, n: nat, p: nat): (chan: seq<bool>)
    requires Sized(s, n) && p < n
  {
    if s.pc[p].SetChan? then s.chan[p := true] else if s.pc[p].Tidy? then s.chan[p := false] else s.chan
  }

  ghost function NextPlock(s: State, n: nat, p: nat): (plock: seq<Option<nat>>)
    requires Sized(s, n) && p < n
  {
    match s.pc[p]
    case LockSelf => s.plock[p := Some(p)]
    case Switch => s.plock[p := None]
    case Asleep => s.plock[p := Some(p)]
    case Picked => if s.run[p].Runnable? then s.plock else s.plock[p := None]
    case DropSelf => s.plock[p := None]
    case Wake(v) => if v < n && v != p then s.plock[v := Some(p)] else s.plock
    case Kill(v) => if v < n then s.plock[v := Some(p)] else s.plock
    case WakeDrop(v) => if v < n then s.plock[v := None] else s.plock
    case KillDrop(v) => if v < n then s.plock[v := None] else s.plock
    case _ => s.plock
  }

  ghost function NextSpin(pc: Pc, spin: Option<nat>, p: nat): (spin': Option<nat>) {
    if pc.Acquire? || pc.Reacquire? || pc.AcquireToRelease? then Some(p)
    else if pc.DropSpin? || pc.LeaveAcquire? || pc.LeaveRelease? then None
    else spin
  }

  ghost function NextOwner(pc: Pc, owner: Option<nat>, p: nat): (owner': Option<nat>) {
    if pc.Take? then Some(p) else if pc.Clear? then None else owner
  }

  ghost function NextLocked(pc: Pc, locked: bool): (locked': bool) {
    if pc.Take? then true else if pc.Clear? then false else locked
  }

  ghost function Next(s: State, n: nat, p: nat, c: Choice): (s': State)
    requires Sized(s, n) && p < n
    ensures Sized(s', n)
  {
    State(s.pc[p := NextPc(s, n, p, c)], NextRun(s, n, p), NextChan(s, n, p), NextPlock(s, n, p),
          NextSpin(s.pc[p], s.spin, p), NextLocked(s.pc[p], s.locked), NextOwner(s.pc[p], s.owner, p))
  }

  /** A run of any number of processes: every state follows from the one before by one step. */
  ghost predicate Steps(s: State, s': State, n: nat) {
    Sized(s, n) && exists p: nat, c: Choice :: Enabled(s, n, p, c) && s' == Next(s, n, p, c)
  }

  ghost predicate Runs(states: seq<State>, n: nat) {
    |states| > 0 && states[0] == Init(n) && forall i :: 0 <= i < |states| - 1 ==> Steps(states[i], states[i + 1], n)
  }

  // ---- the invariant

  /** Holding lk->lk. */
  predicate HasSpin(pc: Pc) {
    (pc.Test? || pc.LockSelf? || pc.DropSpin? || pc.Take? || pc.LeaveAcquire? || pc.Clear? || pc.LeaveRelease?)
      || pc.Wake? || pc.WakeTest? || pc.WakeDrop?
  }

  /** Holding the sleep lock. */
  predicate HasSleepLock(pc: Pc) { (pc.LeaveAcquire? || pc.Critical? || pc.AcquireToRelease? || pc.Clear?) }

  /** Holding its own p->lock, or the scheduler holding it for the switch. */
  predicate HasSelf(pc: Pc) { (pc.DropSpin? || pc.SetChan? || pc.SetState? || pc.Switch? || pc.Picked? || pc.Tidy?
                               || pc.DropSelf?) }

  /** Holding the p->lock of process v. */
  predicate HasOther(pc: Pc) { pc.WakeTest? || pc.WakeDrop? || pc.KillTest? || pc.KillDrop? }

  /** Asleep on the lock, or in transit to sleep on it, and not yet woken. */
  predicate Sleepy(pc: Pc, run: Run) {
    (pc.SetChan? || pc.SetState? || pc.Switch?) || ((pc.Asleep? || pc.Picked?) && run.Sleeping?)
  }

  /** In wakeup, with process v still to come. */
  predicate WillWake(pc: Pc, v: nat) {
    match pc
    case Wake(i) => i <= v
    case WakeTest(i) => i <= v
    case WakeDrop(i) => i < v
    case _ => false
  }

  // Each of the following speaks of one process p.

  /** lk->lk is held by the process whose program counter says so. */
  ghost predicate SpinAt(s: State, n: nat, p: nat)
    requires Sized(s, n) && p < n
  {
    HasSpin(s.pc[p]) <==> s.spin == Some(p)
  }

  /** lk->locked and lk->pid name the process that holds the sleep lock. */
  ghost predicate OwnerAt(s: State, n: nat, p: nat)
    requires Sized(s, n) && p < n
  {
    HasSleepLock(s.pc[p]) <==> s.owner == Some(p)
  }

  /** A process that decided to sleep saw the lock taken, one that decided to take it saw it free. */
  ghost predicate DecidedAt(s: State, n: nat, p: nat)
    requires Sized(s, n) && p < n
  {
    (s.pc[p].LockSelf? || s.pc[p].DropSpin? ==> s.locked) && (s.pc[p].Take? ==> !s.locked)
  }

  /** A p->lock is held by the process whose program counter says so. */
  ghost predicate PlockAt(s: State, n: nat, p: nat)
    requires Sized(s, n) && p < n
  {
    && (HasSelf(s.pc[p]) ==> s.plock[p] == Some(p))
    && (HasOther(s.pc[p]) ==> s.pc[p].v < n && s.plock[s.pc[p].v] == Some(p))
  }

  /** And nobody holds a p->lock without being where that is done. */
  ghost predicate HeldAt(s: State, n: nat, p: nat)
    requires Sized(s, n) && p < n
  {
    s.plock[p].Some? ==>
      var q := s.plock[p].value;
      q < n && ((q == p && HasSelf(s.pc[p])) || (HasOther(s.pc[q]) && s.pc[q].v == p))
  }

  /** Process state and channel along sleep(). */
  ghost predicate StateAt(s: State, n: nat, p: nat)
    requires Sized(s, n) && p < n
  {
    && (s.pc[p].Switch? ==> s.run[p].Sleeping?)
    && (s.pc[p].Asleep? || s.pc[p].Picked? ==> !s.run[p].Running?)
    && (s.pc[p].SetState? || s.pc[p].Switch? || s.pc[p].Asleep? || s.pc[p].Picked? ==> s.chan[p])
    && (!s.pc[p].Switch? && !s.pc[p].Asleep? && !s.pc[p].Picked? ==> s.run[p].Running?)
  }

  ghost predicate Bounded(s: State, n: nat) {
    && (s.spin.Some? ==> s.spin.value < n)
    && (s.owner.Some? ==> s.owner.value < n) && (s.locked <==> s.owner.Some?)
  }

  /** While the lock is free, a sleepy process is still to be visited by the wakeup in progress. */
  ghost predicate KeptAt(s: State, n: nat, p: nat)
    requires Sized(s, n) && p < n && Bounded(s, n)
  {
    !s.locked && Sleepy(s.pc[p], s.run[p]) ==> s.spin.Some? && WillWake(s.pc[s.spin.value], p)
  }

  ghost predicate Here(s: State, n: nat, p: nat)
    requires Sized(s, n) && Bounded(s, n)
  {
    && p < n && SpinAt(s, n, p) && OwnerAt(s, n, p) && DecidedAt(s, n, p) && PlockAt(s, n, p) && HeldAt(s, n, p)
    && StateAt(s, n, p) && KeptAt(s, n, p)
  }

  ghost predicate Inv(s: State, n: nat) {
    Sized(s, n) && Bounded(s, n) && forall p: nat :: p < n ==> Here(s, n, p)
  }

  lemma InitOk(n: nat)
    ensures Inv(Init(n), n)
  {
    var s := Init(n);
    forall p: nat | p < n ensures Here(s, n, p) {
      assert s.pc[p] == Idle && s.run[p] == Running;
    }
  }

  lemma BoundedStep(s: State, n: nat, p: nat, c: Choice)
    requires Sized(s, n) && Bounded(s, n) && p < n
    ensures Bounded(Next(s, n, p, c), n)
  {
    hide NextPc, NextRun, NextChan, NextPlock;
  }

  lemma SpinStep(s: State, n: nat, p: nat, c: Choice, q: nat)
    requires Sized(s, n) && Bounded(s, n) && Here(s, n, p) && Here(s, n, q) && Enabled(s, n, p, c)
    ensures SpinAt(Next(s, n, p, c), n, q)
  {
    hide KeptAt, PlockAt, HeldAt, StateAt, OwnerAt, DecidedAt, Bounded, NextRun, NextChan, NextPlock, NextOwner,
         NextLocked, HasSleepLock;
  }

  lemma OwnerStep(s: State, n: nat, p: nat, c: Choice, q: nat)
    requires Sized(s, n) && Bounded(s, n) && Here(s, n, p) && Here(s, n, q)
    ensures OwnerAt(Next(s, n, p, c), n, q)
  {
    hide KeptAt, PlockAt, HeldAt, StateAt, SpinAt, NextRun, NextChan, NextPlock, NextSpin;
  }

  lemma DecidedStep(s: State, n: nat, p: nat, c: Choice, q: nat)
    requires Sized(s, n) && Bounded(s, n) && Here(s, n, p) && Here(s, n, q)
    ensures DecidedAt(Next(s, n, p, c), n, q)
  {
    hide KeptAt, PlockAt, HeldAt, StateAt, OwnerAt, NextRun, NextChan, NextPlock, NextOwner, NextSpin;
  }

  lemma PlockStep(s: State, n: nat, p: nat, c: Choice, q: nat)
    requires Sized(s, n) && Bounded(s, n) && Here(s, n, p) && Here(s, n, q) && Enabled(s, n, p, c)
    ensures PlockAt(Next(s, n, p, c), n, q)
  {
    hide KeptAt, HeldAt, SpinAt, OwnerAt, DecidedAt, StateAt, Bounded, NextRun, NextChan, NextSpin, NextOwner,
         NextLocked;
  }

  lemma HeldStep(s: State, n: nat, p: nat, c: Choice, q: nat)
    requires Sized(s, n) && p < n && q < n && PlockAt(s, n, p) && HeldAt(s, n, q) && Enabled(s, n, p, c)
    ensures HeldAt(Next(s, n, p, c), n, q)
  {
    hide NextRun, NextChan, NextSpin, NextOwner, NextLocked;
  }

  lemma StateStep(s: State, n: nat, p: nat, c: Choice, q: nat)
    requires Sized(s, n) && Bounded(s, n) && Here(s, n, p) && Here(s, n, q)
    ensures StateAt(Next(s, n, p, c), n, q)
  {
    hide KeptAt, HeldAt, SpinAt, OwnerAt, DecidedAt, Bounded, NextPlock, NextSpin, NextOwner, NextLocked;
  }

  lemma KeptStep(s: State, n: nat, p: nat, c: Choice, q: nat)
    requires Sized(s, n) && Bounded(s, n) && Here(s, n, p) && Here(s, n, q) && Enabled(s, n, p, c)
    requires Bounded(Next(s, n, p, c), n)
    requires s.spin.Some? ==> Here(s, n, s.spin.value)
    ensures KeptAt(Next(s, n, p, c), n, q)
  {
    hide OwnerAt, HeldAt, NextChan, NextPlock, NextOwner;
  }

  lemma SpinInRange(s: State, n: nat)
    requires Bounded(s, n)
    ensures s.spin.Some? ==> s.spin.value < n
  {
  }

  lemma HereStep(s: State, n: nat, p: nat, c: Choice, q: nat)
    requires Sized(s, n) && Bounded(s, n) && Here(s, n, p) && Here(s, n, q) && Enabled(s, n, p, c)
    requires Bounded(Next(s, n, p, c), n)
    requires s.spin.Some? ==> Here(s, n, s.spin.value)
    ensures Here(Next(s, n, p, c), n, q)
  {
    hide Next, Enabled, SpinAt, OwnerAt, DecidedAt, PlockAt, HeldAt, StateAt, KeptAt, Bounded;
    SpinStep(s, n, p, c, q);
    OwnerStep(s, n, p, c, q);
    DecidedStep(s, n, p, c, q);
    PlockStep(s, n, p, c, q);
    HeldStep(s, n, p, c, q);
    StateStep(s, n, p, c, q);
    KeptStep(s, n, p, c, q);
  }

  lemma StepOk(s: State, n: nat, p: nat, c: Choice)
    requires Inv(s, n) && Enabled(s, n, p, c)
    ensures Inv(Next(s, n, p, c), n)
  {
    hide Bounded, Here, Next;
    BoundedStep(s, n, p, c);
    SpinInRange(s, n);
    forall q: nat | q < n ensures Here(Next(s, n, p, c), n, q) {
      HereStep(s, n, p, c, q);
    }
  }

  // ---- every run

  /** The invariant holds in every state of every run. */
  lemma {:induction false} RunOk(states: seq<State>, n: nat, i: nat)
    requires Runs(states, n) && i < |states|
    ensures Inv(states[i], n)
  {
    hide Inv, Next;
    if i == 0 {
      InitOk(n);
    } else {
      RunOk(states, n, i - 1);
      assert Steps(states[i - 1], states[i - 1 + 1], n);
      var p: nat, c: Choice :| Enabled(states[i - 1], n, p, c) && states[i] == Next(states[i - 1], n, p, c);
      StepOk(states[i - 1], n, p, c);
    }
  }

  /** At most one process is between acquiresleep and releasesleep. */
  lemma MutualExclusion(states: seq<State>, n: nat, i: nat, p: nat, q: nat)
    requires Runs(states, n) && i < |states| && p < n && q < n && Sized(states[i], n)
    requires HasSleepLock(states[i].pc[p]) && HasSleepLock(states[i].pc[q])
    ensures p == q && states[i].locked && states[i].owner == Some(p)
  {
    RunOk(states, n, i);
    assert Here(states[i], n, p) && Here(states[i], n, q);
  }

  /** Whenever lk->lk is free and lk->locked is 0, no process is asleep, or in transit to sleep, on the
      lock: every waiting process has been made runnable. */
  lemma NoLostWakeup(states: seq<State>, n: nat, i: nat, p: nat)
    requires Runs(states, n) && i < |states| && p < n
    requires states[i].spin.None? && !states[i].locked
    ensures Sized(states[i], n) && !Sleepy(states[i].pc[p], states[i].run[p])
    ensures states[i].pc[p].Asleep? ==> states[i].run[p].Runnable?
  {
    RunOk(states, n, i);
    assert Here(states[i], n, p);
  }

  /** In acquiresleep, or in the sleep it calls. */
  predicate Waiting(pc: Pc) {
    || (pc.Acquire? || pc.Test? || pc.LockSelf? || pc.DropSpin? || pc.SetChan? || pc.SetState? || pc.Switch?
        || pc.Asleep?)
    || (pc.Picked? || pc.Tidy? || pc.DropSelf? || pc.Reacquire? || pc.Take? || pc.LeaveAcquire?)
  }

  /** How many steps of its own the process is away from holding the lock. */
  function Distance(pc: Pc): (k: nat) {
    match pc
    case Asleep => 8
    case Picked => 7
    case Tidy => 6
    case DropSelf => 5
    case Reacquire => 4
    case Acquire => 4
    case Test => 3
    case Take => 2
    case LeaveAcquire => 1
    case _ => 0
  }

  /** Nothing but its own steps keeps process p from the lock. */
  ghost predicate Ready(s: State, n: nat, p: nat) {
    && Sized(s, n) && p < n
    && (s.pc[p].Critical? || Distance(s.pc[p]) > 0)
    && (Distance(s.pc[p]) >= 4 ==> s.spin.None?) && (Distance(s.pc[p]) >= 3 ==> !s.locked)
    && (Distance(s.pc[p]) >= 7 ==> s.run[p].Runnable?) && (s.pc[p].Asleep? ==> s.plock[p].None?)
  }

  lemma ReadyStep(s: State, n: nat, p: nat)
    requires Ready(s, n, p) && !s.pc[p].Critical?
    ensures Enabled(s, n, p, Go) && Ready(Next(s, n, p, Go), n, p)
    ensures Distance(Next(s, n, p, Go).pc[p]) == Distance(s.pc[p]) - 1
  {
  }

  lemma RunsMore(states: seq<State>, n: nat, p: nat, c: Choice)
    requires Runs(states, n) && Sized(states[|states| - 1], n) && p < n && Enabled(states[|states| - 1], n, p, c)
    ensures Runs(states + [Next(states[|states| - 1], n, p, c)], n)
  {
    hide Next, Enabled;
    var last := states[|states| - 1];
    var more := states + [Next(last, n, p, c)];
    assert Steps(last, Next(last, n, p, c), n);
    forall i | 0 <= i < |more| - 1 ensures Steps(more[i], more[i + 1], n) {
      if i < |states| - 1 { assert Steps(states[i], states[i + 1], n); }
    }
  }

  lemma LastIn(states: seq<State>, n: nat)
    requires Runs(states, n)
    ensures |states| > 0
  {
  }

  lemma PcKept(s: State, n: nat, p: nat)
    requires Sized(s, n) && p < n
    ensures forall q :: 0 <= q < n && q != p ==> Next(s, n, p, Go).pc[q] == s.pc[q]
  {
  }

  /** From there p alone gets the lock. */
  lemma {:induction false} SoloRun(states: seq<State>, n: nat, p: nat) returns (run: seq<State>)
    requires Runs(states, n) && Ready(states[|states| - 1], n, p)
    ensures Runs(run, n) && states <= run && |run| == |states| + Distance(states[|states| - 1].pc[p])
    ensures var s, t := states[|states| - 1], run[|run| - 1];
            Sized(t, n) && t.pc[p].Critical? && forall q :: 0 <= q < n && q != p ==> t.pc[q] == s.pc[q]
    decreases Distance(states[|states| - 1].pc[p])
  {
    hide Runs;
    LastIn(states, n);
    var s := states[|states| - 1];
    if s.pc[p].Critical? {
      run := states;
    } else {
      ReadyStep(s, n, p);
      RunsMore(states, n, p, Go);
      hide Next, Enabled, Ready, Distance;
      assert forall q :: 0 <= q < n && q != p ==> Next(s, n, p, Go).pc[q] == s.pc[q] by { PcKept(s, n, p); }
      run := SoloRun(states + [Next(s, n, p, Go)], n, p);
    }
  }

  /** While lk->lk is free, the p->lock of a sleeper can only be held by a kkill. */
  lemma HeldByKill(s: State, n: nat, p: nat)
    requires Inv(s, n) && p < n && s.spin.None? && s.pc[p].Asleep? && s.plock[p].Some?
    ensures var q := s.plock[p].value; q < n && q != p && (s.pc[q] == KillTest(p) || s.pc[q] == KillDrop(p))
  {
    assert Here(s, n, p);
    assert Here(s, n, s.plock[p].value);
  }

  lemma KillStep(s: State, n: nat, q: nat, p: nat)
    requires Sized(s, n) && q < n && p < n && q != p && (s.pc[q] == KillTest(p) || s.pc[q] == KillDrop(p))
    ensures Enabled(s, n, q, Go)
    ensures var t := Next(s, n, q, Go);
            && t.spin == s.spin && t.locked == s.locked && t.pc[p] == s.pc[p]
            && (forall r :: 0 <= r < n && r != q ==> t.pc[r] == s.pc[r])
            && (s.pc[q] == KillTest(p) ==> t.pc[q] == KillDrop(p)) && (s.pc[q] == KillDrop(p) ==> t.plock[p].None?)
  {
  }

  /** And the kkill lets go of it. */
  lemma KillDone(states: seq<State>, n: nat, p: nat) returns (run: seq<State>)
    requires Runs(states, n) && Inv(states[|states| - 1], n) && p < n && states[|states| - 1].spin.None?
    requires states[|states| - 1].pc[p].Asleep? && states[|states| - 1].plock[p].Some?
    ensures Runs(run, n) && states <= run && |run| <= |states| + 2
    ensures var s, t := states[|states| - 1], run[|run| - 1];
            && Sized(t, n) && t.spin.None? && t.locked == s.locked && t.pc[p].Asleep? && t.plock[p].None?
            && forall r :: 0 <= r < n && s.plock[p] != Some(r) ==> t.pc[r] == s.pc[r]
  {
    var s := states[|states| - 1];
    HeldByKill(s, n, p);
    var q := s.plock[p].value;
    KillStep(s, n, q, p);
    RunsMore(states, n, q, Go);
    hide Next, Enabled, Inv, Runs;
    run := states + [Next(s, n, q, Go)];
    if s.pc[q] == KillTest(p) {
      KillStep(run[|run| - 1], n, q, p);
      RunsMore(run, n, q, Go);
      run := run + [Next(run[|run| - 1], n, q, Go)];
    }
  }

  lemma WaitingReady(s: State, n: nat, p: nat)
    requires Inv(s, n) && p < n && Waiting(s.pc[p]) && s.spin.None? && !s.locked && !Sleepy(s.pc[p], s.run[p])
    requires s.pc[p].Asleep? ==> s.plock[p].None?
    ensures Ready(s, n, p)
  {
    assert Here(s, n, p);
  }

  lemma OwnerIs(s: State, n: nat, p: nat)
    requires Inv(s, n) && p < n && s.pc[p].Critical?
    ensures s.owner == Some(p)
  {
    assert Here(s, n, p);
  }

  /** So a free lock is never out of reach: in every reachable state where lk->lk is free and lk->locked
      is 0, every process in acquiresleep can be the next to hold it. At most ten steps lead there: its
      own, after those of a kkill that has its p->lock at the moment. */
  lemma FreeLockReachable(states: seq<State>, n: nat, p: nat) returns (run: seq<State>)
    requires Runs(states, n) && p < n && Sized(states[|states| - 1], n) && Waiting(states[|states| - 1].pc[p])
    requires states[|states| - 1].spin.None? && !states[|states| - 1].locked
    ensures Runs(run, n) && states <= run && |run| <= |states| + 10
    ensures var s, t := states[|states| - 1], run[|run| - 1];
            && Sized(t, n) && t.pc[p].Critical? && t.owner == Some(p)
            && forall q :: 0 <= q < n && q != p && s.plock[p] != Some(q) ==> t.pc[q] == s.pc[q]
  {
    hide Runs, Next, Enabled, Inv, Ready, Waiting;
    LastIn(states, n);
    RunOk(states, n, |states| - 1);
    var s, freed := states[|states| - 1], states;
    if s.pc[p].Asleep? && s.plock[p].Some? {
      freed := KillDone(states, n, p);
    }
    RunOk(freed, n, |freed| - 1);
    NoLostWakeup(freed, n, |freed| - 1, p);
    WaitingReady(freed[|freed| - 1], n, p);
    run := SoloRun(freed, n, p);
    RunOk(run, n, |run| - 1);
    OwnerIs(run[|run| - 1], n, p);
  }

  /** A process about to sleep holds lk->lk and has seen lk->locked set; it stays set until sleep has
      taken p->lock and dropped lk->lk. */
  lemma SleepsOnlyWhenTaken(states: seq<State>, n: nat, i: nat, p: nat)
    requires Runs(states, n) && i < |states| && p < n && Sized(states[i], n)
    requires states[i].pc[p].LockSelf? || states[i].pc[p].DropSpin?
    ensures states[i].locked && states[i].spin == Some(p) && states[i].owner.Some? && states[i].owner != Some(p)
  {
    RunOk(states, n, i);
    assert Here(states[i], n, p);
  }

  // ---- no deadlock

  /** The p->lock that the next step of process p acquires. */
  ghost function Wants(s: State, n: nat, p: nat): (v: Option<nat>)
    requires Sized(s, n) && p < n
  {
    match s.pc[p]
    case LockSelf => Some(p)
    case Asleep => Some(p)
    case Wake(v) => if v < n && v != p then Some(v) else None
    case Kill(v) => Some(v)
    case _ => None
  }

  predicate WantsSpin(pc: Pc) { pc.Acquire? || pc.Reacquire? || pc.AcquireToRelease? }

  /** kkill has found its victim among the processes. */
  ghost predicate VictimAt(s: State, n: nat, p: nat)
    requires Sized(s, n) && p < n
  {
    s.pc[p].Kill? ==> s.pc[p].v < n
  }

  lemma {:induction false} VictimOk(states: seq<State>, n: nat, i: nat, p: nat)
    requires Runs(states, n) && i < |states| && p < n
    ensures Sized(states[i], n) && VictimAt(states[i], n, p)
  {
    if i == 0 {
      assert states[0].pc[p] == Idle;
    } else {
      VictimOk(states, n, i - 1, p);
      assert Steps(states[i - 1], states[i - 1 + 1], n);
      var q: nat, c: Choice :| Enabled(states[i - 1], n, q, c) && states[i] == Next(states[i - 1], n, q, c);
      hide Runs, NextRun, NextChan, NextPlock, NextSpin, NextOwner, NextLocked;
    }
  }

  /** Process p waits for the p->lock that x holds, and x can take a step. */
  ghost predicate WaitsFor(s: State, n: nat, p: nat, x: nat)
    requires Sized(s, n) && p < n
  {
    Wants(s, n, p).Some? && Wants(s, n, p).value < n && s.plock[Wants(s, n, p).value] == Some(x) && Enabled(s, n, x, Go)
  }

  lemma StepsOrWaits(s: State, n: nat, p: nat)
    requires Inv(s, n) && p < n && VictimAt(s, n, p) && !(WantsSpin(s.pc[p]) && s.spin.Some?)
    ensures Enabled(s, n, p, Go) || exists x: nat :: x < n && WaitsFor(s, n, p, x)
  {
    assert Here(s, n, p);
    var v := Wants(s, n, p);
    if v.Some? && s.plock[v.value].Some? {
      assert Here(s, n, v.value);
      var x := s.plock[v.value].value;
      assert Enabled(s, n, x, Go);
      assert WaitsFor(s, n, p, x);
    }
  }

  lemma SpinHolder(s: State, n: nat)
    requires Inv(s, n) && s.spin.Some?
    ensures s.spin.value < n && !WantsSpin(s.pc[s.spin.value])
  {
    assert Here(s, n, s.spin.value);
  }

  /** Deadlock is impossible: a process that cannot take a step waits for a lock whose holder can, or whose holder
      waits for a p->lock whose holder can. */
  lemma NoDeadlock(states: seq<State>, n: nat, i: nat, p: nat)
    requires Runs(states, n) && i < |states| && p < n
    ensures Sized(states[i], n)
    ensures var s := states[i];
            || Enabled(s, n, p, Go)
            || (exists x: nat :: x < n && WaitsFor(s, n, p, x))
            || (exists y: nat :: y < n && s.spin == Some(y) && WantsSpin(s.pc[p])
                  && (Enabled(s, n, y, Go) || exists x: nat :: x < n && WaitsFor(s, n, y, x)))
  {
    RunOk(states, n, i);
    var s := states[i];
    SpinInRange(s, n);
    hide Inv, Enabled, WaitsFor;
    if WantsSpin(s.pc[p]) && s.spin.Some? {
      SpinHolder(s, n);
      VictimOk(states, n, i, s.spin.value);
      StepsOrWaits(s, n, s.spin.value);
    } else {
      VictimOk(states, n, i, p);
      StepsOrWaits(s, n, p);
    }
  }

  // ---- every call comes to its end

  /** Outside, holding the sleep lock, or asleep until somebody wakes it. */
  predicate AtRest(pc: Pc, run: Run) { pc.Idle? || pc.Critical? || (pc.Asleep? && run.Sleeping?) }

  /** No spin lock is held by another process. */
  ghost predicate Alone(s: State, n: nat, p: nat)
    requires Sized(s, n)
  {
    && (s.spin.None? || s.spin == Some(p))
    && forall v: nat :: v < n ==> s.plock[v].None? || s.plock[v] == Some(p)
  }

  /** How far a call is from its end: the part of the call, */
  function Phase(pc: Pc, run: Run): (k: nat) {
    match pc
    case Idle => 0
    case Critical => 0
    case Asleep => if run.Runnable? then 14 else 0
    case Picked => if run.Runnable? then 13 else 1
    case Tidy => 12
    case DropSelf => 11
    case Reacquire => 10
    case Acquire => 10
    case Test => 9
    case LockSelf => 8
    case DropSpin => 7
    case SetChan => 6
    case SetState => 5
    case Switch => 4
    case Take => 2
    case LeaveAcquire => 1
    case AcquireToRelease => 4
    case Clear => 3
    case Wake(v) => 2
    case WakeTest(v) => 2
    case WakeDrop(v) => 2
    case LeaveRelease => 1
    case Kill(v) => 3
    case KillTest(v) => 2
    case KillDrop(v) => 1
  }

  /** and the processes that wakeup has still to visit, with its place at the present one. */
  function Visits(pc: Pc, n: nat): (k: nat) {
    match pc
    case Wake(v) => if v < n then 3 * (n - v) + 2 else 2
    case WakeTest(v) => if v < n then 3 * (n - v) + 1 else 1
    case WakeDrop(v) => if v < n then 3 * (n - v) else 0
    case _ => 0
  }

  predicate Nearer(pc: Pc, run: Run, pc': Pc, run': Run, n: nat) {
    || Phase(pc', run') < Phase(pc, run)
    || (Phase(pc', run') == Phase(pc, run) && Visits(pc', n) < Visits(pc, n))
  }

  lemma StepNearer(s: State, n: nat, p: nat)
    requires Sized(s, n) && p < n && PlockAt(s, n, p) && StateAt(s, n, p) && !AtRest(s.pc[p], s.run[p])
    ensures var s' := Next(s, n, p, Go); Nearer(s.pc[p], s.run[p], s'.pc[p], s'.run[p], n)
  {
    hide NextChan, NextPlock, NextSpin, NextOwner, NextLocked;
  }

  lemma AloneSteps(s: State, n: nat, p: nat)
    requires Inv(s, n) && p < n && VictimAt(s, n, p) && Alone(s, n, p)
    ensures Enabled(s, n, p, Go) && Alone(Next(s, n, p, Go), n, p)
  {
    assert Here(s, n, p);
    var v := Wants(s, n, p);
    if v.Some? { assert Here(s, n, v.value); }
    hide Inv, NextPc, NextRun, NextChan, NextOwner, NextLocked;
  }

  /** On the way out of releasesleep: the lock is cleared, or will be. */
  ghost predicate Releasing(s: State, n: nat, p: nat)
    requires Sized(s, n) && p < n
  {
    || ((s.pc[p].AcquireToRelease? || s.pc[p].Clear?) && s.locked)
    || ((s.pc[p].Wake? || s.pc[p].WakeTest? || s.pc[p].WakeDrop? || s.pc[p].LeaveRelease? || s.pc[p].Idle?)
        && !s.locked)
  }

  lemma ReleasingStep(s: State, n: nat, p: nat)
    requires Sized(s, n) && p < n && Releasing(s, n, p) && !AtRest(s.pc[p], s.run[p])
    ensures Releasing(Next(s, n, p, Go), n, p)
  {
    hide NextRun, NextChan, NextPlock, NextSpin, NextOwner;
  }

  /** Every call comes to its end: whenever no other process holds a spin lock, the steps of process p alone lead it
      out of acquiresleep with the lock, or to sleep, or out of releasesleep or kkill. */
  lemma {:induction false} CallEnds(states: seq<State>, n: nat, p: nat) returns (run: seq<State>)
    requires Runs(states, n) && p < n && Sized(states[|states| - 1], n) && Alone(states[|states| - 1], n, p)
    ensures Runs(run, n) && states <= run && |run| > 0 && Sized(run[|run| - 1], n)
    ensures var t := run[|run| - 1]; AtRest(t.pc[p], t.run[p]) && Alone(t, n, p)
    ensures Releasing(states[|states| - 1], n, p) ==> Releasing(run[|run| - 1], n, p)
    decreases Phase(states[|states| - 1].pc[p], states[|states| - 1].run[p]), Visits(states[|states| - 1].pc[p], n)
  {
    var s := states[|states| - 1];
    run := states;
    if !AtRest(s.pc[p], s.run[p]) {
      RunOk(states, n, |states| - 1);
      VictimOk(states, n, |states| - 1, p);
      AloneSteps(s, n, p);
      assert Here(s, n, p);
      StepNearer(s, n, p);
      if Releasing(s, n, p) { ReleasingStep(s, n, p); }
      RunsMore(states, n, p, Go);
      hide Inv, Here, Alone, Next, Runs, Releasing, Phase, Visits, AtRest, Enabled;
      run := CallEnds(states + [Next(s, n, p, Go)], n, p);
    }
  }

  lemma IdleSpin(s: State, n: nat, p: nat)
    requires Inv(s, n) && p < n && Alone(s, n, p) && s.pc[p].Idle?
    ensures s.spin.None?
  {
    assert Here(s, n, p);
  }

  /** releasesleep hands the lock on: whenever its holder has called it and no other process holds a spin lock, its own
      steps leave the lock free and nobody asleep on it. */
  lemma ReleaseFrees(states: seq<State>, n: nat, p: nat) returns (run: seq<State>)
    requires Runs(states, n) && p < n && Sized(states[|states| - 1], n) && Alone(states[|states| - 1], n, p)
    requires states[|states| - 1].pc[p].AcquireToRelease?
    ensures Runs(run, n) && states <= run && |run| > 0 && Sized(run[|run| - 1], n)
    ensures var t := run[|run| - 1];
            && t.pc[p].Idle? && t.spin.None? && !t.locked
            && forall q: nat :: q < n ==> !Sleepy(t.pc[q], t.run[q])
  {
    RunOk(states, n, |states| - 1);
    assert Here(states[|states| - 1], n, p);
    run := CallEnds(states, n, p);
    var t := run[|run| - 1];
    RunOk(run, n, |run| - 1);
    assert Here(t, n, p);
    hide Runs, Inv, Alone;
    IdleSpin(t, n, p);
    forall q: nat | q < n ensures !Sleepy(t.pc[q], t.run[q]) { NoLostWakeup(run, n, |run| - 1, q); }
  }
}
