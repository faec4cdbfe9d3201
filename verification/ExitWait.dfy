/**
 * exit, wait, fork and kill (kernel/proc.c) as a step system: n process slots, every atomic step of
 * kfork, kexit, reparent, wakeup, kwait, sleep, kkill and the scheduler is a transition.
 */
module ExitWait {
  import opened Collections

  /** p->state; Running also stands for a process that is preempted and will run again. */
  datatype PState = Unused | Used(maker: nat) | Running | Sleeping | Runnable | Zombie

  /** What wakeup returns to. */
  datatype Cont = ToReparent(status: int, i: nat) | ToExit(status: int)

  /** What kwait returns: the pid of a child, or -1. */
  datatype Ret = Child(pid: nat) | Minus1

  /** Where a process is; the comment names the step it takes next. */
  datatype Pc =
    | User                        // a system call
    | ForkLock(v: nat)            // allocproc: acquire(&proc[v].lock)
    | ForkTest(v: nat)            // the test for UNUSED
    | ForkSkip(v: nat)            // release(&proc[v].lock), no child
    | ForkCopy(v: nat)            // uvmcopy; freeproc when it fails
    | ForkDrop(v: nat)            // release(&np->lock)
    | ForkWait(v: nat)            // acquire(&wait_lock)
    | ForkParent(v: nat)          // np->parent = p
    | ForkLeave(v: nat)           // release(&wait_lock)
    | ForkRelock(v: nat)          // acquire(&np->lock)
    | ForkRun(v: nat)             // np->state = RUNNABLE
    | ForkDone(v: nat)            // release(&np->lock)
    | KillLock(v: nat)            // kkill: acquire(&proc[v].lock)
    | KillTest(v: nat)            // p->killed = 1; a sleeping victim becomes RUNNABLE
    | KillDrop(v: nat)            // release(&proc[v].lock)
    | ExitAcquire(status: int)    // acquire(&wait_lock)
    | Reparent(status: int, i: nat)  // reparent: the test of proc[i]
    | WakeParent(status: int)     // wakeup(p->parent)
    | Wake(ch: nat, j: nat, k: Cont)      // wakeup(ch): acquire(&proc[j].lock)
    | WakeTest(ch: nat, j: nat, k: Cont)  // the test of proc[j], which may make it RUNNABLE
    | WakeDrop(ch: nat, j: nat, k: Cont)  // release(&proc[j].lock)
    | ExitLock(status: int)       // acquire(&p->lock)
    | ExitZombie(status: int)     // p->xstate = status; p->state = ZOMBIE
    | ExitDrop                    // release(&wait_lock)
    | ExitSched                   // sched(), and the scheduler's release(&p->lock)
    | WaitAcquire                 // acquire(&wait_lock)
    | Scan(i: nat, kids: bool)    // kwait: the test of proc[i].parent, acquire(&pp->lock)
    | ScanTest(i: nat)            // the test for ZOMBIE
    | ScanDrop(i: nat)            // release(&pp->lock)
    | Reap(i: nat)                // copyout, freeproc(pp)
    | ReapDrop(i: nat, ret: Ret)  // release(&pp->lock)
    | Decide(kids: bool)          // if (!havekids || killed(p))
    | WaitLeave(ret: Ret)         // release(&wait_lock)
    | SleepLock                   // sleep: acquire(&p->lock)
    | SleepDrop                   // release(&wait_lock)
    | SetChan                     // p->chan = chan
    | SetState                    // p->state = SLEEPING
    | Switch                      // sched(), and the scheduler's release(&p->lock)
    | Asleep                      // the scheduler's acquire(&p->lock)
    | Picked                      // the scheduler's test for RUNNABLE
    | Tidy                        // p->chan = 0
    | DropSelf                    // release(&p->lock)
    | Reacquire                   // acquire(&wait_lock)
    | Vacant                      // no process runs; the scheduler's acquire(&p->lock)
    | VacantPicked                // the scheduler's test for RUNNABLE
    | StartDrop                   // forkret: release(&p->lock)

  /** What a kwait took: by which slot, and the status it returned. */
  datatype Reaped = Reaped(slot: nat, status: int)

  datatype State = State(
    pc: seq<Pc>, st: seq<PState>, chan: seq<Option<nat>>, parent: seq<Option<nat>>,
    xstate: seq<int>, pid: seq<nat>, killed: seq<bool>, plock: seq<Option<nat>>, wlock: Option<nat>,
    nextpid: nat,
    exits: map<nat, int>,         // history: the status each pid exited with
    reaps: map<nat, Reaped>)      // history: what was waited for

  datatype Choice = Go | DoFork(victim: nat) | DoKill(victim: nat) | DoExit(status: int) | DoWait | Fail

  ghost predicate Sized(s: State, n: nat) {
    |s.pc| == |s.st| == |s.chan| == |s.parent| == |s.xstate| == |s.pid| == |s.killed| == |s.plock| == n
  }

  /** Only the first process exists. */
  ghost function Init(n: nat, init: nat): (s: State)
    requires init < n
  {
    State(seq(n, i => if i == init then User else Vacant), seq(n, i => if i == init then Running else Unused),
          seq(n, i => None), seq(n, i => None), seq(n, i => 0), seq(n, i => if i == init then 1 else 0),
          seq(n, i => false), seq(n, i => None), None, 2, map[], map[])
  }

  predicate WantsWait(pc: Pc) {
    pc.ForkWait? || pc.ExitAcquire? || pc.WaitAcquire? || pc.Reacquire?
  }

  /** The p->lock that the next step of process p acquires. */
  ghost function Locks(s: State, n: nat, p: nat): (v: Option<nat>)
    requires Sized(s, n) && p < n
  {
    match s.pc[p]
    case ForkLock(v) => Some(v)
    case ForkRelock(v) => Some(v)
    case KillLock(v) => Some(v)
    case Wake(ch, j, k) => if j < n && j != p then Some(j) else None
    case Scan(i, kids) => if i < n && s.parent[i] == Some(p) then Some(i) else None
    case ExitLock(status) => Some(p)
    case SleepLock => Some(p)
    case Asleep => Some(p)
    case Vacant => Some(p)
    case _ => None
  }

  /** init must not exit (kexit panics), and a step may have to wait for a spin lock. */
  ghost predicate Enabled(s: State, n: nat, init: nat, p: nat, c: Choice)
    requires Sized(s, n)
  {
    && p < n
    && (s.pc[p].User? && (c.DoFork? || c.DoKill?) ==> c.victim < n)
    && (s.pc[p].User? && c.DoExit? ==> p != init)
    && (WantsWait(s.pc[p]) ==> s.wlock.None?)
    && (Locks(s, n, p).Some? ==> Locks(s, n, p).value < n && s.plock[Locks(s, n, p).value].None?)
  }

  /** The p->lock that the next step of process p, or the scheduler after it, releases. */
  ghost function Unlocks(pc: Pc, st: PState, p: nat): (v: Option<nat>) {
    match pc
    case ForkSkip(v) => Some(v)
    case ForkDrop(v) => Some(v)
    case ForkDone(v) => Some(v)
    case KillDrop(v) => Some(v)
    case WakeDrop(ch, j, k) => Some(j)
    case ScanDrop(i) => Some(i)
    case ReapDrop(i, ret) => Some(i)
    case ExitSched => Some(p)
    case Switch => Some(p)
    case DropSelf => Some(p)
    case StartDrop => Some(p)
    case Picked => if st.Runnable? then None else Some(p)
    case VacantPicked => if st.Runnable? then None else Some(p)
    case _ => None
  }

  function Resume(k: Cont): (pc: Pc) {
    match k
    case ToReparent(status, i) => Reparent(status, i)
    case ToExit(status) => ExitLock(status)
  }

  // What one step of process p does, variable by variable.

  ghost function NextPc(s: State, n: nat, init: nat, p: nat, c: Choice): (pc: Pc)
    requires Sized(s, n) && p < n
  {
    match s.pc[p]
    case User =>
      (match c
       case Go => User
       case DoFork(v) => ForkLock(v)
       case DoKill(v) => KillLock(v)
       case DoExit(status) => ExitAcquire(status)
       case DoWait => WaitAcquire
       case Fail => User)
    case ForkLock(v) => ForkTest(v)
    case ForkTest(v) => if v < n && s.st[v].Unused? then ForkCopy(v) else ForkSkip(v)
    case ForkSkip(v) => User
    case ForkCopy(v) => if c.Fail? then ForkSkip(v) else ForkDrop(v)
    case ForkDrop(v) => ForkWait(v)
    case ForkWait(v) => ForkParent(v)
    case ForkParent(v) => ForkLeave(v)
    case ForkLeave(v) => ForkRelock(v)
    case ForkRelock(v) => ForkRun(v)
    case ForkRun(v) => ForkDone(v)
    case ForkDone(v) => User
    case KillLock(v) => KillTest(v)
    case KillTest(v) => KillDrop(v)
    case KillDrop(v) => User
    case ExitAcquire(status) => Reparent(status, 0)
    case Reparent(status, i) =>
      if i >= n then WakeParent(status)
      else if s.parent[i] == Some(p) then Wake(init, 0, ToReparent(status, i + 1))
      else Reparent(status, i + 1)
    case WakeParent(status) =>
      if s.parent[p].Some? then Wake(s.parent[p].value, 0, ToExit(status)) else ExitLock(status)
    case Wake(ch, j, k) => if j >= n then Resume(k) else if j == p then Wake(ch, j + 1, k) else WakeTest(ch, j, k)
    case WakeTest(ch, j, k) => WakeDrop(ch, j, k)
    case WakeDrop(ch, j, k) => Wake(ch, j + 1, k)
    case ExitLock(status) => ExitZombie(status)
    case ExitZombie(status) => ExitDrop
    case ExitDrop => ExitSched
    case ExitSched => Vacant
    case WaitAcquire => Scan(0, false)
    case Scan(i, kids) =>
      if i >= n then Decide(kids) else if s.parent[i] == Some(p) then ScanTest(i) else Scan(i + 1, kids)
    case ScanTest(i) => if i < n && s.st[i].Zombie? then Reap(i) else ScanDrop(i)
    case ScanDrop(i) => Scan(i + 1, true)
    case Reap(i) => ReapDrop(i, if i < n && !c.Fail? then Child(s.pid[i]) else Minus1)
    case ReapDrop(i, ret) => WaitLeave(ret)
    case Decide(kids) => if !kids || s.killed[p] then WaitLeave(Minus1) else SleepLock
    case WaitLeave(ret) => User
    case SleepLock => SleepDrop
    case SleepDrop => SetChan
    case SetChan => SetState
    case SetState => Switch
    case Switch => Asleep
    case Asleep => Picked
    case Picked => if s.st[p].Runnable? then Tidy else Asleep
    case Tidy => DropSelf
    case DropSelf => Reacquire
    case Reacquire => Scan(0, false)
    case Vacant => VacantPicked
    case VacantPicked => if s.st[p].Runnable? then StartDrop else Vacant
    case StartDrop => User
  }

  ghost function NextSt(s: State, n: nat, p: nat, c: Choice): (st: seq<PState>)
    requires Sized(s, n) && p < n
  {
    match s.pc[p]
    case ForkTest(v) => if v < n && s.st[v].Unused? then s.st[v := Used(p)] else s.st
    case ForkCopy(v) => if v < n && c.Fail? then s.st[v := Unused] else s.st
    case ForkRun(v) => if v < n then s.st[v := Runnable] else s.st
    case KillTest(v) => if v < n && s.st[v].Sleeping? then s.st[v := Runnable] else s.st
    case WakeTest(ch, j, k) => if j < n && s.st[j].Sleeping? && s.chan[j] == Some(ch) then s.st[j := Runnable] else s.st
    case ExitZombie(status) => s.st[p := Zombie]
    case Reap(i) => if i < n && !c.Fail? then s.st[i := Unused] else s.st
    case SetState => s.st[p := Sleeping]
    case Picked => if s.st[p].Runnable? then s.st[p := Running] else s.st
    case VacantPicked => if s.st[p].Runnable? then s.st[p := Running] else s.st
    case _ => s.st
  }

  ghost function NextChan(s: State, n: nat, p: nat): (chan: seq<Option<nat>>)
    requires Sized(s, n) && p < n
  {
    if s.pc[p].SetChan? then s.chan[p := Some(p)] else if s.pc[p].Tidy? then s.chan[p := None] else s.chan
  }

  ghost function NextParent(s: State, n: nat, init: nat, p: nat, c: Choice): (parent: seq<Option<nat>>)
    requires Sized(s, n) && p < n
  {
    match s.pc[p]
    case ForkParent(v) => if v < n then s.parent[v := Some(p)] else s.parent
    case Reparent(status, i) => if i < n && s.parent[i] == Some(p) then s.parent[i := Some(init)] else s.parent
    case Reap(i) => if i < n && !c.Fail? then s.parent[i := None] else s.parent
    case _ => s.parent
  }

  ghost function NextXstate(s: State, n: nat, p: nat): (xstate: seq<int>)
    requires Sized(s, n) && p < n
  {
    if s.pc[p].ExitZombie? then s.xstate[p := s.pc[p].status] else s.xstate
  }

  /** kkill sets the flag, freeproc clears it. */
  ghost function NextKilled(s: State, n: nat, p: nat, c: Choice): (killed: seq<bool>)
    requires Sized(s, n) && p < n
  {
    match s.pc[p]
    case KillTest(v) => if v < n then s.killed[v := true] else s.killed
    case ForkCopy(v) => if v < n && c.Fail? then s.killed[v := false] else s.killed
    case Reap(i) => if i < n && !c.Fail? then s.killed[i := false] else s.killed
    case _ => s.killed
  }

  /** allocpid at the claim of a slot. */
  ghost function NextPids(s: State, n: nat, p: nat): (r: (seq<nat>, nat))
    requires Sized(s, n) && p < n
    ensures |r.0| == n
  {
    if s.pc[p].ForkTest? && s.pc[p].v < n && s.st[s.pc[p].v].Unused?
    then (s.pid[s.pc[p].v := s.nextpid], s.nextpid + 1) else (s.pid, s.nextpid)
  }

  ghost function NextPlock(s: State, n: nat, p: nat): (plock: seq<Option<nat>>)
    requires Sized(s, n) && p < n
  {
    var l, u := Locks(s, n, p), Unlocks(s.pc[p], s.st[p], p);
    if l.Some? && l.value < n then s.plock[l.value := Some(p)]
    else if u.Some? && u.value < n then s.plock[u.value := None]
    else s.plock
  }

  ghost function NextWlock(pc: Pc, wlock: Option<nat>, p: nat): (wlock': Option<nat>) {
    if WantsWait(pc) then Some(p)
    else if pc.ForkLeave? || pc.ExitDrop? || pc.WaitLeave? || pc.SleepDrop? then None
    else wlock
  }

  ghost function NextExits(s: State, n: nat, p: nat): (exits: map<nat, int>)
    requires Sized(s, n) && p < n
  {
    if s.pc[p].ExitZombie? then s.exits[s.pid[p] := s.pc[p].status] else s.exits
  }

  ghost function NextReaps(s: State, n: nat, p: nat, c: Choice): (reaps: map<nat, Reaped>)
    requires Sized(s, n) && p < n
  {
    if s.pc[p].Reap? && s.pc[p].i < n && !c.Fail?
    then s.reaps[s.pid[s.pc[p].i] := Reaped(p, s.xstate[s.pc[p].i])]
    else s.reaps
  }

  ghost function Next(s: State, n: nat, init: nat, p: nat, c: Choice): (s': State)
    requires Sized(s, n) && p < n
    ensures Sized(s', n)
  {
    State(s.pc[p := NextPc(s, n, init, p, c)], NextSt(s, n, p, c), NextChan(s, n, p), NextParent(s, n, init, p, c),
          NextXstate(s, n, p), NextPids(s, n, p).0, NextKilled(s, n, p, c), NextPlock(s, n, p),
          NextWlock(s.pc[p], s.wlock, p),
          NextPids(s, n, p).1, NextExits(s, n, p), NextReaps(s, n, p, c))
  }

  ghost predicate Steps(s: State, s': State, n: nat, init: nat) {
    Sized(s, n) && exists p: nat, c: Choice :: Enabled(s, n, init, p, c) && s' == Next(s, n, init, p, c)
  }

  ghost predicate Runs(states: seq<State>, n: nat, init: nat) {
    && init < n && |states| > 0 && states[0] == Init(n, init)
    && forall i :: 0 <= i < |states| - 1 ==> Steps(states[i], states[i + 1], n, init)
  }

  // ---- the invariant

  /** Holding wait_lock. */
  predicate HasWait(pc: Pc) {
    || pc.ForkParent? || pc.ForkLeave? || pc.Reparent? || pc.WakeParent? || pc.Wake? || pc.WakeTest? || pc.WakeDrop?
    || pc.ExitLock? || pc.ExitZombie? || pc.ExitDrop? || pc.Scan? || pc.ScanTest? || pc.ScanDrop? || pc.Reap?
       || pc.ReapDrop?
    || pc.Decide? || pc.WaitLeave? || pc.SleepLock? || pc.SleepDrop?
  }

  /** The p->lock it holds; its own also while the scheduler holds it for the switch. */
  function Held(pc: Pc, p: nat): (v: Option<nat>) {
    match pc
    case ForkTest(v) => Some(v)
    case ForkSkip(v) => Some(v)
    case ForkCopy(v) => Some(v)
    case ForkDrop(v) => Some(v)
    case ForkRun(v) => Some(v)
    case ForkDone(v) => Some(v)
    case KillTest(v) => Some(v)
    case KillDrop(v) => Some(v)
    case WakeTest(ch, j, k) => Some(j)
    case WakeDrop(ch, j, k) => Some(j)
    case ScanTest(i) => Some(i)
    case ScanDrop(i) => Some(i)
    case Reap(i) => Some(i)
    case ReapDrop(i, ret) => Some(i)
    case ExitZombie(status) => Some(p)
    case ExitDrop => Some(p)
    case ExitSched => Some(p)
    case SleepDrop => Some(p)
    case SetChan => Some(p)
    case SetState => Some(p)
    case Switch => Some(p)
    case Picked => Some(p)
    case Tidy => Some(p)
    case DropSelf => Some(p)
    case VacantPicked => Some(p)
    case StartDrop => Some(p)
    case _ => None
  }

  /** The slot a fork has claimed and not yet made runnable. */
  function Claim(pc: Pc): (v: Option<nat>) {
    match pc
    case ForkCopy(v) => Some(v)
    case ForkDrop(v) => Some(v)
    case ForkWait(v) => Some(v)
    case ForkParent(v) => Some(v)
    case ForkLeave(v) => Some(v)
    case ForkRelock(v) => Some(v)
    case ForkRun(v) => Some(v)
    case _ => None
  }

  /** Asleep in kwait, or in transit to sleep, and not yet woken. */
  predicate Sleepy(pc: Pc, st: PState) {
    pc.SetChan? || pc.SetState? || pc.Switch? || ((pc.Asleep? || pc.Picked?) && st.Sleeping?)
  }

  /** In wakeup on channel v, with process v still to come. */
  predicate WillWake(pc: Pc, v: nat) {
    match pc
    case Wake(ch, j, k) => ch == v && j <= v
    case WakeTest(ch, j, k) => ch == v && j <= v
    case WakeDrop(ch, j, k) => ch == v && j < v
    case _ => false
  }

  /** Past the point where kexit has called wakeup(p->parent). */
  predicate ToldParent(pc: Pc) {
    || pc.ExitLock? || pc.ExitZombie?
    || ((pc.Wake? || pc.WakeTest? || pc.WakeDrop?) && pc.k.ToExit?)
  }

  /** kwait has seen that its child c is not a zombie. */
  predicate Scanned(pc: Pc, c: nat) {
    match pc
    case Scan(i, kids) => c < i
    case ScanTest(i) => c < i
    case ScanDrop(i) => c <= i
    case Decide(kids) => true
    case SleepLock => true
    case SleepDrop => true
    case _ => false
  }

  /** A slot where no process runs. */
  predicate NoProcess(pc: Pc) { pc.Vacant? || pc.VacantPicked? }

  // Each of the following speaks of one process p, or of a process p and another process c.

  /** wait_lock is held by the process whose program counter says so. */
  ghost predicate WaitAt(s: State, n: nat, p: nat)
    requires Sized(s, n) && p < n
  {
    HasWait(s.pc[p]) <==> s.wlock == Some(p)
  }

  /** A p->lock is held by the process whose program counter says so. */
  ghost predicate PlockAt(s: State, n: nat, p: nat)
    requires Sized(s, n) && p < n
  {
    Held(s.pc[p], p).Some? ==> Held(s.pc[p], p).value < n && s.plock[Held(s.pc[p], p).value] == Some(p)
  }

  /** A slot claimed by a fork is its own. */
  ghost predicate ClaimAt(s: State, n: nat, p: nat)
    requires Sized(s, n) && p < n
  {
    Claim(s.pc[p]).Some? ==> Claim(s.pc[p]).value < n && s.st[Claim(s.pc[p]).value] == Used(p)
  }

  /** Process state and channel agree with the program counter. */
  ghost predicate StateAt(s: State, n: nat, p: nat)
    requires Sized(s, n) && p < n
  {
    && (NoProcess(s.pc[p]) ==> s.st[p].Unused? || s.st[p].Used? || s.st[p].Runnable? || s.st[p].Zombie?)
    && (s.pc[p].ExitDrop? || s.pc[p].ExitSched? ==> s.st[p].Zombie?)
    && (s.pc[p].Switch? ==> s.st[p].Sleeping?)
    && (s.pc[p].Asleep? || s.pc[p].Picked? ==> s.st[p].Sleeping? || s.st[p].Runnable?)
    && (NoProcess(s.pc[p]) || s.pc[p].ExitDrop? || s.pc[p].ExitSched? || s.pc[p].Switch? || s.pc[p].Asleep?
        || s.pc[p].Picked?
        || s.st[p].Running?)
    && (s.pc[p].SetState? || s.pc[p].Switch? || s.pc[p].Asleep? || s.pc[p].Picked? ==> s.chan[p] == Some(p))
  }

  /** kexit wakes its own parent, which is another process. */
  ghost predicate ParentAt(s: State, n: nat, p: nat)
    requires Sized(s, n) && p < n
  {
    && s.parent[p] != Some(p) && (s.parent[p].Some? ==> s.parent[p].value < n)
    && ((s.pc[p].Wake? || s.pc[p].WakeTest? || s.pc[p].WakeDrop?) && s.pc[p].k.ToExit? ==>
        s.parent[p] == Some(s.pc[p].ch))
  }

  /** kwait looks at its own children, and reaps a zombie. */
  ghost predicate ReapAt(s: State, n: nat, p: nat)
    requires Sized(s, n) && p < n
  {
    && (s.pc[p].ScanTest? || s.pc[p].ScanDrop? || s.pc[p].Reap? ==> s.pc[p].i < n && s.parent[s.pc[p].i] == Some(p))
    && (s.pc[p].Reap? ==> s.st[s.pc[p].i].Zombie?)
  }

  /** The pid of a live process has not exited; that of a zombie has, with its status, and is not reaped. */
  ghost predicate HistAt(s: State, n: nat, p: nat)
    requires Sized(s, n) && p < n
  {
    s.st[p].Unused? || (
      && s.pid[p] < s.nextpid && s.pid[p] !in s.reaps
      && if s.st[p].Zombie? then s.pid[p] in s.exits && s.exits[s.pid[p]] == s.xstate[p] else s.pid[p] !in s.exits)
  }

  /** Pids are handed out once, and what was reaped had exited with the status that was returned. */
  ghost predicate Hist(exits: map<nat, int>, reaps: map<nat, Reaped>, nextpid: nat) {
    && (forall k :: k in exits ==> k < nextpid)
    && (forall k :: k in reaps ==> k in exits && reaps[k].status == exits[k])
  }

  /** init never exits and nobody is its parent. */
  ghost predicate InitAt(s: State, n: nat, init: nat)
    requires Sized(s, n)
  {
    && init < n && s.parent[init].None? && !NoProcess(s.pc[init])
    && !s.pc[init].ExitAcquire? && !s.pc[init].Reparent? && !s.pc[init].WakeParent? && !s.pc[init].Wake?
       && !s.pc[init].WakeTest?
    && !s.pc[init].WakeDrop? && !s.pc[init].ExitLock? && !s.pc[init].ExitZombie? && !s.pc[init].ExitDrop?
       && !s.pc[init].ExitSched?
  }

  ghost predicate IsZombieOf(s: State, n: nat, p: nat, c: nat)
    requires Sized(s, n) && c < n
  {
    s.parent[c] == Some(p) && s.st[c].Zombie?
  }

  /** Two processes have two pids. */
  ghost predicate PidPair(s: State, n: nat, p: nat, c: nat)
    requires Sized(s, n) && p < n && c < n
  {
    p != c && !s.st[p].Unused? && !s.st[c].Unused? ==> s.pid[p] != s.pid[c]
  }

  /** A child that kwait has looked at is not a zombie. */
  ghost predicate ScanPair(s: State, n: nat, p: nat, c: nat)
    requires Sized(s, n) && p < n && c < n
  {
    IsZombieOf(s, n, p, c) ==> !Scanned(s.pc[p], c)
  }

  /** When c is past wakeup(p->parent), its parent does not sleep. */
  ghost predicate ToldPair(s: State, n: nat, p: nat, c: nat)
    requires Sized(s, n) && p < n && c < n
  {
    s.parent[c] == Some(p) && ToldParent(s.pc[c]) && Sleepy(s.pc[p], s.st[p]) ==> WillWake(s.pc[c], p)
  }

  ghost predicate InRange(s: State, n: nat) { s.wlock.Some? ==> s.wlock.value < n }

  /** A sleeping parent of a zombie is about to be woken by the holder of wait_lock. */
  ghost predicate KeptPair(s: State, n: nat, p: nat, c: nat)
    requires Sized(s, n) && p < n && c < n && InRange(s, n)
  {
    IsZombieOf(s, n, p, c) && Sleepy(s.pc[p], s.st[p]) ==> s.wlock.Some? && WillWake(s.pc[s.wlock.value], p)
  }

  ghost predicate Here(s: State, n: nat, p: nat)
    requires Sized(s, n)
  {
    && p < n && WaitAt(s, n, p) && PlockAt(s, n, p) && ClaimAt(s, n, p) && StateAt(s, n, p) && ParentAt(s, n, p)
       && ReapAt(s, n, p)
    && HistAt(s, n, p)
  }

  ghost predicate Pair(s: State, n: nat, p: nat, c: nat)
    requires Sized(s, n) && InRange(s, n)
  {
    && p < n && c < n && PidPair(s, n, p, c) && ScanPair(s, n, p, c) && ToldPair(s, n, p, c) && KeptPair(s, n, p, c)
  }

  ghost predicate Inv(s: State, n: nat, init: nat) {
    && Sized(s, n) && InRange(s, n) && InitAt(s, n, init) && Hist(s.exits, s.reaps, s.nextpid)
    && (forall p: nat :: p < n ==> Here(s, n, p))
    && (forall p: nat, c: nat :: p < n && c < n ==> Pair(s, n, p, c))
  }

  lemma InitOk(n: nat, init: nat)
    requires init < n
    ensures Inv(Init(n, init), n, init)
  {
    var s := Init(n, init);
    forall p: nat | p < n ensures Here(s, n, p) {
      assert s.pc[p] == if p == init then User else Vacant;
    }
    forall p: nat, c: nat | p < n && c < n ensures Pair(s, n, p, c) {
      assert s.pc[p] == (if p == init then User else Vacant) && s.pc[c] == (if c == init then User else Vacant);
      assert s.st[p] == (if p == init then Running else Unused) && s.st[c] == (if c == init then Running else Unused);
    }
  }

  lemma WaitStep(s: State, n: nat, init: nat, x: nat, ch: Choice, p: nat)
    requires Sized(s, n) && InRange(s, n) && Here(s, n, x) && Here(s, n, p)
    requires Enabled(s, n, init, x, ch)
    ensures WaitAt(Next(s, n, init, x, ch), n, p)
  {
    hide PlockAt, ClaimAt, StateAt, ParentAt, ReapAt, HistAt, PidPair, ScanPair, ToldPair, KeptPair, NextSt,
         NextChan, NextParent, NextXstate, NextPids, NextPlock, NextExits, NextReaps, Held, Claim, Sleepy, WillWake,
         ToldParent, Scanned, NoProcess, Locks, Unlocks, InitAt, Hist, InRange, IsZombieOf;
  }

  /** A step acquires one p->lock while holding none, or releases the one it holds, or keeps it. */
  lemma LockMove(s: State, n: nat, init: nat, x: nat, ch: Choice)
    requires Sized(s, n) && InRange(s, n) && Here(s, n, x)
    requires Enabled(s, n, init, x, ch)
    ensures var h, h' := Held(s.pc[x], x), Held(NextPc(s, n, init, x, ch), x);
            var l, u := Locks(s, n, x), Unlocks(s.pc[x], s.st[x], x);
            if l.Some? then h.None? && h' == l && u.None? else if u.Some? then h == u && h'.None? else h' == h
  {
    hide WaitAt, PlockAt, ClaimAt, StateAt, ParentAt, ReapAt, HistAt, PidPair, ScanPair, ToldPair, KeptPair, NextSt,
         NextChan, NextParent, NextXstate, NextPids, NextPlock, NextWlock, NextExits, NextReaps, HasWait, Claim,
         Sleepy, WillWake, ToldParent, Scanned, NoProcess, WantsWait, Enabled, InitAt, Hist, InRange, IsZombieOf;
  }

  lemma PlockStep(s: State, n: nat, init: nat, x: nat, ch: Choice, p: nat)
    requires Sized(s, n) && InRange(s, n) && Here(s, n, x) && Here(s, n, p)
    requires Enabled(s, n, init, x, ch)
    ensures PlockAt(Next(s, n, init, x, ch), n, p)
  {
    hide WaitAt, ClaimAt, StateAt, ParentAt, ReapAt, HistAt, PidPair, ScanPair, ToldPair, KeptPair, NextPc, NextSt,
         NextChan, NextParent, NextXstate, NextPids, NextWlock, NextExits, NextReaps, HasWait, Held, Claim, Sleepy,
         WillWake, ToldParent, Scanned, NoProcess, WantsWait, Locks, Unlocks, Resume, InitAt, Hist, InRange,
         IsZombieOf;
    LockMove(s, n, init, x, ch);
  }

  lemma ClaimStep(s: State, n: nat, init: nat, x: nat, ch: Choice, p: nat)
    requires Sized(s, n) && InRange(s, n) && Here(s, n, x) && Here(s, n, p)
    requires Enabled(s, n, init, x, ch)
    ensures ClaimAt(Next(s, n, init, x, ch), n, p)
  {
    hide WaitAt, PlockAt, ParentAt, HistAt, PidPair, ScanPair, ToldPair, KeptPair, NextChan, NextParent, NextXstate,
         NextPids, NextPlock, NextWlock, NextExits, NextReaps, HasWait, Held, Sleepy, WillWake, ToldParent, Scanned,
         WantsWait, Locks, Unlocks, Enabled, InitAt, Hist, InRange, IsZombieOf;
  }

  /** What a step does to the state of the process that takes it. */
  lemma OwnState(s: State, n: nat, init: nat, x: nat, ch: Choice)
    requires Sized(s, n) && InRange(s, n) && Here(s, n, x)
    requires Enabled(s, n, init, x, ch)
    ensures NextSt(s, n, x, ch)[x] ==
              if s.pc[x].ExitZombie? then Zombie else if s.pc[x].SetState? then Sleeping
              else if (s.pc[x].Picked? || s.pc[x].VacantPicked?) && s.st[x].Runnable? then Running else s.st[x]
  {
    hide WaitAt, PlockAt, HistAt, PidPair, ScanPair, ToldPair, KeptPair, NextPc, NextChan, NextParent, NextXstate,
         NextPids, NextPlock, NextWlock, NextExits, NextReaps, HasWait, Held, Sleepy, WillWake, ToldParent, Scanned,
         WantsWait, Locks, Unlocks, Resume, Enabled, InitAt, Hist, InRange, IsZombieOf;
  }

  lemma StateSelf(s: State, n: nat, init: nat, x: nat, ch: Choice, p: nat)
    requires Sized(s, n) && InRange(s, n) && Here(s, n, x) && Here(s, n, p)
    requires Enabled(s, n, init, x, ch)
    requires p == x
    ensures StateAt(Next(s, n, init, x, ch), n, p)
  {
    hide WaitAt, PlockAt, ClaimAt, ParentAt, ReapAt, HistAt, PidPair, ScanPair, ToldPair, KeptPair, NextSt,
         NextParent, NextXstate, NextPids, NextPlock, NextWlock, NextExits, NextReaps, HasWait, Held, Claim, Sleepy,
         WillWake, ToldParent, Scanned, WantsWait, Locks, Unlocks, Enabled, InitAt, Hist, InRange, IsZombieOf;
    OwnState(s, n, init, x, ch);
  }

  lemma StateOther(s: State, n: nat, init: nat, x: nat, ch: Choice, p: nat)
    requires Sized(s, n) && InRange(s, n) && Here(s, n, x) && Here(s, n, p)
    requires Enabled(s, n, init, x, ch)
    requires p != x
    ensures StateAt(Next(s, n, init, x, ch), n, p)
  {
    hide WaitAt, ParentAt, HistAt, PidPair, ScanPair, ToldPair, KeptPair, NextPc, NextParent, NextXstate, NextPids,
         NextPlock, NextWlock, NextExits, NextReaps, HasWait, Sleepy, WillWake, ToldParent, Scanned, WantsWait,
         Locks, Unlocks, Resume, Enabled, InitAt, Hist, InRange, IsZombieOf;
  }

  lemma ParentStep(s: State, n: nat, init: nat, x: nat, ch: Choice, p: nat)
    requires Sized(s, n) && InRange(s, n) && Here(s, n, x) && Here(s, n, p)
    requires Enabled(s, n, init, x, ch)
    requires InitAt(s, n, init)
    ensures ParentAt(Next(s, n, init, x, ch), n, p)
  {
    hide PlockAt, ReapAt, HistAt, PidPair, ScanPair, ToldPair, KeptPair, NextSt, NextChan, NextXstate, NextPids,
         NextPlock, NextWlock, NextExits, NextReaps, Held, Sleepy, WillWake, ToldParent, Scanned, WantsWait, Locks,
         Unlocks, Enabled, Hist, InRange, IsZombieOf;
  }

  lemma ReapSelf(s: State, n: nat, init: nat, x: nat, ch: Choice, p: nat)
    requires Sized(s, n) && InRange(s, n) && Here(s, n, x) && Here(s, n, p)
    requires Enabled(s, n, init, x, ch)
    requires p == x
    ensures ReapAt(Next(s, n, init, x, ch), n, p)
  {
    hide PlockAt, ClaimAt, StateAt, ParentAt, HistAt, PidPair, ScanPair, ToldPair, KeptPair, NextChan, NextXstate,
         NextPids, NextPlock, NextWlock, NextExits, NextReaps, Held, Claim, Sleepy, WillWake, ToldParent, Scanned,
         NoProcess, WantsWait, Locks, Unlocks, Enabled, InitAt, Hist, InRange, IsZombieOf;
  }

  lemma ReapOther(s: State, n: nat, init: nat, x: nat, ch: Choice, p: nat)
    requires Sized(s, n) && InRange(s, n) && Here(s, n, x) && Here(s, n, p)
    requires Enabled(s, n, init, x, ch)
    requires p != x
    ensures ReapAt(Next(s, n, init, x, ch), n, p)
  {
    hide PlockAt, ParentAt, HistAt, PidPair, ScanPair, ToldPair, KeptPair, NextPc, NextChan, NextXstate, NextPids,
         NextPlock, NextWlock, NextExits, NextReaps, Held, Sleepy, WillWake, ToldParent, Scanned, WantsWait, Locks,
         Unlocks, Resume, Enabled, InitAt, Hist, InRange, IsZombieOf;
  }

  lemma HistStep(s: State, n: nat, init: nat, x: nat, ch: Choice, p: nat)
    requires Sized(s, n) && InRange(s, n) && Here(s, n, x) && Here(s, n, p)
    requires Enabled(s, n, init, x, ch)
    requires Hist(s.exits, s.reaps, s.nextpid)
    requires Pair(s, n, p, x)
    requires s.pc[x].Reap? ==> s.pc[x].i < n && Here(s, n, s.pc[x].i) && Pair(s, n, p, s.pc[x].i)
    ensures HistAt(Next(s, n, init, x, ch), n, p)
  {
    hide WaitAt, PlockAt, ParentAt, ScanPair, ToldPair, KeptPair, NextPc, NextChan, NextParent, NextPlock, NextWlock,
         HasWait, Held, Sleepy, WillWake, ToldParent, Scanned, WantsWait, Locks, Unlocks, Resume, Enabled, InitAt,
         InRange, IsZombieOf;
  }

  lemma HistGlobal(s: State, n: nat, init: nat, x: nat, ch: Choice)
    requires Sized(s, n) && InRange(s, n) && Here(s, n, x)
    requires Enabled(s, n, init, x, ch)
    requires Hist(s.exits, s.reaps, s.nextpid)
    requires s.pc[x].Reap? ==> s.pc[x].i < n && Here(s, n, s.pc[x].i)
    ensures Hist(NextExits(s, n, x), NextReaps(s, n, x, ch), NextPids(s, n, x).1)
  {
    hide WaitAt, PlockAt, ClaimAt, ParentAt, PidPair, ScanPair, ToldPair, KeptPair, NextPc, NextSt, NextChan,
         NextParent, NextXstate, NextPlock, NextWlock, HasWait, Held, Claim, Sleepy, WillWake, ToldParent, Scanned,
         WantsWait, Locks, Unlocks, Resume, Enabled, InitAt, InRange, IsZombieOf;
  }

  lemma InitStep(s: State, n: nat, init: nat, x: nat, ch: Choice)
    requires Sized(s, n) && InRange(s, n) && Here(s, n, x)
    requires Enabled(s, n, init, x, ch)
    requires InitAt(s, n, init) && Here(s, n, init)
    ensures InitAt(Next(s, n, init, x, ch), n, init)
  {
    hide WaitAt, PlockAt, HistAt, PidPair, ScanPair, ToldPair, KeptPair, NextSt, NextChan, NextXstate, NextPids,
         NextPlock, NextWlock, NextExits, NextReaps, HasWait, Held, Sleepy, WillWake, ToldParent, Scanned, WantsWait,
         Locks, Unlocks, Hist, InRange, IsZombieOf;
  }

  lemma PidStep(s: State, n: nat, init: nat, x: nat, ch: Choice, p: nat, c: nat)
    requires Sized(s, n) && InRange(s, n) && Here(s, n, x) && Here(s, n, p) && Here(s, n, c) && Pair(s, n, p, c)
    requires Enabled(s, n, init, x, ch)
    ensures PidPair(Next(s, n, init, x, ch), n, p, c)
  {
    hide WaitAt, PlockAt, ParentAt, ScanPair, ToldPair, KeptPair, NextPc, NextChan, NextParent, NextXstate,
         NextPlock, NextWlock, NextExits, NextReaps, HasWait, Held, Sleepy, WillWake, ToldParent, Scanned, WantsWait,
         Locks, Unlocks, Resume, Enabled, InitAt, Hist, InRange, IsZombieOf;
  }

  lemma SleepySelf(s: State, n: nat, init: nat, x: nat, ch: Choice, p: nat)
    requires Sized(s, n) && InRange(s, n) && Here(s, n, x) && Here(s, n, p)
    requires Enabled(s, n, init, x, ch)
    requires p == x
    ensures var s' := Next(s, n, init, x, ch);
            Sleepy(s'.pc[p], s'.st[p]) ==>
              || (x == p && s.pc[p].SleepDrop?)
              || (Sleepy(s.pc[p], s.st[p]) && !(s.pc[x].WakeTest? && s.pc[x].ch == p && s.pc[x].j == p))
  {
    hide WaitAt, PlockAt, ClaimAt, ParentAt, ReapAt, HistAt, PidPair, ScanPair, ToldPair, KeptPair, NextSt, NextChan,
         NextParent, NextXstate, NextPids, NextPlock, NextWlock, NextExits, NextReaps, HasWait, Held, Claim,
         WillWake, ToldParent, Scanned, WantsWait, Locks, Unlocks, Enabled, InitAt, Hist, InRange, IsZombieOf;
    OwnState(s, n, init, x, ch);
  }

  lemma SleepyOther(s: State, n: nat, init: nat, x: nat, ch: Choice, p: nat)
    requires Sized(s, n) && InRange(s, n) && Here(s, n, x) && Here(s, n, p)
    requires Enabled(s, n, init, x, ch)
    requires p != x
    ensures var s' := Next(s, n, init, x, ch);
            Sleepy(s'.pc[p], s'.st[p]) ==>
              Sleepy(s.pc[p], s.st[p]) && !(s.pc[x].WakeTest? && s.pc[x].ch == p && s.pc[x].j == p)
  {
    hide WaitAt, ClaimAt, ParentAt, ReapAt, HistAt, PidPair, ScanPair, ToldPair, KeptPair, NextPc, NextChan,
         NextParent, NextXstate, NextPids, NextPlock, NextWlock, NextExits, NextReaps, HasWait, Claim, WillWake,
         ToldParent, Scanned, WantsWait, Locks, Unlocks, Resume, Enabled, InitAt, Hist, InRange, IsZombieOf;
  }

  /** A process becomes sleepy only where sleep drops the lock, and a visit by wakeup ends it. */
  lemma SleepyStep(s: State, n: nat, init: nat, x: nat, ch: Choice, p: nat)
    requires Sized(s, n) && InRange(s, n) && Here(s, n, x) && Here(s, n, p)
    requires Enabled(s, n, init, x, ch)
    ensures var s' := Next(s, n, init, x, ch);
            Sleepy(s'.pc[p], s'.st[p]) ==>
              || (x == p && s.pc[p].SleepDrop?)
              || (Sleepy(s.pc[p], s.st[p]) && !(s.pc[x].WakeTest? && s.pc[x].ch == p && s.pc[x].j == p))
  {
    hide WaitAt, PlockAt, ClaimAt, StateAt, ParentAt, ReapAt, HistAt, PidPair, ScanPair, ToldPair, KeptPair, NextPc,
         NextSt, NextChan, NextParent, NextXstate, NextPids, NextPlock, NextWlock, NextExits, NextReaps, HasWait,
         Held, Claim, Sleepy, WillWake, ToldParent, Scanned, NoProcess, WantsWait, Locks, Unlocks, Resume, Enabled,
         InitAt, Hist, InRange, IsZombieOf;
    if p == x { SleepySelf(s, n, init, x, ch, p); } else { SleepyOther(s, n, init, x, ch, p); }
  }

  /** wakeup passes over a process only by visiting it. */
  lemma WakeGoesOn(s: State, n: nat, init: nat, x: nat, ch: Choice, p: nat)
    requires Sized(s, n) && InRange(s, n) && Here(s, n, x) && Here(s, n, p)
    requires Enabled(s, n, init, x, ch)
    ensures WillWake(s.pc[x], p) ==>
              || WillWake(NextPc(s, n, init, x, ch), p)
              || p == x || (s.pc[x].WakeTest? && s.pc[x].ch == p && s.pc[x].j == p)
  {
    hide WaitAt, PlockAt, ClaimAt, StateAt, ParentAt, ReapAt, HistAt, PidPair, ScanPair, ToldPair, KeptPair, NextSt,
         NextChan, NextParent, NextXstate, NextPids, NextPlock, NextWlock, NextExits, NextReaps, HasWait, Held,
         Claim, Sleepy, ToldParent, Scanned, NoProcess, WantsWait, Locks, Unlocks, Enabled, InitAt, Hist, InRange,
         IsZombieOf;
  }

  /** A process gets a zombie child by the exit of a child, or as init by reparenting. */
  lemma ZombieStep(s: State, n: nat, init: nat, x: nat, ch: Choice, p: nat, c: nat)
    requires Sized(s, n) && InRange(s, n) && Here(s, n, x) && Here(s, n, p) && Here(s, n, c) && Pair(s, n, p, c)
    requires Enabled(s, n, init, x, ch)
    ensures IsZombieOf(Next(s, n, init, x, ch), n, p, c) ==>
              || IsZombieOf(s, n, p, c)
              || (x == c && s.pc[c].ExitZombie? && s.parent[c] == Some(p))
              || (p == init && s.pc[x].Reparent? && s.pc[x].i == c && s.parent[c] == Some(x))
  {
    hide WaitAt, PlockAt, ParentAt, ReapAt, HistAt, PidPair, ScanPair, ToldPair, KeptPair, NextPc, NextChan,
         NextXstate, NextPids, NextPlock, NextWlock, NextExits, NextReaps, HasWait, Held, Sleepy, WillWake,
         ToldParent, Scanned, WantsWait, Locks, Unlocks, Resume, Enabled, InitAt, Hist, InRange;
  }

  lemma ScanSelf(s: State, n: nat, init: nat, x: nat, ch: Choice, p: nat, c: nat)
    requires Sized(s, n) && InRange(s, n) && Here(s, n, x) && Here(s, n, p) && Here(s, n, c) && Pair(s, n, p, c)
    requires Enabled(s, n, init, x, ch)
    requires p == x
    ensures ScanPair(Next(s, n, init, x, ch), n, p, c)
  {
    hide WaitAt, PlockAt, ClaimAt, StateAt, ParentAt, ReapAt, HistAt, PidPair, ToldPair, KeptPair, NextSt, NextChan,
         NextParent, NextXstate, NextPids, NextPlock, NextWlock, NextExits, NextReaps, HasWait, Held, Claim, Sleepy,
         WillWake, ToldParent, NoProcess, WantsWait, Locks, Unlocks, Enabled, InitAt, Hist, InRange;
    ZombieStep(s, n, init, x, ch, p, c);
  }

  lemma ScanOther(s: State, n: nat, init: nat, x: nat, ch: Choice, p: nat, c: nat)
    requires Sized(s, n) && InRange(s, n) && Here(s, n, x) && Here(s, n, p) && Here(s, n, c) && Pair(s, n, p, c)
    requires Enabled(s, n, init, x, ch)
    requires p != x
    ensures ScanPair(Next(s, n, init, x, ch), n, p, c)
  {
    hide PlockAt, ClaimAt, StateAt, ParentAt, ReapAt, HistAt, PidPair, ToldPair, KeptPair, NextPc, NextSt, NextChan,
         NextParent, NextXstate, NextPids, NextPlock, NextWlock, NextExits, NextReaps, Held, Claim, Sleepy, WillWake,
         ToldParent, NoProcess, WantsWait, Locks, Unlocks, Resume, Enabled, InitAt, Hist, InRange, IsZombieOf;
    ZombieStep(s, n, init, x, ch, p, c);
  }

  /** kexit tells the parent it has, and keeps it. */
  lemma ToldMore(s: State, n: nat, init: nat, x: nat, ch: Choice, p: nat, c: nat)
    requires Sized(s, n) && InRange(s, n) && Here(s, n, x) && Here(s, n, p) && Here(s, n, c) && Pair(s, n, p, c)
    requires Enabled(s, n, init, x, ch)
    ensures var s' := Next(s, n, init, x, ch);
            s'.parent[c] == Some(p) && ToldParent(s'.pc[c]) ==>
              && s.parent[c] == Some(p)
              && (ToldParent(s.pc[c]) || (x == c && s'.pc[c].Wake? && s'.pc[c].ch == p && s'.pc[c].j == 0))
  {
    hide PlockAt, ReapAt, HistAt, PidPair, ScanPair, ToldPair, KeptPair, NextSt, NextChan, NextXstate, NextPids,
         NextPlock, NextWlock, NextExits, NextReaps, Held, Sleepy, WillWake, Scanned, WantsWait, Locks, Unlocks,
         Enabled, InitAt, Hist, InRange, IsZombieOf;
  }

  lemma ToldStep(s: State, n: nat, init: nat, x: nat, ch: Choice, p: nat, c: nat)
    requires Sized(s, n) && InRange(s, n) && Here(s, n, x) && Here(s, n, p) && Here(s, n, c) && Pair(s, n, p, c)
    requires Enabled(s, n, init, x, ch)
    ensures ToldPair(Next(s, n, init, x, ch), n, p, c)
  {
    hide PlockAt, ClaimAt, StateAt, ParentAt, ReapAt, HistAt, PidPair, ScanPair, KeptPair, NextPc, NextSt, NextChan,
         NextParent, NextXstate, NextPids, NextPlock, NextWlock, NextExits, NextReaps, Held, Claim, Scanned,
         NoProcess, WantsWait, Locks, Unlocks, Resume, Enabled, InitAt, Hist, InRange, IsZombieOf;
    SleepyStep(s, n, init, x, ch, p);
    ToldMore(s, n, init, x, ch, p, c);
    WakeGoesOn(s, n, init, x, ch, p);
  }

  lemma WakesInit(s: State, n: nat, init: nat, x: nat, ch: Choice)
    requires Sized(s, n) && InRange(s, n) && Here(s, n, x)
    requires Enabled(s, n, init, x, ch)
    ensures s.pc[x].Reparent? && s.pc[x].i < n && s.parent[s.pc[x].i] == Some(x) ==>
            WillWake(NextPc(s, n, init, x, ch), init)
  {
    hide WaitAt, PlockAt, ClaimAt, StateAt, ParentAt, ReapAt, HistAt, PidPair, ScanPair, ToldPair, KeptPair, NextSt,
         NextChan, NextParent, NextXstate, NextPids, NextPlock, NextWlock, NextExits, NextReaps, HasWait, Held,
         Claim, Sleepy, ToldParent, Scanned, NoProcess, WantsWait, Locks, Unlocks, Resume, Enabled, InitAt, Hist,
         InRange, IsZombieOf;
  }

  lemma KeptStep(s: State, n: nat, init: nat, x: nat, ch: Choice, p: nat, c: nat)
    requires Sized(s, n) && InRange(s, n) && Here(s, n, x) && Here(s, n, p) && Here(s, n, c) && Pair(s, n, p, c)
    requires Enabled(s, n, init, x, ch)
    requires InRange(Next(s, n, init, x, ch), n)
    requires s.wlock.Some? ==> Here(s, n, s.wlock.value)
    ensures KeptPair(Next(s, n, init, x, ch), n, p, c)
  {
    hide PlockAt, ClaimAt, StateAt, ParentAt, ReapAt, HistAt, PidPair, NextPc, NextSt, NextChan, NextParent,
         NextXstate, NextPids, NextPlock, NextExits, NextReaps, Held, Claim, NoProcess, Locks, Unlocks, Resume,
         InitAt, Hist, IsZombieOf;
    SleepyStep(s, n, init, x, ch, p);
    ZombieStep(s, n, init, x, ch, p, c);
    WakeGoesOn(s, n, init, x, ch, p);
    WakesInit(s, n, init, x, ch);
  }

  lemma HereStep(s: State, n: nat, init: nat, x: nat, ch: Choice, p: nat)
    requires Sized(s, n) && InRange(s, n) && Here(s, n, x) && Here(s, n, p)
    requires Enabled(s, n, init, x, ch)
    requires InitAt(s, n, init) && Hist(s.exits, s.reaps, s.nextpid) && Pair(s, n, p, x)
    requires s.pc[x].Reap? ==> s.pc[x].i < n && Here(s, n, s.pc[x].i) && Pair(s, n, p, s.pc[x].i)
    ensures Here(Next(s, n, init, x, ch), n, p)
  {
    hide WaitAt, PlockAt, ClaimAt, StateAt, ParentAt, ReapAt, HistAt, PidPair, ScanPair, ToldPair, KeptPair, NextPc,
         NextSt, NextChan, NextParent, NextXstate, NextPids, NextPlock, NextWlock, NextExits, NextReaps, HasWait,
         Held, Claim, Sleepy, WillWake, ToldParent, Scanned, NoProcess, WantsWait, Locks, Unlocks, Resume, Enabled,
         InitAt, Hist, InRange, IsZombieOf;
    hide Next;
    WaitStep(s, n, init, x, ch, p);
    PlockStep(s, n, init, x, ch, p);
    ClaimStep(s, n, init, x, ch, p);
    if p == x { StateSelf(s, n, init, x, ch, p); } else { StateOther(s, n, init, x, ch, p); }
    ParentStep(s, n, init, x, ch, p);
    if p == x { ReapSelf(s, n, init, x, ch, p); } else { ReapOther(s, n, init, x, ch, p); }
    HistStep(s, n, init, x, ch, p);
  }

  lemma PairStep(s: State, n: nat, init: nat, x: nat, ch: Choice, p: nat, c: nat)
    requires Sized(s, n) && InRange(s, n) && Here(s, n, x) && Here(s, n, p) && Here(s, n, c) && Pair(s, n, p, c)
    requires Enabled(s, n, init, x, ch)
    requires InRange(Next(s, n, init, x, ch), n)
    requires s.wlock.Some? ==> Here(s, n, s.wlock.value)
    ensures Pair(Next(s, n, init, x, ch), n, p, c)
  {
    hide WaitAt, PlockAt, ClaimAt, StateAt, ParentAt, ReapAt, HistAt, PidPair, ScanPair, ToldPair, KeptPair, NextPc,
         NextSt, NextChan, NextParent, NextXstate, NextPids, NextPlock, NextWlock, NextExits, NextReaps, HasWait,
         Held, Claim, Sleepy, WillWake, ToldParent, Scanned, NoProcess, WantsWait, Locks, Unlocks, Resume, Enabled,
         InitAt, Hist, InRange, IsZombieOf;
    hide Next;
    PidStep(s, n, init, x, ch, p, c);
    if p == x { ScanSelf(s, n, init, x, ch, p, c); } else { ScanOther(s, n, init, x, ch, p, c); }
    ToldStep(s, n, init, x, ch, p, c);
    KeptStep(s, n, init, x, ch, p, c);
  }

  /** The slots a step looks at are in range. */
  lemma StepArgs(s: State, n: nat, init: nat, x: nat, ch: Choice)
    requires Sized(s, n) && InRange(s, n) && Here(s, n, x) && Enabled(s, n, init, x, ch)
    ensures x < n && (s.pc[x].Reap? ==> s.pc[x].i < n) && (s.wlock.Some? ==> s.wlock.value < n)
    ensures InRange(Next(s, n, init, x, ch), n)
  {
    hide NextPc, NextSt, NextChan, NextParent, NextXstate, NextPids, NextPlock, NextExits, NextReaps, WaitAt, PlockAt,
         ClaimAt,
         StateAt, ParentAt, HistAt, Locks;
  }

  lemma StepGlobal(s: State, n: nat, init: nat, x: nat, ch: Choice)
    requires Inv(s, n, init) && Enabled(s, n, init, x, ch)
    ensures var s' := Next(s, n, init, x, ch); InitAt(s', n, init) && Hist(s'.exits, s'.reaps, s'.nextpid)
  {
    assert x < n && init < n;
    hide Here, Pair, InRange, InitAt, Hist, Enabled, NextPc, NextSt, NextChan, NextParent, NextXstate, NextPids,
         NextPlock,
         NextExits, NextReaps, NextWlock;
    StepArgs(s, n, init, x, ch);
    InitStep(s, n, init, x, ch);
    HistGlobal(s, n, init, x, ch);
  }

  lemma StepOk(s: State, n: nat, init: nat, x: nat, ch: Choice)
    requires Inv(s, n, init) && Enabled(s, n, init, x, ch)
    ensures Inv(Next(s, n, init, x, ch), n, init)
  {
    assert x < n;
    hide Here, Pair, InRange, InitAt, Hist, Enabled;
    StepArgs(s, n, init, x, ch);
    StepGlobal(s, n, init, x, ch);
    forall p: nat | p < n ensures Here(Next(s, n, init, x, ch), n, p) {
      hide Next;
      HereStep(s, n, init, x, ch, p);
    }
    forall p: nat, c: nat | p < n && c < n ensures Pair(Next(s, n, init, x, ch), n, p, c) {
      hide Next;
      PairStep(s, n, init, x, ch, p, c);
    }
  }

  // ---- every run

  /** The invariant holds in every state of every run. */
  lemma {:induction false} RunOk(states: seq<State>, n: nat, init: nat, i: nat)
    requires Runs(states, n, init) && i < |states|
    ensures Inv(states[i], n, init)
  {
    hide Inv, Next;
    if i == 0 {
      InitOk(n, init);
    } else {
      RunOk(states, n, init, i - 1);
      assert Steps(states[i - 1], states[i - 1 + 1], n, init);
      var x: nat, ch: Choice :| Enabled(states[i - 1], n, init, x, ch)
          && states[i] == Next(states[i - 1], n, init, x, ch);
      StepOk(states[i - 1], n, init, x, ch);
    }
  }

  /** Whenever wait_lock is free, no process asleep in kwait, or in transit to sleep there, has a
      zombie child, even across reparenting to init. */
  lemma NoLostChild(states: seq<State>, n: nat, init: nat, i: nat, p: nat, c: nat)
    requires Runs(states, n, init) && i < |states| && p < n && c < n && states[i].wlock.None?
    ensures Sized(states[i], n) && !(Sleepy(states[i].pc[p], states[i].st[p]) && IsZombieOf(states[i], n, p, c))
  {
    RunOk(states, n, init, i);
    assert Pair(states[i], n, p, c);
    hide Inv, PidPair, ScanPair, ToldPair;
  }

  lemma HistOf(s: State, n: nat, init: nat, c: nat)
    requires Inv(s, n, init) && c < n
    ensures Sized(s, n) && HistAt(s, n, c)
  {
    assert Here(s, n, c);
  }

  /** The next step of process x, if the choices fall so, is the one by which kwait returns a child. */
  ghost predicate Reaps(s: State, n: nat, init: nat, x: nat, ch: Choice) {
    Sized(s, n) && x < n && Enabled(s, n, init, x, ch) && s.pc[x].Reap? && !ch.Fail?
  }

  /** Each child is reaped at most once: whenever a process is about to reap, its child has not been
      reaped before. It is a zombie, the process is its current parent and holds wait_lock, and the
      step records the status the child exited with, and nothing else. */
  lemma ReapedOnce(states: seq<State>, n: nat, init: nat, i: nat, x: nat, ch: Choice)
    requires Runs(states, n, init) && i < |states| && Reaps(states[i], n, init, x, ch)
    ensures var s, c := states[i], states[i].pc[x].i;
            && c < n && s.wlock == Some(x) && s.parent[c] == Some(x) && s.st[c].Zombie?
            && s.pid[c] !in s.reaps && s.pid[c] in s.exits
            && Next(s, n, init, x, ch).reaps == s.reaps[s.pid[c] := Reaped(x, s.exits[s.pid[c]])]
  {
    RunOk(states, n, init, i);
    assert Here(states[i], n, x);
    hide Inv, NextPc, NextSt, NextChan, NextParent, NextPids, NextPlock, NextExits, NextXstate, Locks, PlockAt, ClaimAt,
         StateAt, ParentAt;
    HistOf(states[i], n, init, states[i].pc[x].i);
  }

  /** What was reaped stays recorded as it was, whatever steps follow. */
  lemma ReapedForGood(states: seq<State>, n: nat, init: nat, i: nat, pid: nat)
    requires Runs(states, n, init) && i + 1 < |states| && pid in states[i].reaps
    ensures pid in states[i + 1].reaps && states[i + 1].reaps[pid] == states[i].reaps[pid]
    ensures pid in states[i].exits && states[i].reaps[pid].status == states[i].exits[pid]
  {
    RunOk(states, n, init, i);
    assert Steps(states[i], states[i + 1], n, init);
    var x: nat, ch: Choice :| Enabled(states[i], n, init, x, ch) && states[i + 1] == Next(states[i], n, init, x, ch);
    assert Here(states[i], n, x);
    hide Inv, NextPc, NextSt, NextChan, NextParent, NextPids, NextPlock, NextExits, NextXstate, Locks, PlockAt, ClaimAt,
         StateAt, ParentAt;
    if states[i].pc[x].Reap? {
      HistOf(states[i], n, init, states[i].pc[x].i);
    }
  }

  /** So two reaping steps of a run, wherever they are, are of two children. */
  lemma {:induction false} TwoReaps(states: seq<State>, n: nat, init: nat, i: nat, x: nat, ch: Choice, j: nat, y: nat,
                                    ch': Choice)
    requires Runs(states, n, init) && i < j < |states|
    requires Reaps(states[i], n, init, x, ch) && states[i + 1] == Next(states[i], n, init, x, ch)
    requires Reaps(states[j], n, init, y, ch')
    ensures states[i].pc[x].i < n && states[j].pc[y].i < n
    ensures states[i].pid[states[i].pc[x].i] != states[j].pid[states[j].pc[y].i]
  {
    hide Runs, Next, Enabled;
    ReapedOnce(states, n, init, i, x, ch);
    ReapedOnce(states, n, init, j, y, ch');
    var pid := states[i].pid[states[i].pc[x].i];
    var k := i + 1;
    while k < j
      invariant i < k <= j && pid in states[k].reaps
    {
      ReapedForGood(states, n, init, k, pid);
      k := k + 1;
    }
  }
}
