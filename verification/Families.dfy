/**
 * More about every run of exit, wait, fork and kill (kernel/proc.c): every process has a live parent, kwait returns
 * for a reason, a p->lock is held only by the process that says so, and every call comes to an end.
 */
module Families {
  import opened Collections
  import opened ExitWait

  // ---- what every run keeps

  /** kexit has given away child c, or is past reparent; or no process runs. */
  predicate Gone(pc: Pc, c: nat) {
    match pc
    case Reparent(status, i) => c < i
    case Wake(ch, j, k) => k.ToReparent? ==> c < k.i
    case WakeTest(ch, j, k) => k.ToReparent? ==> c < k.i
    case WakeDrop(ch, j, k) => k.ToReparent? ==> c < k.i
    case _ => pc.WakeParent? || pc.ExitLock? || pc.ExitZombie? || pc.ExitDrop? || pc.ExitSched? || NoProcess(pc)
  }

  /** The parent of a process is alive. */
  ghost predicate Kept(s: State, n: nat, p: nat, c: nat)
    requires Sized(s, n) && p < n && c < n
  {
    s.parent[c] == Some(p) ==> !Gone(s.pc[p], c)
  }

  /** kwait has met child c, and so knows that it has children. */
  ghost predicate Met(s: State, n: nat, p: nat, c: nat)
    requires Sized(s, n) && p < n && c < n
  {
    match s.pc[p]
    case Scan(i, kids) => s.parent[c] == Some(p) && c < i ==> kids
    case Decide(kids) => s.parent[c] == Some(p) ==> kids
    case _ => true
  }

  /** A p->lock is held only by the process whose program counter says so. */
  ghost predicate Owns(s: State, n: nat, p: nat, v: nat)
    requires Sized(s, n) && p < n && v < n
  {
    && (s.plock[v] == Some(p) ==> ExitWait.Held(s.pc[p], p) == Some(v))
    && (s.plock[v].Some? ==> s.plock[v].value < n)
  }

  ghost predicate HasChild(s: State, n: nat, p: nat)
    requires Sized(s, n)
  {
    exists c: nat :: c < n && s.parent[c] == Some(p)
  }

  ghost predicate HasZombie(s: State, n: nat, p: nat)
    requires Sized(s, n)
  {
    exists c: nat :: c < n && IsZombieOf(s, n, p, c)
  }

  /** Why kwait returns what it returns. */
  ghost predicate Reason(s: State, n: nat, p: nat, ret: Ret)
    requires Sized(s, n) && p < n
  {
    match ret
    case Child(pid) => pid in s.reaps && s.reaps[pid].slot == p
    case Minus1 => s.killed[p] || !HasChild(s, n, p) || HasZombie(s, n, p)
  }

  /** kwait knows of children only if there are some, and has a reason to return. */
  ghost predicate Waits(s: State, n: nat, p: nat)
    requires Sized(s, n) && p < n
  {
    match s.pc[p]
    case Scan(i, kids) => kids ==> HasChild(s, n, p)
    case Decide(kids) => kids ==> HasChild(s, n, p)
    case ReapDrop(i, ret) => Reason(s, n, p, ret)
    case WaitLeave(ret) => Reason(s, n, p, ret)
    case _ => true
  }

  predicate Alive(st: PState) { st.Running? || st.Sleeping? || st.Runnable? }

  /** A process other than init that has been started has a parent; kfork sets it before. */
  ghost predicate Born(s: State, n: nat, init: nat, p: nat)
    requires Sized(s, n) && p < n
  {
    && (p != init && (Alive(s.st[p]) || s.st[p].Zombie?) ==> s.parent[p].Some?)
    && (s.pc[p].ForkLeave? || s.pc[p].ForkRelock? || s.pc[p].ForkRun? ==>
          s.pc[p].v < n && s.parent[s.pc[p].v] == Some(p))
    && (s.pc[p].ForkLock? || s.pc[p].KillLock? ==> s.pc[p].v < n)
  }

  ghost predicate One(s: State, n: nat, init: nat, p: nat)
    requires Sized(s, n)
  {
    p < n && Waits(s, n, p) && Born(s, n, init, p)
  }

  ghost predicate Two(s: State, n: nat, p: nat, c: nat)
    requires Sized(s, n)
  {
    p < n && c < n && Kept(s, n, p, c) && Met(s, n, p, c) && Owns(s, n, p, c)
  }

  ghost predicate Kin(s: State, n: nat, init: nat) {
    && Inv(s, n, init)
    && (forall p: nat :: p < n ==> One(s, n, init, p))
    && (forall p: nat, c: nat :: p < n && c < n ==> Two(s, n, p, c))
  }

  lemma InitKin(n: nat, init: nat)
    requires init < n
    ensures Kin(Init(n, init), n, init)
  {
    InitOk(n, init);
    hide Inv;
    var s := Init(n, init);
    forall p: nat | p < n ensures One(s, n, init, p) {
      assert s.pc[p] == if p == init then User else Vacant;
    }
    forall p: nat, c: nat | p < n && c < n ensures Two(s, n, p, c) {
      assert s.pc[p] == (if p == init then User else Vacant) && s.parent[c] == None && s.plock[c] == None;
    }
  }

  /** Who changes the parent of a process: kfork, reparent and freeproc, each with wait_lock. */
  ghost predicate Moved(s: State, s': State, n: nat, init: nat, x: nat, c: nat)
    requires Sized(s, n) && Sized(s', n) && x < n && c < n
  {
    s'.parent[c] == s.parent[c] || (
      && s.wlock == Some(x)
      && ( || (s.pc[x].ForkParent? && s.pc[x].v == c && s'.parent[c] == Some(x) && s.st[c] == Used(x))
           || (s.pc[x].Reparent? && s.pc[x].i == c && s.parent[c] == Some(x) && s'.parent[c] == Some(init))
           || (s.pc[x].Reap? && s.pc[x].i == c && s.parent[c] == Some(x) && s.st[c].Zombie?
               && s'.parent[c] == None && s'.st[c].Unused?)))
  }

  lemma ParentMoves(s: State, n: nat, init: nat, x: nat, ch: Choice, c: nat)
    requires Sized(s, n) && Here(s, n, x) && Enabled(s, n, init, x, ch) && c < n
    ensures Moved(s, Next(s, n, init, x, ch), n, init, x, c)
  {
    hide NextPc, NextChan, NextXstate, NextPids, NextKilled, NextPlock, NextExits, NextReaps, NextWlock, Locks, PlockAt,
         StateAt, ParentAt, HistAt, Held, Enabled;
  }

  /** reparent gives away the child it looks at. */
  lemma ReparentMoves(s: State, n: nat, init: nat, ch: Choice, p: nat, c: nat)
    requires Sized(s, n) && p < n && c < n && s.pc[p].Reparent? && InitAt(s, n, init)
    ensures s.pc[p].i == c ==> Next(s, n, init, p, ch).parent[c] != Some(p)
  {
    hide NextSt, NextChan, NextXstate, NextPids, NextKilled, NextPlock, NextExits, NextReaps, NextWlock, Locks, NextPc;
  }

  lemma KeptSelf(s: State, n: nat, init: nat, ch: Choice, p: nat, c: nat)
    requires Sized(s, n) && p < n && c < n && Kept(s, n, p, c) && InitAt(s, n, init) && Enabled(s, n, init, p, ch)
    requires Moved(s, Next(s, n, init, p, ch), n, init, p, c)
    ensures Kept(Next(s, n, init, p, ch), n, p, c)
  {
    hide NextSt, NextChan, NextXstate, NextPids, NextKilled, NextPlock, NextExits, NextReaps, NextWlock, Locks,
         NextParent, Enabled;
    if s.pc[p].Reparent? {
      ReparentMoves(s, n, init, ch, p, c);
    }
    hide InitAt;
  }

  lemma KeptOther(s: State, n: nat, init: nat, x: nat, ch: Choice, p: nat, c: nat)
    requires Sized(s, n) && p < n && c < n && Kept(s, n, p, c) && InitAt(s, n, init) && Enabled(s, n, init, x, ch)
    requires x != p && Moved(s, Next(s, n, init, x, ch), n, init, x, c)
    ensures Kept(Next(s, n, init, x, ch), n, p, c)
  {
    hide NextSt, NextChan, NextXstate, NextPids, NextKilled, NextPlock, NextExits, NextReaps, NextWlock, Locks,
         NextParent, Enabled, NextPc;
  }

  lemma MetStep(s: State, n: nat, init: nat, x: nat, ch: Choice, p: nat, c: nat)
    requires Sized(s, n) && p < n && c < n && Met(s, n, p, c) && Enabled(s, n, init, x, ch)
    requires WaitAt(s, n, p) && Moved(s, Next(s, n, init, x, ch), n, init, x, c)
    ensures Met(Next(s, n, init, x, ch), n, p, c)
  {
    hide NextSt, NextChan, NextXstate, NextPids, NextKilled, NextPlock, NextExits, NextReaps, NextWlock, Locks,
         NextParent, Enabled;
  }

  lemma OwnsStep(s: State, n: nat, init: nat, x: nat, ch: Choice, p: nat, v: nat)
    requires Sized(s, n) && p < n && v < n && InRange(s, n) && Here(s, n, x) && Owns(s, n, p, v)
    requires Enabled(s, n, init, x, ch)
    ensures Owns(Next(s, n, init, x, ch), n, p, v)
  {
    LockMove(s, n, init, x, ch);
    hide NextPc, NextSt, NextChan, NextXstate, NextPids, NextKilled, NextExits, NextReaps, NextWlock, NextParent, Locks,
         Unlocks, Held, WaitAt, ClaimAt, StateAt, ParentAt, ReapAt, HistAt;
  }

  lemma ChildStays(s: State, n: nat, init: nat, x: nat, ch: Choice, p: nat)
    requires Sized(s, n) && p < n && x < n && s.wlock != Some(x)
    requires forall c: nat :: c < n ==> Moved(s, Next(s, n, init, x, ch), n, init, x, c)
    ensures HasChild(Next(s, n, init, x, ch), n, p) <==> HasChild(s, n, p)
  {
    hide Next;
    var s' := Next(s, n, init, x, ch);
    forall c: nat | c < n ensures s'.parent[c] == s.parent[c] {
      assert Moved(s, s', n, init, x, c);
    }
  }

  /** A zombie stays one while another process holds wait_lock. */
  lemma ZombieStays(s: State, n: nat, init: nat, x: nat, ch: Choice, c: nat)
    requires Sized(s, n) && c < n && Here(s, n, x) && Here(s, n, c) && Enabled(s, n, init, x, ch) && s.wlock != Some(x)
    requires s.st[c].Zombie?
    ensures Next(s, n, init, x, ch).st[c].Zombie?
  {
    hide NextPc, NextChan, NextXstate, NextPids, NextKilled, NextPlock, NextExits, NextReaps, NextWlock, NextParent,
         Locks, PlockAt, ParentAt, HistAt, Held, Enabled;
  }

  lemma KilledStays(s: State, n: nat, init: nat, x: nat, ch: Choice, p: nat)
    requires Sized(s, n) && Here(s, n, x) && Here(s, n, p) && Enabled(s, n, init, x, ch) && x != p && s.wlock == Some(p)
    ensures Next(s, n, init, x, ch).reaps == s.reaps && (s.killed[p] ==> Next(s, n, init, x, ch).killed[p])
  {
    hide NextPc, NextSt, NextChan, NextXstate, NextPids, NextPlock, NextExits, NextWlock, NextParent, Locks, PlockAt,
         ParentAt, HistAt, Held, Enabled;
  }

  lemma ReasonStays(s: State, n: nat, init: nat, x: nat, ch: Choice, p: nat, ret: Ret)
    requires Inv(s, n, init) && p < n && Enabled(s, n, init, x, ch) && s.wlock == Some(p) && x != p
    requires Reason(s, n, p, ret) && forall c: nat :: c < n ==> Moved(s, Next(s, n, init, x, ch), n, init, x, c)
    ensures Reason(Next(s, n, init, x, ch), n, p, ret)
  {
    assert Here(s, n, x) && Here(s, n, p);
    ChildStays(s, n, init, x, ch, p);
    if HasZombie(s, n, p) {
      var c: nat :| c < n && IsZombieOf(s, n, p, c);
      assert Here(s, n, c);
      ZombieStays(s, n, init, x, ch, c);
      assert IsZombieOf(Next(s, n, init, x, ch), n, p, c);
    }
    KilledStays(s, n, init, x, ch, p);
  }

  /** The steps of kwait that only look. */
  lemma Looks(s: State, n: nat, init: nat, ch: Choice, p: nat)
    requires Sized(s, n) && p < n && (s.pc[p].Scan? || s.pc[p].ScanDrop? || s.pc[p].ReapDrop? || s.pc[p].Decide?)
    ensures var s' := Next(s, n, init, p, ch);
            s'.parent == s.parent && s'.st == s.st && s'.killed == s.killed && s'.reaps == s.reaps
  {
    hide NextPc, NextChan, NextXstate, NextPids, NextPlock, NextExits, NextWlock;
  }

  lemma SameReason(s: State, s': State, n: nat, p: nat, ret: Ret)
    requires Sized(s, n) && Sized(s', n) && p < n
    requires s'.parent == s.parent && s'.st == s.st && s'.killed == s.killed && s'.reaps == s.reaps
    ensures HasChild(s', n, p) <==> HasChild(s, n, p)
    ensures Reason(s, n, p, ret) ==> Reason(s', n, p, ret)
  {
    if HasZombie(s, n, p) {
      var c: nat :| c < n && IsZombieOf(s, n, p, c);
      assert IsZombieOf(s', n, p, c);
    }
  }

  /** The end of kwait's loop has a reason. */
  lemma Decided(s: State, n: nat, p: nat)
    requires Sized(s, n) && p < n && s.pc[p].Decide? && forall c: nat :: c < n ==> Two(s, n, p, c)
    ensures !s.pc[p].kids || s.killed[p] ==> Reason(s, n, p, Minus1)
    ensures HasChild(s, n, p) ==> s.pc[p].kids
  {
    hide Kept, Owns;
    if HasChild(s, n, p) {
      var c: nat :| c < n && s.parent[c] == Some(p);
      assert Two(s, n, p, c);
    }
  }

  lemma ReapTells(s: State, n: nat, init: nat, ch: Choice, p: nat)
    requires Sized(s, n) && Here(s, n, p) && s.pc[p].Reap?
    ensures Waits(Next(s, n, init, p, ch), n, p)
  {
    var s', i := Next(s, n, init, p, ch), s.pc[p].i;
    hide NextChan, NextXstate, NextPids, NextPlock, NextExits, NextWlock, Locks, PlockAt, ParentAt, HistAt, Held,
         StateAt, ClaimAt;
    if ch.Fail? { assert IsZombieOf(s', n, p, i); }
  }

  lemma ChildIs(s: State, n: nat, p: nat, c: nat)
    requires Sized(s, n) && c < n && s.parent[c] == Some(p)
    ensures HasChild(s, n, p)
  {
  }

  lemma WaitsSelf(s: State, n: nat, init: nat, ch: Choice, p: nat)
    requires Sized(s, n) && Here(s, n, p) && One(s, n, init, p) && Enabled(s, n, init, p, ch)
    requires forall c: nat :: c < n ==> Two(s, n, p, c)
    ensures Waits(Next(s, n, init, p, ch), n, p)
  {
    hide Two, Born, NextSt, NextChan, NextXstate, NextPids, NextKilled, NextPlock, NextExits, NextWlock, NextParent,
         NextReaps, Locks, PlockAt, ParentAt, HistAt, Held, Enabled, Reason, HasChild, StateAt, ClaimAt;
    var s' := Next(s, n, init, p, ch);
    match s.pc[p]
    case Reap(i) => ReapTells(s, n, init, ch, p);
    case ReapDrop(i, ret) =>
      Looks(s, n, init, ch, p);
      SameReason(s, s', n, p, ret);
    case Decide(kids) =>
      Looks(s, n, init, ch, p);
      Decided(s, n, p);
      SameReason(s, s', n, p, Minus1);
    case Scan(i, kids) =>
      Looks(s, n, init, ch, p);
      SameReason(s, s', n, p, Minus1);
    case ScanDrop(i) =>
      Looks(s, n, init, ch, p);
      ChildIs(s', n, p, i);
    case _ =>
  }

  lemma WaitsOther(s: State, n: nat, init: nat, x: nat, ch: Choice, p: nat)
    requires Inv(s, n, init) && One(s, n, init, p) && Enabled(s, n, init, x, ch) && x != p
    requires forall c: nat :: c < n ==> Moved(s, Next(s, n, init, x, ch), n, init, x, c)
    ensures Waits(Next(s, n, init, x, ch), n, p)
  {
    assert Here(s, n, x) && Here(s, n, p);
    var s' := Next(s, n, init, x, ch);
    if s.pc[p].Scan? || s.pc[p].Decide? || s.pc[p].ReapDrop? || s.pc[p].WaitLeave? {
      assert s.wlock == Some(p);
      ChildStays(s, n, init, x, ch, p);
      if s.pc[p].ReapDrop? || s.pc[p].WaitLeave? { ReasonStays(s, n, init, x, ch, p, s.pc[p].ret); }
    }
    assert s'.pc[p] == s.pc[p];
    hide Inv, Here, Next, Moved, Reason, HasChild, Born;
  }

  /** A process is started with its parent set. */
  lemma BornStep(s: State, n: nat, init: nat, x: nat, ch: Choice, p: nat)
    requires Sized(s, n) && Here(s, n, x) && Here(s, n, p) && Born(s, n, init, p) && Born(s, n, init, x)
    requires Enabled(s, n, init, x, ch) && Moved(s, Next(s, n, init, x, ch), n, init, x, p)
    ensures var s' := Next(s, n, init, x, ch);
            p != init && (Alive(s'.st[p]) || s'.st[p].Zombie?) ==> s'.parent[p].Some?
  {
    hide NextPc, NextChan, NextXstate, NextPids, NextKilled, NextPlock, NextExits, NextWlock, NextParent, NextReaps,
         Locks, WaitAt, PlockAt, ParentAt, HistAt, Held, Enabled;
  }

  lemma ForkStep(s: State, n: nat, init: nat, x: nat, ch: Choice, p: nat)
    requires Sized(s, n) && Here(s, n, x) && Here(s, n, p) && Born(s, n, init, p) && Enabled(s, n, init, x, ch)
    requires Claim(s.pc[p]).Some? ==> Moved(s, Next(s, n, init, x, ch), n, init, x, Claim(s.pc[p]).value)
    ensures var s' := Next(s, n, init, x, ch);
            s'.pc[p].ForkLeave? || s'.pc[p].ForkRelock? || s'.pc[p].ForkRun? ==>
              s'.pc[p].v < n && s'.parent[s'.pc[p].v] == Some(p)
    ensures var s' := Next(s, n, init, x, ch); s'.pc[p].ForkLock? || s'.pc[p].KillLock? ==> s'.pc[p].v < n
  {
    hide NextSt, NextChan, NextXstate, NextPids, NextKilled, NextPlock, NextExits, NextWlock, NextReaps, Locks, WaitAt,
         PlockAt, ParentAt, HistAt, Held, StateAt;
  }

  lemma OneStep(s: State, n: nat, init: nat, x: nat, ch: Choice, p: nat)
    requires Kin(s, n, init) && Enabled(s, n, init, x, ch) && p < n
    requires forall c: nat :: c < n ==> Moved(s, Next(s, n, init, x, ch), n, init, x, c)
    ensures One(Next(s, n, init, x, ch), n, init, p)
  {
    assert Here(s, n, x) && Here(s, n, p) && One(s, n, init, p) && One(s, n, init, x);
    hide Inv, Next, Enabled, Moved, Kept, Met, Owns, Waits, WaitAt, PlockAt, StateAt, ParentAt, ReapAt, HistAt;
    if x == p { WaitsSelf(s, n, init, ch, p); } else { WaitsOther(s, n, init, x, ch, p); }
    BornStep(s, n, init, x, ch, p);
    ForkStep(s, n, init, x, ch, p);
  }

  lemma TwoStep(s: State, n: nat, init: nat, x: nat, ch: Choice, p: nat, c: nat)
    requires Kin(s, n, init) && Enabled(s, n, init, x, ch) && p < n && c < n
    requires Moved(s, Next(s, n, init, x, ch), n, init, x, c)
    ensures Two(Next(s, n, init, x, ch), n, p, c)
  {
    assert Here(s, n, x) && Here(s, n, p) && Two(s, n, p, c) && InRange(s, n) && InitAt(s, n, init);
    hide Inv, Next, Enabled, Moved, Kept, Met, Owns, One, PlockAt, StateAt, ParentAt, ReapAt, HistAt, ClaimAt, InitAt;
    if x == p { KeptSelf(s, n, init, ch, p, c); } else { KeptOther(s, n, init, x, ch, p, c); }
    MetStep(s, n, init, x, ch, p, c);
    OwnsStep(s, n, init, x, ch, p, c);
  }

  lemma StepKin(s: State, n: nat, init: nat, x: nat, ch: Choice)
    requires Kin(s, n, init) && Enabled(s, n, init, x, ch)
    ensures Kin(Next(s, n, init, x, ch), n, init)
  {
    StepOk(s, n, init, x, ch);
    var s' := Next(s, n, init, x, ch);
    assert InRange(s, n) && InitAt(s, n, init);
    assert forall p: nat :: p < n ==> Here(s, n, p);
    hide Inv, Next, Here, Enabled, InRange, InitAt, Moved, Kept, Met, Owns, Waits, Born;
    forall c: nat | c < n ensures Moved(s, s', n, init, x, c) { ParentMoves(s, n, init, x, ch, c); }
    forall p: nat | p < n ensures One(s', n, init, p) { OneStep(s, n, init, x, ch, p); }
    forall p: nat, c: nat | p < n && c < n ensures Two(s', n, p, c) { TwoStep(s, n, init, x, ch, p, c); }
  }

  /** All of this holds in every state of every run. */
  lemma {:induction false} RunKin(states: seq<State>, n: nat, init: nat, i: nat)
    requires Runs(states, n, init) && i < |states|
    ensures Kin(states[i], n, init)
  {
    hide Kin, Next;
    if i == 0 {
      InitKin(n, init);
    } else {
      RunKin(states, n, init, i - 1);
      assert Steps(states[i - 1], states[i - 1 + 1], n, init);
      var x: nat, ch: Choice :| Enabled(states[i - 1], n, init, x, ch)
                                && states[i] == Next(states[i - 1], n, init, x, ch);
      StepKin(states[i - 1], n, init, x, ch);
    }
  }

  // ---- parents and children

  /** No orphans: the parent of any process is a live process that has not got past reparent, and every process
      but init that has been started has one, also as a zombie. */
  lemma LiveParent(states: seq<State>, n: nat, init: nat, i: nat, c: nat)
    requires Runs(states, n, init) && i < |states| && c < n
    ensures Sized(states[i], n)
    ensures var s, p := states[i], states[i].parent[c];
            && (p.Some? ==> p.value < n && Alive(s.st[p.value]) && !Gone(s.pc[p.value], c))
            && (c != init && (Alive(s.st[c]) || s.st[c].Zombie?) ==> p.Some?)
  {
    RunKin(states, n, init, i);
    var s := states[i];
    assert Here(s, n, c) && One(s, n, init, c);
    if s.parent[c].Some? {
      var p := s.parent[c].value;
      assert Two(s, n, p, c) && Here(s, n, p);
    }
    hide Kin, Runs, WaitAt, PlockAt, ClaimAt, ReapAt, HistAt, Met, Owns, Waits, Held;
  }

  // ---- what kwait returns

  /** kwait returns a child that it has itself reaped, with the status of its exit; or -1, and then the caller is
      killed, has no child, or has a zombie whose status could not be copied out. */
  lemma KwaitReturns(states: seq<State>, n: nat, init: nat, i: nat, p: nat)
    requires Runs(states, n, init) && i < |states| && p < n && Sized(states[i], n) && states[i].pc[p].WaitLeave?
    ensures var s := states[i];
            match s.pc[p].ret
            case Child(pid) => pid in s.reaps && pid in s.exits && s.reaps[pid] == Reaped(p, s.exits[pid])
            case Minus1 => s.killed[p] || !HasChild(s, n, p) || HasZombie(s, n, p)
  {
    RunKin(states, n, init, i);
    assert One(states[i], n, init, p);
    hide Kin, Runs, Born, HasChild, HasZombie;
  }

  /** A process that finds no zombie goes to sleep exactly if it has a child and is not killed. */
  lemma KwaitSleeps(states: seq<State>, n: nat, init: nat, i: nat, p: nat, ch: Choice)
    requires Runs(states, n, init) && i < |states| && p < n && Sized(states[i], n) && states[i].pc[p].Decide?
    ensures NextPc(states[i], n, init, p, ch) ==
            if HasChild(states[i], n, p) && !states[i].killed[p] then SleepLock else WaitLeave(Minus1)
    ensures !HasZombie(states[i], n, p)
  {
    RunKin(states, n, init, i);
    var s := states[i];
    assert One(s, n, init, p);
    assert forall c: nat :: c < n ==> Two(s, n, p, c);
    Decided(s, n, p);
    forall c: nat | c < n ensures !IsZombieOf(s, n, p, c) { assert Pair(s, n, p, c); }
    hide Kin, Runs, Born, HasChild, Reason, Two;
  }

  // ---- no deadlock

  /** Process p can take a step. */
  ghost predicate CanStep(s: State, n: nat, init: nat, p: nat)
    requires Sized(s, n)
  {
    Enabled(s, n, init, p, Go)
  }

  /** Process p waits for the p->lock that x holds, and x can take a step. */
  ghost predicate WaitsFor(s: State, n: nat, init: nat, p: nat, x: nat)
    requires Sized(s, n) && p < n
  {
    var l := Locks(s, n, p);
    l.Some? && l.value < n && s.plock[l.value] == Some(x) && x < n && CanStep(s, n, init, x)
  }

  /** A process that holds a p->lock wants no other lock. */
  lemma HolderSteps(s: State, n: nat, init: nat, x: nat)
    requires Sized(s, n) && x < n && Held(s.pc[x], x).Some?
    ensures CanStep(s, n, init, x)
  {
  }

  lemma LocksInRange(s: State, n: nat, init: nat, p: nat)
    requires Sized(s, n) && Here(s, n, p) && One(s, n, init, p)
    ensures Locks(s, n, p).Some? ==> Locks(s, n, p).value < n
  {
    hide WaitAt, PlockAt, StateAt, ParentAt, ReapAt, HistAt, Waits;
  }

  lemma StepsOrWaits(s: State, n: nat, init: nat, p: nat)
    requires Kin(s, n, init) && p < n && !(WantsWait(s.pc[p]) && s.wlock.Some?)
    ensures CanStep(s, n, init, p) || exists x: nat :: x < n && WaitsFor(s, n, init, p, x)
  {
    assert Here(s, n, p) && One(s, n, init, p);
    LocksInRange(s, n, init, p);
    var l := Locks(s, n, p);
    if l.Some? && s.plock[l.value].Some? {
      assert Two(s, n, p, l.value);
      var x := s.plock[l.value].value;
      assert Two(s, n, x, l.value);
      HolderSteps(s, n, init, x);
      hide Kin, Here, One, Locks, CanStep, Held;
      assert WaitsFor(s, n, init, p, x);
    }
  }

  /** Deadlock is impossible: a process that cannot take a step waits for a lock whose holder can, or whose holder
      waits for a p->lock whose holder can. */
  lemma NoDeadlock(states: seq<State>, n: nat, init: nat, i: nat, p: nat)
    requires Runs(states, n, init) && i < |states| && p < n
    ensures Sized(states[i], n)
    ensures var s := states[i];
            || CanStep(s, n, init, p)
            || (exists x: nat :: x < n && WaitsFor(s, n, init, p, x))
            || (exists y: nat :: y < n && s.wlock == Some(y) && WantsWait(s.pc[p])
                  && (CanStep(s, n, init, y) || exists x: nat :: x < n && WaitsFor(s, n, init, y, x)))
  {
    RunKin(states, n, init, i);
    var s := states[i];
    if WantsWait(s.pc[p]) && s.wlock.Some? {
      var y := s.wlock.value;
      assert Here(s, n, y);
      StepsOrWaits(s, n, init, y);
    } else {
      StepsOrWaits(s, n, init, p);
    }
  }

  // ---- every call comes to its end

  /** In user space, asleep in kwait until somebody wakes it, or a slot where nothing is to be run. */
  predicate AtRest(pc: Pc, st: PState) {
    pc.User? || (pc.Asleep? && st.Sleeping?) || (pc.Vacant? && !st.Runnable?)
  }

  /** No lock is held by another process. */
  ghost predicate Alone(s: State, n: nat, p: nat)
    requires Sized(s, n)
  {
    && (s.wlock.None? || s.wlock == Some(p))
    && forall v: nat :: v < n ==> s.plock[v].None? || s.plock[v] == Some(p)
  }

  function Left(n: nat, i: nat): (k: nat) { if i < n then n - i else 0 }

  // How far a call is from its end, compared component by component.

  /** The part of the call. */
  function Phase(pc: Pc, st: PState): (k: nat) {
    match pc
    case User => 0
    case KillLock(v) => 3
    case KillTest(v) => 2
    case KillDrop(v) => 1
    case ForkLock(v) => 11
    case ForkTest(v) => 10
    case ForkCopy(v) => 9
    case ForkDrop(v) => 8
    case ForkWait(v) => 7
    case ForkParent(v) => 6
    case ForkLeave(v) => 5
    case ForkRelock(v) => 4
    case ForkRun(v) => 3
    case ForkDone(v) => 2
    case ForkSkip(v) => 1
    case ExitAcquire(status) => 9
    case Reparent(status, i) => 8
    case WakeParent(status) => 7
    case Wake(ch, j, k) => if k.ToReparent? then 8 else 6
    case WakeTest(ch, j, k) => if k.ToReparent? then 8 else 6
    case WakeDrop(ch, j, k) => if k.ToReparent? then 8 else 6
    case ExitLock(status) => 5
    case ExitZombie(status) => 4
    case ExitDrop => 3
    case ExitSched => 2
    case Vacant => if st.Runnable? then 3 else 0
    case VacantPicked => if st.Runnable? then 2 else 1
    case StartDrop => 1
    case Asleep => if st.Runnable? then 16 else 0
    case Picked => if st.Runnable? then 15 else 1
    case Tidy => 14
    case DropSelf => 13
    case Reacquire => 12
    case WaitAcquire => 12
    case Scan(i, kids) => 11
    case ScanTest(i) => 11
    case ScanDrop(i) => 11
    case Reap(i) => 10
    case ReapDrop(i, ret) => 9
    case Decide(kids) => 9
    case WaitLeave(ret) => 8
    case SleepLock => 6
    case SleepDrop => 5
    case SetChan => 4
    case SetState => 3
    case Switch => 2
  }

  /** The slots that reparent or kwait has still to look at. */
  function Slots(pc: Pc, n: nat): (k: nat) {
    match pc
    case Reparent(status, i) => Left(n, i)
    case Wake(ch, j, k) => if k.ToReparent? then Left(n, k.i) else 0
    case WakeTest(ch, j, k) => if k.ToReparent? then Left(n, k.i) else 0
    case WakeDrop(ch, j, k) => if k.ToReparent? then Left(n, k.i) else 0
    case Scan(i, kids) => Left(n, i)
    case ScanTest(i) => Left(n, i)
    case ScanDrop(i) => Left(n, i)
    case _ => 0
  }

  /** Those that wakeup has still to look at. */
  function Sleepers(pc: Pc, n: nat): (k: nat) {
    match pc
    case Wake(ch, j, k) => Left(n, j) + 1
    case WakeTest(ch, j, k) => Left(n, j) + 1
    case WakeDrop(ch, j, k) => Left(n, j) + 1
    case _ => 0
  }

  /** Where it is with one of them. */
  function Stage(pc: Pc): (k: nat) {
    match pc
    case Wake(ch, j, k) => 2
    case WakeTest(ch, j, k) => 1
    case Scan(i, kids) => 2
    case ScanTest(i) => 1
    case _ => 0
  }

  predicate Nearer(pc: Pc, st: PState, pc': Pc, st': PState, n: nat) {
    || Phase(pc', st') < Phase(pc, st)
    || (Phase(pc', st') == Phase(pc, st) && (
          || Slots(pc', n) < Slots(pc, n)
          || (Slots(pc', n) == Slots(pc, n) && (
                || Sleepers(pc', n) < Sleepers(pc, n)
                || (Sleepers(pc', n) == Sleepers(pc, n) && Stage(pc') < Stage(pc))))))
  }

  lemma InSlots(s: State, n: nat, p: nat)
    requires Sized(s, n) && Here(s, n, p)
    ensures s.pc[p].WakeTest? || s.pc[p].WakeDrop? ==> s.pc[p].j < n
    ensures s.pc[p].ScanTest? || s.pc[p].ScanDrop? ==> s.pc[p].i < n
  {
    hide WaitAt, ClaimAt, StateAt, ParentAt, HistAt;
  }

  predicate InWake(pc: Pc) { pc.Wake? || pc.WakeTest? || pc.WakeDrop? }

  predicate InFork(pc: Pc) {
    || Claim(pc).Some? || pc.ForkLock? || pc.ForkTest? || pc.ForkSkip? || pc.ForkDone?
  }

  predicate InKill(pc: Pc) { pc.KillLock? || pc.KillTest? || pc.KillDrop? }

  predicate InExit(pc: Pc) {
    || pc.ExitAcquire? || pc.Reparent? || pc.WakeParent? || pc.ExitLock? || pc.ExitZombie? || pc.ExitDrop?
    || pc.ExitSched?
  }

  predicate InScan(pc: Pc) { pc.Scan? || pc.ScanTest? || pc.ScanDrop? }

  /** The state of a process after its own step. */
  function OwnNext(pc: Pc, st: PState): (st': PState) {
    if pc.ExitZombie? then Zombie else if pc.SetState? then Sleeping
    else if (pc.Picked? || pc.VacantPicked?) && st.Runnable? then Running else st
  }

  lemma WakeNearer(s: State, n: nat, init: nat, p: nat)
    requires Sized(s, n) && p < n && StateAt(s, n, p) && !AtRest(s.pc[p], s.st[p])
    requires InWake(s.pc[p]) && (s.pc[p].WakeTest? || s.pc[p].WakeDrop? ==> s.pc[p].j < n)
    ensures Nearer(s.pc[p], s.st[p], NextPc(s, n, init, p, Go), OwnNext(s.pc[p], s.st[p]), n)
  {
  }

  lemma ScanNearer(s: State, n: nat, init: nat, p: nat)
    requires Sized(s, n) && p < n && StateAt(s, n, p) && !AtRest(s.pc[p], s.st[p])
    requires (InScan(s.pc[p]) && (!s.pc[p].Scan? ==> s.pc[p].i < n)) || s.pc[p].Reparent?
    ensures Nearer(s.pc[p], s.st[p], NextPc(s, n, init, p, Go), OwnNext(s.pc[p], s.st[p]), n)
  {
  }

  lemma ForkNearer(s: State, n: nat, init: nat, p: nat)
    requires Sized(s, n) && p < n && StateAt(s, n, p) && !AtRest(s.pc[p], s.st[p])
    requires InFork(s.pc[p]) || InKill(s.pc[p])
    ensures Nearer(s.pc[p], s.st[p], NextPc(s, n, init, p, Go), OwnNext(s.pc[p], s.st[p]), n)
  {
    hide Slots, Sleepers, Stage;
  }

  lemma ExitNearer(s: State, n: nat, init: nat, p: nat)
    requires Sized(s, n) && p < n && StateAt(s, n, p) && !AtRest(s.pc[p], s.st[p])
    requires InExit(s.pc[p]) && !s.pc[p].Reparent?
    ensures Nearer(s.pc[p], s.st[p], NextPc(s, n, init, p, Go), OwnNext(s.pc[p], s.st[p]), n)
  {
    hide Slots, Sleepers, Stage;
  }

  lemma WaitNearer(s: State, n: nat, init: nat, p: nat)
    requires Sized(s, n) && p < n && StateAt(s, n, p) && !AtRest(s.pc[p], s.st[p])
    requires !InFork(s.pc[p]) && !InKill(s.pc[p]) && !InScan(s.pc[p]) && !InWake(s.pc[p]) && !InExit(s.pc[p])
    ensures Nearer(s.pc[p], s.st[p], NextPc(s, n, init, p, Go), OwnNext(s.pc[p], s.st[p]), n)
  {
    hide Slots, Sleepers, Stage;
  }

  /** Every step of a call brings it nearer to its end. */
  lemma StepNearer(s: State, n: nat, init: nat, p: nat)
    requires Sized(s, n) && InRange(s, n) && Here(s, n, p) && !AtRest(s.pc[p], s.st[p]) && Enabled(s, n, init, p, Go)
    ensures var s' := Next(s, n, init, p, Go); Nearer(s.pc[p], s.st[p], s'.pc[p], s'.st[p], n)
  {
    InSlots(s, n, p);
    OwnState(s, n, init, p, Go);
    hide WaitAt, PlockAt, ClaimAt, StateAt, ParentAt, ReapAt, HistAt, AtRest, Nearer, Enabled, InFork, NextPc, NextSt,
         NextChan, NextXstate, NextPids, NextKilled, NextPlock, NextExits, NextWlock, NextParent, NextReaps;
    if InWake(s.pc[p]) {
      WakeNearer(s, n, init, p);
    } else if InScan(s.pc[p]) || s.pc[p].Reparent? {
      ScanNearer(s, n, init, p);
    } else if InExit(s.pc[p]) {
      ExitNearer(s, n, init, p);
    } else if InFork(s.pc[p]) || InKill(s.pc[p]) {
      ForkNearer(s, n, init, p);
    } else {
      WaitNearer(s, n, init, p);
    }
  }

  /** A step that acquires a p->lock holds none before. */
  lemma WantsOne(s: State, n: nat, p: nat)
    requires Sized(s, n) && p < n && Locks(s, n, p).Some?
    ensures Held(s.pc[p], p).None?
  {
  }

  lemma AloneSteps(s: State, n: nat, init: nat, p: nat)
    requires Kin(s, n, init) && p < n && Alone(s, n, p)
    ensures CanStep(s, n, init, p) && Alone(Next(s, n, init, p, Go), n, p)
  {
    assert Here(s, n, p) && One(s, n, init, p);
    LocksInRange(s, n, init, p);
    if Locks(s, n, p).Some? {
      assert Two(s, n, p, Locks(s, n, p).value);
      WantsOne(s, n, p);
    }
    hide Kin, Here, One, Two, NextPc, NextSt, NextChan, NextXstate, NextPids, NextKilled, NextExits, NextParent,
         NextReaps, Locks, Unlocks;
  }

  lemma RunsMore(states: seq<State>, n: nat, init: nat, p: nat)
    requires Runs(states, n, init) && Sized(states[|states| - 1], n) && Enabled(states[|states| - 1], n, init, p, Go)
    ensures Runs(states + [Next(states[|states| - 1], n, init, p, Go)], n, init)
  {
    var m := |states| - 1;
    assert p < n;
    hide Next, Enabled, Init;
    var more := states + [Next(states[m], n, init, p, Go)];
    forall i | 0 <= i < |more| - 1 ensures Steps(more[i], more[i + 1], n, init) {
      if i < m { assert Steps(states[i], states[i + 1], n, init); }
    }
  }

  /** Process p has reaped a child that was not reaped before. */
  ghost predicate Got(before: map<nat, Reaped>, after: map<nat, Reaped>, p: nat) {
    exists pid :: pid in after && pid !in before && after[pid].slot == p
  }

  /** In kwait, and neither asleep nor about to sleep. */
  predicate Looking(pc: Pc, st: PState) {
    || pc.WaitAcquire? || pc.Reacquire? || pc.DropSelf? || pc.Tidy? || ((pc.Asleep? || pc.Picked?) && st.Runnable?)
    || InScan(pc) || pc.Reap?
  }

  /** In kwait, with a child to be reaped, or just having reaped one. */
  ghost predicate Reaping(s: State, n: nat, p: nat, before: map<nat, Reaped>)
    requires Sized(s, n) && p < n
  {
    || (Looking(s.pc[p], s.st[p]) && s.reaps == before && HasZombie(s, n, p))
    || ((s.pc[p].ReapDrop? || s.pc[p].WaitLeave? || s.pc[p].User?) && Got(before, s.reaps, p))
  }

  /** Looking for a zombie leaves it where it is. */
  lemma LookingKeeps(s: State, n: nat, init: nat, p: nat, c: nat)
    requires Sized(s, n) && Here(s, n, p) && c < n && Looking(s.pc[p], s.st[p]) && !s.pc[p].Reap?
    requires IsZombieOf(s, n, p, c)
    ensures var s' := Next(s, n, init, p, Go); IsZombieOf(s', n, p, c) && s'.reaps == s.reaps
  {
    hide NextPc, NextChan, NextXstate, NextPids, NextKilled, NextPlock, NextExits, NextWlock, WaitAt, PlockAt, ClaimAt,
         ParentAt, ReapAt, HistAt;
  }

  lemma LookingGoesOn(s: State, n: nat, init: nat, p: nat, c: nat)
    requires Sized(s, n) && Here(s, n, p) && c < n && Looking(s.pc[p], s.st[p]) && !s.pc[p].Reap?
    requires IsZombieOf(s, n, p, c) && ScanPair(s, n, p, c)
    ensures var s' := Next(s, n, init, p, Go); Looking(s'.pc[p], s'.st[p])
  {
    hide NextChan, NextXstate, NextPids, NextKilled, NextPlock, NextExits, NextWlock, NextReaps, NextParent, WaitAt,
         PlockAt, ClaimAt, ParentAt, HistAt;
  }

  lemma ReapGets(s: State, n: nat, init: nat, p: nat)
    requires Sized(s, n) && Here(s, n, p) && s.pc[p].Reap? && s.pc[p].i < n && Here(s, n, s.pc[p].i)
    ensures var s' := Next(s, n, init, p, Go); s'.pc[p].ReapDrop? && Got(s.reaps, s'.reaps, p)
  {
    hide NextSt, NextChan, NextXstate, NextPids, NextKilled, NextPlock, NextExits, NextWlock, NextParent, WaitAt,
         PlockAt, ClaimAt, ParentAt, StateAt;
    var s', pid := Next(s, n, init, p, Go), s.pid[s.pc[p].i];
    assert pid in s'.reaps && pid !in s.reaps && s'.reaps[pid].slot == p;
  }

  lemma ReturnsWith(s: State, n: nat, init: nat, p: nat)
    requires Sized(s, n) && p < n && (s.pc[p].ReapDrop? || s.pc[p].WaitLeave? || s.pc[p].User?)
    ensures var s' := Next(s, n, init, p, Go); s'.reaps == s.reaps && (s'.pc[p].WaitLeave? || s'.pc[p].User?)
  {
    hide NextSt, NextChan, NextXstate, NextPids, NextKilled, NextPlock, NextExits, NextWlock, NextParent;
  }

  lemma ReapingStep(s: State, n: nat, init: nat, p: nat, before: map<nat, Reaped>)
    requires Kin(s, n, init) && p < n && CanStep(s, n, init, p) && Reaping(s, n, p, before)
    ensures Reaping(Next(s, n, init, p, Go), n, p, before)
  {
    assert Here(s, n, p);
    var s' := Next(s, n, init, p, Go);
    if Looking(s.pc[p], s.st[p]) && HasZombie(s, n, p) && !s.pc[p].Reap? {
      var c: nat :| c < n && IsZombieOf(s, n, p, c);
      assert Pair(s, n, p, c);
      LookingKeeps(s, n, init, p, c);
      LookingGoesOn(s, n, init, p, c);
    } else if s.pc[p].Reap? {
      assert Here(s, n, s.pc[p].i);
      ReapGets(s, n, init, p);
    } else {
      ReturnsWith(s, n, init, p);
    }
    hide Kin, Inv, Here, Pair, Next, Enabled, Got;
  }

  /** In kwait, killed, and not past the test for it. */
  ghost predicate Leaving(s: State, n: nat, p: nat)
    requires Sized(s, n) && p < n
  {
    && s.killed[p]
    && (Looking(s.pc[p], s.st[p]) || s.pc[p].Decide? || s.pc[p].ReapDrop? || s.pc[p].WaitLeave? || s.pc[p].User?)
  }

  lemma LeavingStep(s: State, n: nat, init: nat, p: nat)
    requires Sized(s, n) && Here(s, n, p) && Leaving(s, n, p)
    ensures Leaving(Next(s, n, init, p, Go), n, p)
  {
    hide NextChan, NextXstate, NextPids, NextPlock, NextExits, NextWlock, NextReaps, NextParent, WaitAt, PlockAt,
         ClaimAt, HistAt;
  }

  /** In kfork with slot v, which was free; or back from it, with a child there that can run. */
  ghost predicate Forking(s: State, n: nat, p: nat, v: nat, pid: nat)
    requires Sized(s, n) && p < n && v < n
  {
    || (s.pc[p] == ForkLock(v) && s.st[v].Unused? && s.nextpid == pid)
    || (s.pc[p] == ForkTest(v) && s.st[v].Unused? && s.nextpid == pid)
    || (Claim(s.pc[p]) == Some(v) && s.pid[v] == pid)
    || ((s.pc[p] == ForkDone(v) || s.pc[p].User?) && s.st[v].Runnable? && s.parent[v] == Some(p) && s.pid[v] == pid)
  }

  lemma ForkingStep(s: State, n: nat, init: nat, p: nat, v: nat, pid: nat)
    requires Sized(s, n) && Here(s, n, p) && Born(s, n, init, p) && v < n && Forking(s, n, p, v, pid)
    requires !s.pc[p].User?
    ensures Forking(Next(s, n, init, p, Go), n, p, v, pid)
  {
    hide NextChan, NextXstate, NextKilled, NextPlock, NextExits, NextWlock, NextReaps, WaitAt, PlockAt, ParentAt,
         ReapAt,
         HistAt;
  }

  /** In kexit, or a zombie. */
  ghost predicate Exiting(s: State, n: nat, p: nat)
    requires Sized(s, n) && p < n
  {
    InExit(s.pc[p]) || InWake(s.pc[p]) || (s.pc[p].Vacant? && s.st[p].Zombie?)
  }

  lemma ExitingStep(s: State, n: nat, init: nat, p: nat)
    requires Sized(s, n) && Here(s, n, p) && Exiting(s, n, p) && !AtRest(s.pc[p], s.st[p])
    ensures Exiting(Next(s, n, init, p, Go), n, p)
  {
    hide NextChan, NextXstate, NextPids, NextKilled, NextPlock, NextExits, NextWlock, NextReaps, NextParent, WaitAt,
         PlockAt, ParentAt, ReapAt, HistAt, ClaimAt;
  }

  ghost function Last(states: seq<State>): (s: State)
    requires states != []
  {
    states[|states| - 1]
  }

  /** Every system call comes to its end: whenever no other process holds a lock, the steps of process p alone
      lead it back to user space, to sleep in kwait, or out of existence. */
  lemma {:induction false} CallEnds(states: seq<State>, n: nat, init: nat, p: nat, before: map<nat, Reaped>, v: nat,
                                    pid: nat)
    returns (more: seq<State>)
    requires Runs(states, n, init) && p < n && v < n && Sized(Last(states), n) && Alone(Last(states), n, p)
    ensures states <= more && Runs(more, n, init) && Sized(Last(more), n)
    ensures AtRest(Last(more).pc[p], Last(more).st[p])
    ensures Reaping(Last(states), n, p, before) ==> Reaping(Last(more), n, p, before)
    ensures Leaving(Last(states), n, p) ==> Leaving(Last(more), n, p)
    ensures Forking(Last(states), n, p, v, pid) ==> Forking(Last(more), n, p, v, pid)
    ensures Exiting(Last(states), n, p) ==> Exiting(Last(more), n, p)
    decreases Phase(Last(states).pc[p], Last(states).st[p]), Slots(Last(states).pc[p], n),
              Sleepers(Last(states).pc[p], n), Stage(Last(states).pc[p])
  {
    var s := Last(states);
    more := states;
    if !AtRest(s.pc[p], s.st[p]) {
      RunKin(states, n, init, |states| - 1);
      AloneSteps(s, n, init, p);
      assert Here(s, n, p) && InRange(s, n);
      StepNearer(s, n, init, p);
      if Reaping(s, n, p, before) { ReapingStep(s, n, init, p, before); }
      if Leaving(s, n, p) { LeavingStep(s, n, init, p); }
      assert One(s, n, init, p);
      if Forking(s, n, p, v, pid) { ForkingStep(s, n, init, p, v, pid); }
      if Exiting(s, n, p) { ExitingStep(s, n, init, p); }
      RunsMore(states, n, init, p);
      hide Kin, Inv, Here, Alone, Next, Runs, Reaping, Leaving, Forking, Exiting, Phase, Slots, Sleepers, Stage, AtRest,
           Enabled;
      more := CallEnds(states + [Next(s, n, init, p, Go)], n, init, p, before, v, pid);
    }
  }

  predicate InKwait(pc: Pc) {
    || pc.WaitAcquire? || InScan(pc) || pc.Reap? || pc.Decide? || pc.SleepLock? || pc.SleepDrop? || pc.SetChan?
    || pc.SetState? || pc.Switch? || pc.Asleep? || pc.Picked? || pc.Tidy? || pc.DropSelf? || pc.Reacquire?
  }

  /** Nobody can be about to wake it, so it does not sleep. */
  lemma NotAsleep(s: State, n: nat, init: nat, p: nat)
    requires Kin(s, n, init) && p < n && Alone(s, n, p) && InKwait(s.pc[p]) && HasZombie(s, n, p)
    ensures Looking(s.pc[p], s.st[p])
  {
    var c: nat :| c < n && IsZombieOf(s, n, p, c);
    assert Pair(s, n, p, c) && Here(s, n, p);
    hide Kin, Inv, PidPair, ToldPair, WaitAt, PlockAt, ClaimAt, ParentAt, ReapAt, HistAt;
  }

  /** A zombie does not wait for ever: whenever its parent is anywhere in kwait and no other process holds a lock,
      the steps of the parent alone reap a child and return. */
  lemma KwaitReaps(states: seq<State>, n: nat, init: nat, p: nat) returns (more: seq<State>)
    requires Runs(states, n, init) && p < n && Sized(Last(states), n) && Alone(Last(states), n, p)
    requires InKwait(Last(states).pc[p]) && HasZombie(Last(states), n, p)
    ensures states <= more && Runs(more, n, init) && Sized(Last(more), n)
    ensures Last(more).pc[p].User? && Got(Last(states).reaps, Last(more).reaps, p)
  {
    var s := Last(states);
    hide Kin, Runs, Got, Alone, InKwait;
    RunKin(states, n, init, |states| - 1);
    NotAsleep(s, n, init, p);
    more := CallEnds(states, n, init, p, s.reaps, p, 0);
  }

  /** kfork on a free slot, when memory suffices: whenever no other process holds a lock, the steps of the caller alone
      make a child that can run, has the caller as its parent, and has the next pid. */
  lemma ForkMakes(states: seq<State>, n: nat, init: nat, p: nat, v: nat) returns (more: seq<State>)
    requires Runs(states, n, init) && p < n && v < n && Sized(Last(states), n) && Alone(Last(states), n, p)
    requires Last(states).pc[p] == ForkLock(v) && Last(states).st[v].Unused?
    ensures states <= more && Runs(more, n, init) && Sized(Last(more), n) && Last(more).pc[p].User?
    ensures Last(more).st[v].Runnable? && Last(more).parent[v] == Some(p) && Last(more).pid[v] == Last(states).nextpid
  {
    more := CallEnds(states, n, init, p, map[], v, Last(states).nextpid);
  }

  /** kexit: whenever no other process holds a lock, the steps of the caller alone make it a zombie. */
  lemma ExitEnds(states: seq<State>, n: nat, init: nat, p: nat) returns (more: seq<State>)
    requires Runs(states, n, init) && p < n && Sized(Last(states), n) && Alone(Last(states), n, p)
    requires Last(states).pc[p].ExitAcquire?
    ensures states <= more && Runs(more, n, init) && Sized(Last(more), n) && Last(more).st[p].Zombie?
  {
    more := CallEnds(states, n, init, p, map[], p, 0);
  }

  // ---- the status of an exit

  /** The status with which process p is on its way out. */
  function StatusOf(pc: Pc): (status: Option<int>) {
    match pc
    case ExitAcquire(status) => Some(status)
    case Reparent(status, i) => Some(status)
    case WakeParent(status) => Some(status)
    case Wake(ch, j, k) => Some(k.status)
    case WakeTest(ch, j, k) => Some(k.status)
    case WakeDrop(ch, j, k) => Some(k.status)
    case ExitLock(status) => Some(status)
    case ExitZombie(status) => Some(status)
    case _ => None
  }

  /** The process in slot p exits with this status, is a zombie with it, or was reaped with it. */
  ghost predicate Carries(s: State, n: nat, p: nat, pid: nat, status: int)
    requires Sized(s, n) && p < n
  {
    || (pid in s.reaps && s.reaps[pid].status == status)
    || (s.pid[p] == pid && StatusOf(s.pc[p]) == Some(status))
    || (s.pid[p] == pid && s.st[p].Zombie? && s.xstate[p] == status)
  }

  lemma CarriesSelf(s: State, n: nat, init: nat, ch: Choice, p: nat, pid: nat, status: int)
    requires Sized(s, n) && Here(s, n, p) && Enabled(s, n, init, p, ch) && Carries(s, n, p, pid, status)
    requires pid !in s.reaps
    ensures Carries(Next(s, n, init, p, ch), n, p, pid, status)
  {
    hide NextChan, NextPlock, NextKilled, NextExits, NextWlock, NextParent, Locks, WaitAt, PlockAt, ClaimAt, ParentAt,
         HistAt, Held, Enabled;
  }

  lemma CarriesOther(s: State, n: nat, init: nat, x: nat, ch: Choice, p: nat, pid: nat, status: int)
    requires Sized(s, n) && Here(s, n, x) && Here(s, n, p) && Enabled(s, n, init, x, ch)
    requires x != p && Carries(s, n, p, pid, status) && pid !in s.reaps
    ensures Carries(Next(s, n, init, x, ch), n, p, pid, status)
  {
    hide NextPc, NextChan, NextPlock, NextKilled, NextExits, NextWlock, NextParent, Locks, WaitAt, PlockAt, ParentAt,
         HistAt, Held, Enabled;
  }

  lemma ReapedKept(s: State, n: nat, init: nat, x: nat, ch: Choice, pid: nat)
    requires Sized(s, n) && Here(s, n, x) && Enabled(s, n, init, x, ch) && pid in s.reaps
    requires s.pc[x].Reap? ==> s.pc[x].i < n && Here(s, n, s.pc[x].i)
    ensures var s' := Next(s, n, init, x, ch); pid in s'.reaps && s'.reaps[pid] == s.reaps[pid]
  {
    hide NextPc, NextSt, NextChan, NextXstate, NextPids, NextPlock, NextKilled, NextExits, NextWlock, NextParent, Locks,
         WaitAt, PlockAt, ParentAt, StateAt, ClaimAt;
  }

  /** A live process and a zombie are not reaped. */
  lemma ReapedWith(s: State, n: nat, p: nat, pid: nat, status: int)
    requires Sized(s, n) && Here(s, n, p) && pid in s.reaps && Carries(s, n, p, pid, status)
    ensures s.reaps[pid].status == status
  {
    hide WaitAt, PlockAt, ParentAt, ReapAt, ClaimAt;
  }

  lemma CarriesStep(s: State, n: nat, init: nat, x: nat, ch: Choice, p: nat, pid: nat, status: int)
    requires Inv(s, n, init) && p < n && Enabled(s, n, init, x, ch) && Carries(s, n, p, pid, status)
    ensures Carries(Next(s, n, init, x, ch), n, p, pid, status)
  {
    assert Here(s, n, x) && Here(s, n, p);
    if pid in s.reaps {
      assert s.pc[x].Reap? ==> Here(s, n, s.pc[x].i);
      ReapedKept(s, n, init, x, ch, pid);
      ReapedWith(s, n, p, pid, status);
    } else if x == p {
      CarriesSelf(s, n, init, ch, p, pid, status);
    } else {
      CarriesOther(s, n, init, x, ch, p, pid, status);
    }
    hide Inv, Here, Next, Enabled;
  }

  lemma ExitCalled(s: State, n: nat, init: nat, p: nat, status: int)
    requires Sized(s, n) && p < n && s.pc[p].User?
    ensures Carries(Next(s, n, init, p, DoExit(status)), n, p, s.pid[p], status)
  {
    hide NextSt, NextChan, NextPlock, NextKilled, NextExits, NextWlock, NextParent, Locks;
  }

  /** exit(status) and wait: whatever else happens, the process that has called exit with a status keeps it until it
      is reaped, and kwait returns that status. */
  lemma {:induction false} ExitStatus(states: seq<State>, n: nat, init: nat, i: nat, p: nat, status: int, j: nat)
    requires Runs(states, n, init) && i < j < |states| && p < n && Sized(states[i], n) && states[i].pc[p].User?
    requires Enabled(states[i], n, init, p, DoExit(status))
             && states[i + 1] == Next(states[i], n, init, p, DoExit(status))
    ensures Sized(states[j], n) && Carries(states[j], n, p, states[i].pid[p], status)
    ensures states[i].pid[p] in states[j].reaps ==> states[j].reaps[states[i].pid[p]].status == status
    decreases j
  {
    var pid := states[i].pid[p];
    if j == i + 1 {
      ExitCalled(states[i], n, init, p, status);
    } else {
      hide Carries, Next;
      ExitStatus(states, n, init, i, p, status, j - 1);
      RunOk(states, n, init, j - 1);
      assert Steps(states[j - 1], states[j - 1 + 1], n, init);
      var x: nat, ch: Choice :| Enabled(states[j - 1], n, init, x, ch)
                                && states[j] == Next(states[j - 1], n, init, x, ch);
      CarriesStep(states[j - 1], n, init, x, ch, p, pid, status);
    }
    if pid in states[j].reaps {
      RunOk(states, n, init, j);
      assert Here(states[j], n, p);
      ReapedWith(states[j], n, p, pid, status);
    }
  }

  // ---- kill

  /** kkill wakes a victim that sleeps in kwait, and marks it. */
  lemma KillWakes(states: seq<State>, n: nat, init: nat, i: nat, x: nat, ch: Choice)
    requires Runs(states, n, init) && i < |states| && x < n && Sized(states[i], n) && states[i].pc[x].KillTest?
    ensures var s, s', v := states[i], Next(states[i], n, init, x, ch), states[i].pc[x].v;
            && v < n && s'.killed[v] && !s'.st[v].Sleeping?
            && (s.pc[v].Asleep? ==> Leaving(s', n, v))
  {
    RunOk(states, n, init, i);
    var s := states[i];
    assert Here(s, n, x);
    assert Here(s, n, s.pc[x].v);
    hide Inv, Runs, NextChan, NextXstate, NextPids, NextPlock, NextExits, NextWlock, NextReaps, NextParent, WaitAt,
         ClaimAt, ParentAt, ReapAt, HistAt;
  }

  /** A killed process that is in kwait, and not past the test for it, returns: whenever no other process holds a
      lock, its own steps lead back to user space. */
  lemma KilledReturns(states: seq<State>, n: nat, init: nat, p: nat) returns (more: seq<State>)
    requires Runs(states, n, init) && p < n && Sized(Last(states), n) && Alone(Last(states), n, p)
    requires Leaving(Last(states), n, p)
    ensures states <= more && Runs(more, n, init) && Sized(Last(more), n) && Last(more).pc[p].User?
  {
    more := CallEnds(states, n, init, p, map[], p, 0);
  }
}
