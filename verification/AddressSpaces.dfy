/** The address spaces of all processes over their whole lives (kernel/proc.c, kernel/sysproc.c). */
module AddressSpaces {
  import opened Collections
  import opened Kalloc
  import opened PageTable
  import opened Vm
  import opened UserVm
  import opened FreeVm
  import opened ProcVm

  const NPROC := 64
  const TWO64: nat := 0x1_0000_0000_0000_0000

  /** The memory of a process: its page table, its size in bytes and its trapframe page. */
  datatype Proc = Proc(root: nat, sz: nat, trapframe: nat)

  /** The pages a process is responsible for. */
  ghost function Owned(p: Proc, t: Table): (s: set<nat>) { InUse(t) + {p.trapframe} }

  /** The entries below the size are for the user, trampoline and trapframe are not. */
  ghost predicate UserEntries(leaf: map<nat, nat>) {
    forall v :: v in leaf ==> (IsUser(leaf[v]) <==> IsUserPage(v)) && CanRead(leaf[v])
  }

  ghost predicate ProcOk(mem: map<nat, Page>, free: seq<nat>, p: Proc, t: Table, trampoline: nat) {
    && SpaceOk(mem, free, t) && t.root == p.root
    && p.trapframe in mem && p.trapframe !in Elems(free) && p.trapframe !in InUse(t) && p.trapframe % PGSIZE == 0
    && p.sz <= TRAPFRAME * PGSIZE && Layout(t.leaf, p.sz)
    && UserEntries(t.leaf)
    && TRAMPOLINE in t.leaf && t.leaf[TRAMPOLINE] == MakePte(trampoline, PTE_R + PTE_X)
    && TRAPFRAME in t.leaf && t.leaf[TRAPFRAME] == MakePte(p.trapframe, PTE_R + PTE_W)
  }

  // ---- sharing out a set of pages

  ghost predicate InSome(owns: seq<set<nat>>, p: nat) { exists i :: 0 <= i < |owns| && p in owns[i] }

  /** Every page of `all` is free or belongs to exactly one process. */
  ghost predicate Parted(free: set<nat>, owns: seq<set<nat>>, all: set<nat>) {
    && (forall i :: 0 <= i < |owns| ==> owns[i] !! free)
    && (forall i, j :: 0 <= i < j < |owns| ==> owns[i] !! owns[j])
    && (forall p :: p in all <==> p in free || InSome(owns, p))
  }

  lemma PartChange(free: set<nat>, owns: seq<set<nat>>, all: set<nat>, i: nat, free': set<nat>, own': set<nat>)
    requires Parted(free, owns, all) && i < |owns|
    requires free' + own' == free + owns[i] && free' !! own'
    ensures Parted(free', owns[i := own'], all)
  {
    var owns' := owns[i := own'];
    forall p ensures p in all <==> p in free' || InSome(owns', p) {
      if p in own' { assert p in owns'[i]; }
      if InSome(owns, p) {
        var j :| 0 <= j < |owns| && p in owns[j];
        if j != i { assert p in owns'[j]; }
      }
      if InSome(owns', p) {
        var j :| 0 <= j < |owns'| && p in owns'[j];
        if j != i { assert p in owns[j]; } else { assert p in free || p in owns[i]; }
      }
    }
  }

  lemma PartAdd(free: set<nat>, owns: seq<set<nat>>, all: set<nat>, free': set<nat>, own: set<nat>)
    requires Parted(free, owns, all) && free' + own == free && free' !! own
    ensures Parted(free', owns + [own], all)
  {
    var owns' := owns + [own];
    forall p ensures p in all <==> p in free' || InSome(owns', p) {
      if p in own { assert p in owns'[|owns|]; }
      if InSome(owns, p) {
        var j :| 0 <= j < |owns| && p in owns[j];
        assert p in owns'[j];
      }
    }
  }

  lemma PartRemove(free: set<nat>, owns: seq<set<nat>>, all: set<nat>, i: nat, free': set<nat>)
    requires Parted(free, owns, all) && i < |owns| && free' == free + owns[i]
    ensures Parted(free', owns[..i] + owns[i + 1..], all)
  {
    var owns' := owns[..i] + owns[i + 1..];
    forall p ensures p in all <==> p in free' || InSome(owns', p) {
      if InSome(owns, p) {
        var j :| 0 <= j < |owns| && p in owns[j];
        if j < i { assert p in owns'[j]; } else if j > i { assert p in owns'[j - 1]; }
      }
      if InSome(owns', p) {
        var j :| 0 <= j < |owns'| && p in owns'[j];
        assert p in owns[if j < i then j else j + 1];
      }
    }
  }

  lemma PartNone(free: set<nat>, all: set<nat>)
    requires Parted(free, [], all)
    ensures free == all
  {
    forall p ensures p in all <==> p in free { assert !InSome([], p); }
  }

  // ---- all processes

  ghost function Owns(ps: seq<Proc>, ts: seq<Table>): (owns: seq<set<nat>>)
    requires |ps| == |ts|
    ensures |owns| == |ps| && forall i :: 0 <= i < |ps| ==> owns[i] == Owned(ps[i], ts[i])
  {
    seq(|ps|, i requires 0 <= i < |ps| => Owned(ps[i], ts[i]))
  }

  /** Every process is in order, and the pages are shared out among the free list and the processes. */
  ghost predicate World(mem: map<nat, Page>, free: seq<nat>, ps: seq<Proc>, ts: seq<Table>, all: set<nat>,
                        trampoline: nat) {
    && |ps| == |ts|
    && (forall i :: 0 <= i < |ps| ==> ProcOk(mem, free, ps[i], ts[i], trampoline))
    && Parted(Elems(free), Owns(ps, ts), all)
  }

  /** The pages of a process hold what they held. */
  ghost predicate SamePages(mem: map<nat, Page>, mem': map<nat, Page>, s: set<nat>) {
    forall q :: q in s ==> q in mem && q in mem' && mem'[q] == mem[q]
  }

  /** No page of a process other than i changed. */
  ghost predicate Isolated(mem: map<nat, Page>, mem': map<nat, Page>, ps: seq<Proc>, ts: seq<Table>, i: int)
    requires |ps| == |ts|
  {
    forall j :: 0 <= j < |ps| && j != i ==> SamePages(mem, mem', Owned(ps[j], ts[j]))
  }

  lemma ProcFrame(mem: map<nat, Page>, free: seq<nat>, mem': map<nat, Page>, free': seq<nat>, p: Proc, t: Table,
                  trampoline: nat)
    requires ProcOk(mem, free, p, t, trampoline) && Owned(p, t) !! Elems(free') && SamePages(mem, mem', Owned(p, t))
    ensures ProcOk(mem', free', p, t, trampoline)
  {
    hide SpaceOk, InUse, Elems, Layout, MakePte;
    assert InUse(t) <= Owned(p, t);
    assert p.trapframe in Owned(p, t);
    SpaceFrame(mem, free, mem', free', t);
  }

  lemma OwnsIn(mem: map<nat, Page>, free: seq<nat>, p: Proc, t: Table, trampoline: nat)
    requires ProcOk(mem, free, p, t, trampoline)
    ensures Owned(p, t) <= mem.Keys && Owned(p, t) !! Elems(free)
  {
    hide InUse, Elems, Rep, Shape, PtPages, UserFrames, Layout, MakePte;
  }

  /** The processes that an operation does not touch. */
  lemma OthersOk(mem: map<nat, Page>, free: seq<nat>, ps: seq<Proc>, ts: seq<Table>, all: set<nat>, trampoline: nat,
                 j: nat, mem': map<nat, Page>, free': seq<nat>, touched: set<nat>)
    requires World(mem, free, ps, ts, all, trampoline) && j < |ps|
    requires SameOutside(mem, mem', touched) && Owned(ps[j], ts[j]) !! touched && Elems(free') <= touched
    ensures ProcOk(mem', free', ps[j], ts[j], trampoline) && SamePages(mem, mem', Owned(ps[j], ts[j]))
  {
    hide Parted, Elems, Owned;
    assert ProcOk(mem, free, ps[j], ts[j], trampoline);
    hide ProcOk;
    OwnsIn(mem, free, ps[j], ts[j], trampoline);
    ProcFrame(mem, free, mem', free', ps[j], ts[j], trampoline);
  }

  lemma WorldChange(mem: map<nat, Page>, free: seq<nat>, ps: seq<Proc>, ts: seq<Table>, all: set<nat>, trampoline: nat,
                    i: nat, mem': map<nat, Page>, free': seq<nat>, p': Proc, t': Table)
    requires World(mem, free, ps, ts, all, trampoline) && i < |ps|
    requires ProcOk(mem', free', p', t', trampoline)
    requires Elems(free') + Owned(p', t') == Elems(free) + Owned(ps[i], ts[i])
    requires SameOutside(mem, mem', Elems(free) + Owned(ps[i], ts[i]))
    ensures World(mem', free', ps[i := p'], ts[i := t'], all, trampoline) && Isolated(mem, mem', ps, ts, i)
  {
    hide ProcOk, Owned, Elems, SamePages;
    OwnsIn(mem', free', p', t', trampoline);
    PartChange(Elems(free), Owns(ps, ts), all, i, Elems(free'), Owned(p', t'));
    assert Owns(ps[i := p'], ts[i := t']) == Owns(ps, ts)[i := Owned(p', t')];
    var touched := Elems(free) + Owned(ps[i], ts[i]);
    forall j | 0 <= j < |ps| && j != i
      ensures ProcOk(mem', free', ps[j], ts[j], trampoline) && SamePages(mem, mem', Owned(ps[j], ts[j]))
    {
      assert Owns(ps, ts)[j] !! Owns(ps, ts)[i] && Owns(ps, ts)[j] !! Elems(free);
      OthersOk(mem, free, ps, ts, all, trampoline, j, mem', free', touched);
    }
  }

  lemma WorldAdd(mem: map<nat, Page>, free: seq<nat>, ps: seq<Proc>, ts: seq<Table>, all: set<nat>, trampoline: nat,
                 mem': map<nat, Page>, free': seq<nat>, p: Proc, t: Table)
    requires World(mem, free, ps, ts, all, trampoline) && ProcOk(mem', free', p, t, trampoline)
    requires Elems(free') + Owned(p, t) == Elems(free) && SameOutside(mem, mem', Elems(free))
    ensures World(mem', free', ps + [p], ts + [t], all, trampoline) && Isolated(mem, mem', ps, ts, -1)
  {
    hide ProcOk, Owned, Elems, SamePages;
    OwnsIn(mem', free', p, t, trampoline);
    PartAdd(Elems(free), Owns(ps, ts), all, Elems(free'), Owned(p, t));
    assert Owns(ps + [p], ts + [t]) == Owns(ps, ts) + [Owned(p, t)];
    forall j | 0 <= j < |ps|
      ensures ProcOk(mem', free', ps[j], ts[j], trampoline) && SamePages(mem, mem', Owned(ps[j], ts[j]))
    {
      assert Owns(ps, ts)[j] !! Elems(free);
      OthersOk(mem, free, ps, ts, all, trampoline, j, mem', free', Elems(free));
    }
  }

  lemma WorldSame(mem: map<nat, Page>, free: seq<nat>, ps: seq<Proc>, ts: seq<Table>, all: set<nat>, trampoline: nat,
                  mem': map<nat, Page>, free': seq<nat>)
    requires World(mem, free, ps, ts, all, trampoline)
    requires Elems(free') == Elems(free) && SameOutside(mem, mem', Elems(free))
    ensures World(mem', free', ps, ts, all, trampoline) && Isolated(mem, mem', ps, ts, -1)
  {
    hide ProcOk, Owned, Elems, SamePages;
    forall j | 0 <= j < |ps|
      ensures ProcOk(mem', free', ps[j], ts[j], trampoline) && SamePages(mem, mem', Owned(ps[j], ts[j]))
    {
      assert Owns(ps, ts)[j] !! Elems(free);
      OthersOk(mem, free, ps, ts, all, trampoline, j, mem', free', Elems(free));
    }
  }

  lemma WorldRemove(mem: map<nat, Page>, free: seq<nat>, ps: seq<Proc>, ts: seq<Table>, all: set<nat>, trampoline: nat,
                    i: nat, mem': map<nat, Page>, free': seq<nat>)
    requires World(mem, free, ps, ts, all, trampoline) && i < |ps|
    requires Elems(free') == Elems(free) + Owned(ps[i], ts[i])
    requires SameOutside(mem, mem', Elems(free) + Owned(ps[i], ts[i]))
    ensures World(mem', free', Remove(ps, i), Remove(ts, i), all, trampoline) && Isolated(mem, mem', ps, ts, i)
  {
    hide ProcOk, Owned, Elems, SamePages;
    PartRemove(Elems(free), Owns(ps, ts), all, i, Elems(free'));
    assert Owns(Remove(ps, i), Remove(ts, i)) == Owns(ps, ts)[..i] + Owns(ps, ts)[i + 1..];
    forall j | 0 <= j < |ps| && j != i
      ensures ProcOk(mem', free', ps[j], ts[j], trampoline) && SamePages(mem, mem', Owned(ps[j], ts[j]))
    {
      assert Owns(ps, ts)[j] !! Owns(ps, ts)[i] && Owns(ps, ts)[j] !! Elems(free);
      OthersOk(mem, free, ps, ts, all, trampoline, j, mem', free', Elems(free'));
    }
  }

  // ---- one process under one operation

  /** The size sbrk asks for: uint64 arithmetic. */
  function NewSize(sz: nat, n: int): (r: nat) { (sz + n) % TWO64 }

  /** An operation that exchanges pages between one address space and the free list keeps the process. */
  lemma ProcKept(mem: map<nat, Page>, free: seq<nat>, p: Proc, t: Table, trampoline: nat,
                 mem': map<nat, Page>, free': seq<nat>, t': Table, sz: nat)
    requires ProcOk(mem, free, p, t, trampoline) && SpaceOk(mem', free', t') && Kept(mem, free, t, mem', free', t', {})
    requires sz <= TRAPFRAME * PGSIZE && Layout(t'.leaf, sz) && UserEntries(t'.leaf)
    requires forall v :: v == TRAMPOLINE || v == TRAPFRAME ==> v in t'.leaf && v in t.leaf && t'.leaf[v] == t.leaf[v]
    ensures ProcOk(mem', free', p.(sz := sz), t', trampoline)
    ensures Elems(free') + Owned(p.(sz := sz), t') == Elems(free) + Owned(p, t)
    ensures SameOutside(mem, mem', Elems(free) + Owned(p, t))
  {
    hide SpaceOk, InUse, Elems, Layout, MakePte;
  }

  lemma GrowArgs(leaf: map<nat, nat>, sz: nat, sz': nat)
    requires Layout(leaf, sz) && sz <= sz' <= TRAPFRAME * PGSIZE
    ensures PagesOf(sz) <= PagesOf(sz') <= TRAPFRAME
    ensures forall v :: PagesOf(sz) <= v < PagesOf(sz') ==> v !in leaf
    ensures Layout(leaf, sz')
  {
    PagesMono(sz, sz');
    PagesMono(sz', TRAPFRAME * PGSIZE);
    RoundedIs(TRAPFRAME * PGSIZE);
    HighPages();
    hide PagesOf;
  }

  /** After growing: new entries lie between the two sizes. */
  lemma GrownLayout(leaf: map<nat, nat>, leaf': map<nat, nat>, sz: nat, sz': nat)
    requires Layout(leaf, sz) && PagesOf(sz) <= PagesOf(sz') <= TRAPFRAME
    requires Without(leaf', PagesOf(sz), PagesOf(sz') - PagesOf(sz)) == leaf
    ensures Layout(leaf', sz')
    ensures forall v :: v in leaf ==> v in leaf' && leaf'[v] == leaf[v]
    ensures forall v :: v in leaf' ==> PagesOf(sz) <= v < PagesOf(sz') || (v in leaf && leaf'[v] == leaf[v])
  {
    hide PagesOf;
    var w := Without(leaf', PagesOf(sz), PagesOf(sz') - PagesOf(sz));
    forall v | v in leaf'
      ensures v < PagesOf(sz') || v == TRAMPOLINE || v == TRAPFRAME
      ensures PagesOf(sz) <= v < PagesOf(sz') || (v in leaf && leaf'[v] == leaf[v])
    {
      if !(PagesOf(sz) <= v < PagesOf(sz')) { assert v in w; }
    }
    forall v | v in leaf ensures v in leaf' && leaf'[v] == leaf[v] { assert v in w; }
  }

  lemma GrownEntries(leaf: map<nat, nat>, t': Table, lo: nat, hi: nat, write: bool, exec: bool)
    requires UserEntries(leaf) && Usable(t', lo, hi, write, exec) && hi <= TRAPFRAME
    requires forall v :: v in t'.leaf ==> lo <= v < hi || (v in leaf && t'.leaf[v] == leaf[v])
    ensures UserEntries(t'.leaf)
  {
    hide IsUser, CanRead, CanWrite, CanExec;
  }

  lemma ShrunkLayout(leaf: map<nat, nat>, sz: nat, sz': nat)
    requires Layout(leaf, sz) && sz' <= sz <= TRAPFRAME * PGSIZE
    ensures PagesOf(sz') <= PagesOf(sz) <= TRAPFRAME
    ensures var leaf' := Without(leaf, PagesOf(sz'), PagesOf(sz) - PagesOf(sz'));
            && Layout(leaf', sz')
            && forall v :: v == TRAMPOLINE || v == TRAPFRAME ==>
                 (v in leaf <==> v in leaf') && (v in leaf ==> leaf'[v] == leaf[v])
    ensures UserEntries(leaf) ==> UserEntries(Without(leaf, PagesOf(sz'), PagesOf(sz) - PagesOf(sz')))
  {
    GrowArgs(map[], sz', sz);
    hide PagesOf, IsUser, CanRead;
  }

  /** Entries and bytes of user pages mapped before and after are the same. */
  lemma DataGrown(mem: map<nat, Page>, mem': map<nat, Page>, t: Table, t': Table)
    requires SameUser(mem, mem', t) && forall v :: v in t.leaf ==> v in t'.leaf && t'.leaf[v] == t.leaf[v]
    ensures SameData(mem, t, mem', t')
  {
    hide Pte2Pa;
    forall v | v in t.leaf && IsUserPage(v) ensures Frame(t, v) in UserFrames(t) { }
  }

  lemma DataShrunk(mem: map<nat, Page>, mem': map<nat, Page>, t: Table, t': Table)
    requires SameUser(mem, mem', t') && forall v :: v in t'.leaf ==> v in t.leaf && t'.leaf[v] == t.leaf[v]
    ensures SameData(mem, t, mem', t')
  {
    hide Pte2Pa;
    forall v | v in t'.leaf && IsUserPage(v) ensures Frame(t', v) in UserFrames(t') { }
  }

  /** What the processes do to their address spaces. */
  datatype Op =
    | Start
    | SysSbrk(i: nat, n: int, eager: bool)
    | PageFault(i: nat, va: nat)
    | ForkProc(i: nat)
    | ExitProc(i: nat)

  // ---- the process table

  lemma Nothing(mem: map<nat, Page>, free: seq<nat>, ps: seq<Proc>, ts: seq<Table>, all: set<nat>, trampoline: nat)
    requires World(mem, free, ps, ts, all, trampoline)
    ensures |ps| == |ts| && forall i :: Isolated(mem, mem, ps, ts, i)
  {
    hide Elems, Parted, Owned;
    forall j | 0 <= j < |ps| ensures SamePages(mem, mem, Owned(ps[j], ts[j])) {
      assert ProcOk(mem, free, ps[j], ts[j], trampoline);
      OwnsIn(mem, free, ps[j], ts[j], trampoline);
    }
  }

  lemma NewKept(m0: map<nat, Page>, f0: seq<nat>, m1: map<nat, Page>, f1: seq<nat>, m2: map<nat, Page>, f2: seq<nat>,
                used: set<nat>, trapframe: nat)
    requires Elems(f0) == Elems(f1) + {trapframe} && trapframe !in Elems(f1) && trapframe in m1
    requires m1.Keys == m0.Keys && forall q :: q in m1 && q != trapframe ==> m1[q] == m0[q]
    requires SameOutside(m1, m2, Elems(f1)) && Elems(f2) + used == Elems(f1)
    ensures Elems(f2) + (used + {trapframe}) == Elems(f0) && SameOutside(m0, m2, Elems(f0))
    ensures trapframe !in Elems(f2) && trapframe !in used && trapframe in m2 && m2.Keys == m1.Keys
  {
    hide Elems;
  }

  lemma NewGone(m0: map<nat, Page>, f0: seq<nat>, f1: seq<nat>, m2: map<nat, Page>, f2: seq<nat>,
                m3: map<nat, Page>, f3: seq<nat>, trapframe: nat)
    requires Elems(f0) == Elems(f1) + {trapframe} && Elems(f2) == Elems(f1) && Elems(f3) == Elems(f2) + {trapframe}
    requires SameOutside(m0, m2, Elems(f0)) && m3.Keys == m2.Keys && forall q :: q in m2 && q != trapframe ==>
             m3[q] == m2[q]
    ensures Elems(f3) == Elems(f0) && SameOutside(m0, m3, Elems(f0))
  {
    hide Elems;
  }

  lemma StartEntries(trampoline: nat, trapframe: nat)
    requires trampoline % PGSIZE == 0 && trapframe % PGSIZE == 0
    ensures UserEntries(StartLeaf(trampoline, trapframe))
  {
    PteRoundTrip(trampoline, PTE_R + PTE_X);
    PteRoundTrip(trapframe, PTE_R + PTE_W);
    hide MakePte, Pte2Pa, PteFlags, HasRwx, CanWrite, CanExec;
  }

  lemma NewProc(mem: map<nat, Page>, free: seq<nat>, p: Proc, t: Table, trampoline: nat)
    requires SpaceOk(mem, free, t) && t.root == p.root && p.sz == 0 && t.leaf == StartLeaf(trampoline, p.trapframe)
    requires p.trapframe in mem && p.trapframe !in Elems(free) && p.trapframe !in InUse(t) && p.trapframe % PGSIZE == 0
    requires trampoline % PGSIZE == 0
    ensures ProcOk(mem, free, p, t, trampoline)
  {
    hide SpaceOk, InUse, Elems, MakePte, UserEntries;
    StartEntries(trampoline, p.trapframe);
  }

  lemma StaySame(mem: map<nat, Page>, free: seq<nat>, p: Proc, t: Table, trampoline: nat)
    requires ProcOk(mem, free, p, t, trampoline)
    ensures Kept(mem, free, t, mem, free, t, {}) && SameData(mem, t, mem, t)
  {
    hide Elems, PtPages, Rep, Shape, Layout, MakePte;
    forall v | v in t.leaf && IsUserPage(v) ensures Frame(t, v) in mem {
      assert Frame(t, v) in UserFrames(t);
    }
  }

  /** walkaddr finds exactly the mapped pages below the size. */
  lemma FoundAt(mem: map<nat, Page>, head: nat, free: seq<nat>, p: Proc, t: Table, trampoline: nat, va: nat)
    requires ProcOk(mem, free, p, t, trampoline) && FreeOk(mem, head, free)
    ensures Translates(t, va) != 0 <==> Vpn(va) < PagesOf(p.sz) && Vpn(va) in t.leaf
    ensures PagesOf(p.sz) <= TRAPFRAME
  {
    GrowArgs(t.leaf, p.sz, p.sz);
    if Vpn(va) < TRAPFRAME { InTable(va); }
    var v := Vpn(va);
    hide Vpn, PagesOf, IsUser, CanRead, Elems, Rep, Shape, PtPages, MakePte, Listed;
    if v in t.leaf && IsUserPage(v) {
      assert Frame(t, v) in UserFrames(t);
      assert Frame(t, v) in mem;
    }
  }

  lemma NotFound(t: Table, t': Table, va: nat, pa: nat)
    requires Translates(t, va) == 0 && (pa == 0 ==> t'.leaf == t.leaf) && (pa != 0 ==> Translates(t', va) == pa)
    ensures pa == Translates(t', va)
  {
  }

  /** PGROUNDDOWN */
  lemma RoundedDown(va: nat, sz: nat)
    ensures var va0 := va / PGSIZE * PGSIZE; Vpn(va0) == Vpn(va) && (va0 < sz <==> Vpn(va) < PagesOf(sz))
  {
  }

  /** walkaddr finds a page by any of its addresses. */
  lemma PageFound(t: Table, va: nat)
    ensures Translates(t, va / PGSIZE * PGSIZE) == Translates(t, va)
  {
    RoundedDown(va, MAXVPN * PGSIZE);
    RoundedIs(MAXVPN * PGSIZE);
  }

  /** One process of the table. */
  lemma OneProc(mem: map<nat, Page>, free: seq<nat>, ps: seq<Proc>, ts: seq<Table>, all: set<nat>, trampoline: nat,
                i: nat)
    requires World(mem, free, ps, ts, all, trampoline) && i < |ps|
    ensures |ps| == |ts| && ProcOk(mem, free, ps[i], ts[i], trampoline) && Isolated(mem, mem, ps, ts, i)
    ensures Kept(mem, free, ts[i], mem, free, ts[i], {}) && SameData(mem, ts[i], mem, ts[i])
  {
    hide ProcOk, Parted;
    Nothing(mem, free, ps, ts, all, trampoline);
    assert ProcOk(mem, free, ps[i], ts[i], trampoline);
    StaySame(mem, free, ps[i], ts[i], trampoline);
  }

  lemma FaultLayout(leaf: map<nat, nat>, leaf': map<nat, nat>, sz: nat, va: nat, pa: nat)
    requires Layout(leaf, sz) && sz <= TRAPFRAME * PGSIZE
    requires pa == 0 ==> leaf' == leaf
    requires pa != 0 ==> va < sz && Vpn(va) !in leaf && leaf' == leaf[Vpn(va) := MakePte(pa, PTE_W + PTE_U + PTE_R)]
    requires UserEntries(leaf) && (pa != 0 ==> Permits(leaf'[Vpn(va)], true, false))
    ensures Layout(leaf', sz) && forall v :: v in leaf ==> v in leaf' && leaf'[v] == leaf[v]
    ensures UserEntries(leaf')
  {
    GrowArgs(leaf, sz, sz);
    if pa != 0 { FaultPage(va, sz); }
    hide PagesOf, MakePte, IsUser, CanRead, CanWrite, CanExec;
  }

  lemma TrapframeGone(mem: map<nat, Page>, free: seq<nat>, mem': map<nat, Page>, free': seq<nat>, p: Proc, t: Table,
                      trampoline: nat)
    requires ProcOk(mem, free, p, t, trampoline)
    requires Elems(free') == Elems(free) + {p.trapframe} && mem'.Keys == mem.Keys
    requires forall q :: q in mem && q != p.trapframe ==> mem'[q] == mem[q]
    ensures SpaceOk(mem', free', t)
  {
    OwnsIn(mem, free, p, t, trampoline);
    hide SpaceOk, InUse, Elems, Layout, MakePte;
    SpaceFrame(mem, free, mem', free', t);
  }

  lemma AllGone(m0: map<nat, Page>, f0: seq<nat>, m1: map<nat, Page>, f1: seq<nat>, m2: map<nat, Page>, f2: seq<nat>,
                p: Proc, t: Table)
    requires Elems(f1) == Elems(f0) + {p.trapframe} && m1.Keys == m0.Keys
    requires forall q :: q in m0 && q != p.trapframe ==> m1[q] == m0[q]
    requires Elems(f2) == Elems(f1) + InUse(t) && SameOutside(m1, m2, Elems(f1) + InUse(t))
    ensures Elems(f2) == Elems(f0) + Owned(p, t) && SameOutside(m0, m2, Elems(f0) + Owned(p, t))
  {
    hide Elems, InUse;
  }

  lemma ParentSize(mem: map<nat, Page>, free: seq<nat>, p: Proc, t: Table, trampoline: nat)
    requires ProcOk(mem, free, p, t, trampoline)
    ensures PagesOf(p.sz) <= TRAPFRAME
  {
    hide SpaceOk, InUse, Elems, MakePte, PagesOf, Layout;
    GrowArgs(t.leaf, p.sz, p.sz);
  }

  lemma StartsAbove(trampoline: nat, trapframe: nat, n: nat)
    requires n <= TRAPFRAME
    ensures forall v :: v in StartLeaf(trampoline, trapframe) ==> v >= n
    ensures Layout(StartLeaf(trampoline, trapframe), 0)
  {
    hide MakePte, PagesOf;
  }

  /** What fork knows of the parent i and the new process k. */
  lemma TwoProcs(mem: map<nat, Page>, free: seq<nat>, ps: seq<Proc>, ts: seq<Table>, all: set<nat>, trampoline: nat,
                 i: nat, k: nat)
    requires World(mem, free, ps, ts, all, trampoline) && i < k < |ps|
             && ts[k].leaf == StartLeaf(trampoline, ps[k].trapframe)
    ensures ProcOk(mem, free, ps[i], ts[i], trampoline) && ProcOk(mem, free, ps[k], ts[k], trampoline)
    ensures InUse(ts[i]) !! InUse(ts[k]) && PagesOf(ps[i].sz) <= TRAPFRAME
    ensures forall v :: v in ts[k].leaf ==> v >= PagesOf(ps[i].sz)
    ensures Layout(ts[k].leaf, 0)
  {
    hide Elems, PagesOf, StartLeaf, ProcOk;
    assert ProcOk(mem, free, ps[i], ts[i], trampoline) && ProcOk(mem, free, ps[k], ts[k], trampoline);
    var owns := Owns(ps, ts);
    assert owns[i] !! owns[k] && owns[i] == Owned(ps[i], ts[i]) && owns[k] == Owned(ps[k], ts[k]);
    hide World, InUse;
    ParentSize(mem, free, ps[i], ts[i], trampoline);
    StartsAbove(trampoline, ps[k].trapframe, PagesOf(ps[i].sz));
  }

  /** The child's entries after a successful copy. */
  lemma CopyLayout(start: map<nat, nat>, leaf: map<nat, nat>, sz: nat)
    requires Without(leaf, 0, PagesOf(sz)) == start && Layout(start, 0) && PagesOf(sz) <= TRAPFRAME
    ensures Layout(leaf, sz)
  {
    Pages0();
    hide PagesOf;
    var w := Without(leaf, 0, PagesOf(sz));
    forall v | v in leaf ensures v < PagesOf(sz) || v == TRAMPOLINE || v == TRAPFRAME {
      if v >= PagesOf(sz) { assert v in w; }
    }
  }

  lemma SameBits(w: nat, w': nat)
    requires PteFlags(w) == PteFlags(w')
    ensures (IsUser(w) <==> IsUser(w')) && (CanRead(w) <==> CanRead(w'))
    ensures (CanWrite(w) <==> CanWrite(w')) && (CanExec(w) <==> CanExec(w'))
  {
    assert w == 1024 * (w / 1024) + w % 1024 && w' == 1024 * (w' / 1024) + w' % 1024;
    FlagsOf(w / 1024, w % 1024);
    BitsOf(w / 1024, w % 1024);
    FlagsOf(w' / 1024, w' % 1024);
    BitsOf(w' / 1024, w' % 1024);
  }

  /** The child's user pages can be used like the parent's. */
  lemma CopyEntries(mem: map<nat, Page>, told: Table, start: map<nat, nat>, t: Table, n: nat)
    requires UserEntries(told.leaf) && UserEntries(start) && Copied(mem, told, t, n) && Without(t.leaf, 0, n) == start
    ensures UserEntries(t.leaf)
    ensures forall v: nat :: v < n && v in t.leaf ==>
              && v in told.leaf && (CanWrite(t.leaf[v]) <==> CanWrite(told.leaf[v]))
              && (CanExec(t.leaf[v]) <==> CanExec(told.leaf[v]))
  {
    hide IsUser, CanRead, CanWrite, CanExec, PteFlags, Pte2Pa;
    var w := Without(t.leaf, 0, n);
    forall v | v in t.leaf
      ensures (IsUser(t.leaf[v]) <==> IsUserPage(v)) && CanRead(t.leaf[v])
      ensures v < n ==> v in told.leaf && (CanWrite(t.leaf[v]) <==> CanWrite(told.leaf[v]))
                        && (CanExec(t.leaf[v]) <==> CanExec(told.leaf[v]))
    {
      if v < n {
        assert SamePage(mem, told, t, v);
        SameBits(told.leaf[v], t.leaf[v]);
      } else {
        assert v in w;
      }
    }
  }

  lemma IsolatedTwice(m0: map<nat, Page>, m1: map<nat, Page>, m2: map<nat, Page>, ps: seq<Proc>, ts: seq<Table>,
                      ps': seq<Proc>, ts': seq<Table>, k: nat)
    requires |ps| == |ts| == k < |ps'| && |ps'| == |ts'| && ps'[..k] == ps && ts'[..k] == ts
    requires Isolated(m0, m1, ps, ts, -1) && Isolated(m1, m2, ps', ts', k)
    ensures Isolated(m0, m2, ps, ts, -1)
  {
    hide Owned;
    forall j | 0 <= j < |ps| && j != -1 ensures SamePages(m0, m2, Owned(ps[j], ts[j])) {
      assert ps'[j] == ps[j] && ts'[j] == ts[j];
    }
  }

  // ---- the trapframe of a child

  const TRAPFRAME_WORDS := 36   // words in struct trapframe
  const A0 := 14                // the word of a0

  /** The page after the struct at its beginning was copied from another one and a0 set to 0. */
  function Registers(from: Page, page: Page): (r: Page)
    requires |from| == WORDS && |page| == WORDS
    ensures |r| == WORDS
    ensures forall w :: 0 <= w < TRAPFRAME_WORDS ==> r[w] == if w == A0 then 0 else from[w]
  {
    from[..TRAPFRAME_WORDS][A0 := 0] + page[TRAPFRAME_WORDS..]
  }

  /** The child returns 0 from fork with the parent's other registers. */
  ghost predicate SameRegisters(mem: map<nat, Page>, p: Proc, np: Proc) {
    && p.trapframe in mem && np.trapframe in mem
    && |mem[p.trapframe]| == WORDS && |mem[np.trapframe]| == WORDS
    && forall w :: 0 <= w < TRAPFRAME_WORDS ==>
         mem[np.trapframe][w] == if w == A0 then 0 else mem[p.trapframe][w]
  }

  lemma NotListed(free: seq<nat>, p: nat)
    requires p !in Elems(free)
    ensures p !in free
  {
  }

  lemma OwnTrapframe(mem: map<nat, Page>, head: nat, free: seq<nat>, p: Proc, t: Table, trampoline: nat, page: Page)
    requires FreeOk(mem, head, free) && ProcOk(mem, free, p, t, trampoline) && |page| == WORDS
    ensures p.trapframe in mem && FreeOk(mem[p.trapframe := page], head, free)
    ensures ProcOk(mem[p.trapframe := page], free, p, t, trampoline)
    ensures SamePages(mem, mem[p.trapframe := page], InUse(t))
    ensures SameOutside(mem, mem[p.trapframe := page], Elems(free) + Owned(p, t))
  {
    hide FreeOk, Elems, SpaceOk, Layout, MakePte, InUse;
    NotListed(free, p.trapframe);
    WriteKeepsFree(mem, head, free, p.trapframe, page);
    OwnsIn(mem, free, p, t, trampoline);
    SpaceFrame(mem, free, mem[p.trapframe := page], free, t);
  }

  /** A trapframe page can be written: it is no page-table page, no user page and not free. */
  lemma TrapframeWrite(mem: map<nat, Page>, head: nat, free: seq<nat>, ps: seq<Proc>, ts: seq<Table>, all: set<nat>,
                       trampoline: nat, k: nat, page: Page)
    requires FreeOk(mem, head, free) && World(mem, free, ps, ts, all, trampoline) && k < |ps| && |page| == WORDS
    ensures ps[k].trapframe in mem && FreeOk(mem[ps[k].trapframe := page], head, free)
    ensures World(mem[ps[k].trapframe := page], free, ps, ts, all, trampoline)
    ensures Isolated(mem, mem[ps[k].trapframe := page], ps, ts, k)
    ensures SamePages(mem, mem[ps[k].trapframe := page], InUse(ts[k]))
  {
    hide ProcOk, FreeOk, Elems, Owned, Parted, SameOutside, SamePages, Isolated, InUse;
    var mem' := mem[ps[k].trapframe := page];
    OwnTrapframe(mem, head, free, ps[k], ts[k], trampoline, page);
    hide World;
    WorldChange(mem, free, ps, ts, all, trampoline, k, mem', free, ps[k], ts[k]);
    assert ps[k := ps[k]] == ps && ts[k := ts[k]] == ts;
  }

  lemma TrapframesIn(mem: map<nat, Page>, head: nat, free: seq<nat>, ps: seq<Proc>, ts: seq<Table>, all: set<nat>,
                     trampoline: nat, i: nat, k: nat)
    requires FreeOk(mem, head, free) && World(mem, free, ps, ts, all, trampoline) && i < |ps| && k < |ps| && i != k
    ensures ps[i].trapframe in mem && ps[k].trapframe in mem && ps[i].trapframe != ps[k].trapframe
    ensures |mem[ps[i].trapframe]| == WORDS && |mem[ps[k].trapframe]| == WORDS
  {
    assert ProcOk(mem, free, ps[i], ts[i], trampoline) && ProcOk(mem, free, ps[k], ts[k], trampoline);
    var owns := Owns(ps, ts);
    assert ps[i].trapframe in owns[i] && ps[k].trapframe in owns[k];
    hide ProcOk, Elems, InUse;
  }

  /** The pages of parent and child still agree. */
  lemma CopiedStays(mem: map<nat, Page>, mem': map<nat, Page>, free: seq<nat>, ps: seq<Proc>, ts: seq<Table>,
                    all: set<nat>, trampoline: nat, i: nat, k: nat)
    requires World(mem, free, ps, ts, all, trampoline) && i < |ps| && k < |ps| && i != k
    requires Copied(mem, ts[i], ts[k], PagesOf(ps[i].sz))
    requires Isolated(mem, mem', ps, ts, k) && SamePages(mem, mem', InUse(ts[k]))
    ensures Copied(mem', ts[i], ts[k], PagesOf(ps[i].sz))
  {
    hide Elems, Parted, PagesOf, Frame, PtPages, PteFlags;
    assert ProcOk(mem, free, ps[i], ts[i], trampoline);
    ParentSize(mem, free, ps[i], ts[i], trampoline);
    hide World, ProcOk;
    forall v: nat | v < PagesOf(ps[i].sz) ensures SamePage(mem', ts[i], ts[k], v) {
      assert SamePage(mem, ts[i], ts[k], v);
      if v in ts[i].leaf {
        assert Frame(ts[i], v) in UserFrames(ts[i]) && Frame(ts[k], v) in UserFrames(ts[k]);
        assert Frame(ts[i], v) in Owned(ps[i], ts[i]);
      }
    }
  }

  // ---- growing and shrinking

  /** Every page between the two sizes is mapped to a zeroed frame, found by walkaddr, writable and not executable;
      the other entries are as before. */
  ghost predicate GrewBy(mem: map<nat, Page>, t: Table, t': Table, sz: nat, sz': nat) {
    && PagesOf(sz) <= PagesOf(sz') && Zeroed(mem, t', PagesOf(sz), PagesOf(sz'), PTE_R + PTE_U + PTE_W)
    && Usable(t', PagesOf(sz), PagesOf(sz'), true, false)
    && Without(t'.leaf, PagesOf(sz), PagesOf(sz') - PagesOf(sz)) == t.leaf
  }

  /** The pages between the two sizes are gone, and no others. */
  ghost predicate ShrankBy(t: Table, t': Table, sz: nat, sz': nat) {
    PagesOf(sz') <= PagesOf(sz) && t'.leaf == Without(t.leaf, PagesOf(sz'), PagesOf(sz) - PagesOf(sz'))
  }

  lemma GrewMapped(mem: map<nat, Page>, t: Table, t': Table, sz: nat, sz': nat)
    requires GrewBy(mem, t, t', sz, sz')
    ensures forall v :: PagesOf(sz) <= v < PagesOf(sz') ==> v in t'.leaf
  {
  }

  // ---- when memory suffices

  /** Size limit and free pages let a process grow by n bytes. */
  ghost predicate CanGrow(free: seq<nat>, p: Proc, t: Table, n: int)
    requires p.sz + n >= 0
  {
    && p.sz + n <= TRAPFRAME * PGSIZE
    && |free| >= Need(1, DirsOf(t), All, PagesOf(p.sz), PagesOf(p.sz + n))
  }

  /** The pages that a copy of the user pages takes. */
  ghost function ForkNeed(p: Proc, t: Table): (n: nat) { Need(1, StartDirs(), Only(t.leaf), 0, PagesOf(p.sz)) }

  /** The free pages and the processes at a moment. */
  datatype Moment = Moment(free: seq<nat>, ps: seq<Proc>, ts: seq<Table>)

  predicate IsInt(n: int) { -0x8000_0000 <= n < 0x8000_0000 }

  /** One more process, of this size. */
  ghost predicate Joined(a: Moment, b: Moment, sz: nat) {
    && |b.ps| == |a.ps| + 1 == |b.ts| && |a.ts| == |a.ps|
    && b.ps[..|a.ps|] == a.ps && b.ts[..|a.ps|] == a.ts && b.ps[|a.ps|].sz == sz
  }

  /** What an operation does to the processes; one that names no process, or no int, does nothing. */
  ghost predicate Did(op: Op, a: Moment, b: Moment) {
    |a.ps| == |a.ts| && |b.ps| == |b.ts| &&
    match op
    case Start => if |a.ps| < NPROC && |a.free| >= 4 then Joined(a, b, 0) else b.ps == a.ps && b.ts == a.ts
    case SysSbrk(i, n, eager) =>
      if i >= |a.ps| || !IsInt(n) then b.ps == a.ps && b.ts == a.ts
      else
        var sz := a.ps[i].sz;
        var fails := n > 0 && if eager then !CanGrow(a.free, a.ps[i], a.ts[i], n) else sz + n > TRAPFRAME * PGSIZE;
        && b.ps == (if fails then a.ps else a.ps[i := a.ps[i].(sz := if sz + n < 0 then sz else sz + n)])
        && (eager && n > 0 && !fails ==> forall v :: PagesOf(sz) <= v < PagesOf(sz + n) ==> v in b.ts[i].leaf)
    case PageFault(i, va) =>
      && b.ps == a.ps
      && (i < |a.ps| ==>
            var maps := va < a.ps[i].sz && |a.free| >= 1 + Missing(DirsOf(a.ts[i]), Vpn(va));
            Vpn(va) in b.ts[i].leaf <==> Vpn(va) in a.ts[i].leaf || maps)
    case ForkProc(i) =>
      if i < |a.ps| < NPROC && |a.free| >= 4 + ForkNeed(a.ps[i], a.ts[i]) then Joined(a, b, a.ps[i].sz)
      else b.ps == a.ps && b.ts == a.ts
    case ExitProc(i) => if i < |a.ps| then b.ps == Remove(a.ps, i) && b.ts == Remove(a.ts, i) else b.ps == a.ps
  }

  class Procs {
    const m: Machine
    const trampoline: nat
    var table: seq<Proc>
    ghost var tabs: seq<Table>
    ghost const all: set<nat>

    ghost predicate Valid()
      reads this, m
    {
      m.Valid() && World(m.mem, m.free, table, tabs, all, trampoline) && trampoline % PGSIZE == 0 && |table| <= NPROC
    }

    constructor (machine: Machine, trampolinePage: nat)
      requires machine.Valid() && trampolinePage % PGSIZE == 0
      ensures Valid() && m == machine && trampoline == trampolinePage && table == [] && tabs == []
      ensures all == Elems(machine.free)
    {
      m := machine;
      trampoline := trampolinePage;
      table := [];
      tabs := [];
      all := Elems(machine.free);
      new;
      forall p ensures !InSome(Owns(table, tabs), p) { }
    }

    /** allocproc: a process with an empty address space on four pages, or nothing at all when there are
        fewer or the table is full. */
    method Allocproc() returns (ok: bool)
      requires Valid()
      modifies this, m
      ensures Valid() && Isolated(old(m.mem), m.mem, old(table), old(tabs), -1)
      ensures ok <==> |old(table)| < NPROC && |old(m.free)| >= 4
      ensures !ok ==> table == old(table) && tabs == old(tabs)
      ensures ok ==> |table| == |old(table)| + 1 && table[..|old(table)|] == old(table)
                     && tabs[..|old(table)|] == old(tabs)
      ensures ok ==> var k := |old(table)|;
                     table[k].sz == 0
                     && tabs[k].leaf == StartLeaf(trampoline, table[k].trapframe)
                     && DirsOf(tabs[k]) == StartDirs() && |m.free| == |old(m.free)| - 4
    {
      hide DirsOf, StartDirs;
      hide FreeOk, Elems, SpaceOk, World, Isolated, InUse, SameOutside, StartLeaf;
      Nothing(m.mem, m.free, table, tabs, all, trampoline);
      if |table| == NPROC { return false; }
      var trapframe := m.Kalloc();
      if trapframe == 0 { return false; }
      ghost var mem1, free1 := m.mem, m.free;
      Aligned(m.mem, m.freelist, m.free, trapframe);
      ElemsOf(m.free, trapframe);
      var root;
      ghost var t;
      root, t := ProcPagetable(m, trampoline, trapframe);
      var p := Proc(root, 0, trapframe);
      if root == 0 {
        ElemsOf(m.free, trapframe);
        NewKept(old(m.mem), old(m.free), mem1, free1, m.mem, m.free, {}, trapframe);
        ghost var mem2, free2 := m.mem, m.free;
        m.Kfree(trapframe);
        NewGone(old(m.mem), old(m.free), free1, mem2, free2, m.mem, m.free, trapframe);
        WorldSame(old(m.mem), old(m.free), table, tabs, all, trampoline, m.mem, m.free);
        return false;
      }
      NewKept(old(m.mem), old(m.free), mem1, free1, m.mem, m.free, InUse(t), trapframe);
      NewProc(m.mem, m.free, p, t, trampoline);
      WorldAdd(old(m.mem), old(m.free), table, tabs, all, trampoline, m.mem, m.free, p, t);
      table := table + [p];
      tabs := tabs + [t];
      ok := true;
    }

    /** growproc: more pages, all zeroed, or fewer; when memory runs out, the same pages as before. */
    method Growproc(i: nat, n: int) returns (r: int)
      requires Valid() && i < |table| && -0x8000_0000 <= n < 0x8000_0000
      modifies this, m
      ensures Valid() && |tabs| == |old(tabs)| == |table|
      ensures Isolated(old(m.mem), m.mem, old(table), old(tabs), i) && tabs == old(tabs)[i := tabs[i]]
      ensures r == 0 || r == -1
      ensures r == -1 <==> n > 0 && !CanGrow(old(m.free), old(table)[i], old(tabs)[i], n)
      ensures r == -1 ==> n > 0 && table == old(table) && tabs[i].leaf == old(tabs)[i].leaf
      ensures SameData(old(m.mem), old(tabs)[i], m.mem, tabs[i])
      ensures var sz := old(table)[i].sz;
              && (r == 0 ==> table == old(table)[i := old(table)[i].(sz := if sz + n < 0 then sz else sz + n)])
              && (r == 0 && n > 0 ==> GrewBy(m.mem, old(tabs)[i], tabs[i], sz, sz + n))
              && (r == 0 && n <= 0 <= sz + n ==> ShrankBy(old(tabs)[i], tabs[i], sz, sz + n))
    {
      hide FreeOk, Elems, SpaceOk, World, Isolated, InUse, SameOutside, Layout, Zeroed, SameData, SameUser, Kept,
           PagesOf,
           MakePte, Owned, UserEntries, Usable;
      OneProc(m.mem, m.free, table, tabs, all, trampoline, i);
      var p := table[i];
      ghost var t := tabs[i];
      ghost var t' := t;
      var sz := p.sz;
      assert Without(t.leaf, PagesOf(sz), 0) == t.leaf;
      GrowArgs(t.leaf, sz, sz);
      if n > 0 {
        if sz + n > TRAPFRAME * PGSIZE { return -1; }
        GrowArgs(t.leaf, sz, sz + n);
        sz, t' := Uvmalloc(m, p.root, sz, sz + n, PTE_W, t);
        if sz == 0 {
          DataGrown(old(m.mem), m.mem, t, t');
          ProcKept(old(m.mem), old(m.free), p, t, trampoline, m.mem, m.free, t', p.sz);
          WorldChange(old(m.mem), old(m.free), table, tabs, all, trampoline, i, m.mem, m.free, p, t');
          assert table[i := p] == table && p.(sz := p.sz) == p;
          tabs := tabs[i := t'];
          return -1;
        }
        GrownLayout(t.leaf, t'.leaf, p.sz, sz);
        GrownEntries(t.leaf, t', PagesOf(p.sz), PagesOf(sz), true, false);
        DataGrown(old(m.mem), m.mem, t, t');
      } else if n < 0 {
        var newsz := NewSize(sz, n);
        sz, t' := Uvmdealloc(m, p.root, sz, newsz, t);
        ShrunkLayout(t.leaf, p.sz, sz);
        DataShrunk(old(m.mem), m.mem, t, t');
      }
      ProcKept(old(m.mem), old(m.free), p, t, trampoline, m.mem, m.free, t', sz);
      WorldChange(old(m.mem), old(m.free), table, tabs, all, trampoline, i, m.mem, m.free, p.(sz := sz), t');
      table := table[i := p.(sz := sz)];
      tabs := tabs[i := t'];
      r := 0;
    }

    /** sys_sbrk without SBRK_EAGER: only the size grows. */
    method SbrkLazy(i: nat, n: int) returns (r: int)
      requires Valid() && i < |table| && 0 <= n < 0x8000_0000
      modifies this
      ensures Valid() && tabs == old(tabs)
      ensures var sz := old(table)[i].sz;
              if sz + n > TRAPFRAME * PGSIZE then r == -1 && table == old(table)
              else r == sz && table == old(table)[i := old(table)[i].(sz := sz + n)]
    {
      hide FreeOk, Elems, SpaceOk, World, Isolated, InUse, SameOutside, Layout, PagesOf, MakePte, Owned, Kept;
      OneProc(m.mem, m.free, table, tabs, all, trampoline, i);
      var p := table[i];
      if NewSize(p.sz, n) < p.sz { return -1; }
      if NewSize(p.sz, n) > TRAPFRAME * PGSIZE { return -1; }
      GrowArgs(tabs[i].leaf, p.sz, p.sz + n);
      ProcKept(m.mem, m.free, p, tabs[i], trampoline, m.mem, m.free, tabs[i], p.sz + n);
      WorldChange(m.mem, m.free, table, tabs, all, trampoline, i, m.mem, m.free, p.(sz := p.sz + n), tabs[i]);
      assert tabs[i := tabs[i]] == tabs;
      table := table[i := p.(sz := p.sz + n)];
      r := p.sz;
    }

    /** sys_sbrk: the old size, or -1. */
    method Sbrk(i: nat, n: int, eager: bool) returns (r: int)
      requires Valid() && i < |table| && -0x8000_0000 <= n < 0x8000_0000
      modifies this, m
      ensures Valid() && |tabs| == |old(tabs)| == |table| == |old(table)|
      ensures Isolated(old(m.mem), m.mem, old(table), old(tabs), i)
              && SameData(old(m.mem), old(tabs)[i], m.mem, tabs[i])
      ensures r == -1 || r == old(table)[i].sz
      ensures eager ==> (r == -1 <==> n > 0 && !CanGrow(old(m.free), old(table)[i], old(tabs)[i], n))
      ensures !eager ==> (r == -1 <==> n > 0 && old(table)[i].sz + n > TRAPFRAME * PGSIZE)
      ensures var sz := old(table)[i].sz;
              if r == -1 then table == old(table) && tabs[i].leaf == old(tabs)[i].leaf
              else table == old(table)[i := old(table)[i].(sz := if sz + n < 0 then sz else sz + n)]
      ensures !eager && n >= 0 ==> tabs == old(tabs) && m.mem == old(m.mem)
      ensures var sz := old(table)[i].sz;
              && (eager && n > 0 && r != -1 ==> GrewBy(m.mem, old(tabs)[i], tabs[i], sz, sz + n))
              && (n < 0 <= sz + n ==> ShrankBy(old(tabs)[i], tabs[i], sz, sz + n))
    {
      hide World, FreeOk, Isolated, SameData, PagesOf, Kept, CanGrow, GrewBy, ShrankBy;
      OneProc(m.mem, m.free, table, tabs, all, trampoline, i);
      hide ProcOk;
      var addr := table[i].sz;
      if eager || n < 0 {
        r := Growproc(i, n);
        if r < 0 { return -1; }
        r := addr;
      } else {
        r := SbrkLazy(i, n);
      }
    }

    /** A page fault of process i: vmfault on its own table. */
    method Fault(i: nat, va: nat) returns (pa: nat)
      requires Valid() && i < |table|
      modifies this, m
      ensures Valid() && |tabs| == |old(tabs)| == |table| && table == old(table)
      ensures Isolated(old(m.mem), m.mem, old(table), old(tabs), i) && tabs == old(tabs)[i := tabs[i]]
      ensures SameData(old(m.mem), old(tabs)[i], m.mem, tabs[i])
      ensures pa == 0 ==> tabs[i].leaf == old(tabs)[i].leaf
      ensures pa != 0 ==> va < table[i].sz && Vpn(va) !in old(tabs)[i].leaf && pa in m.mem && m.mem[pa] == Filled(0)
      ensures pa != 0 ==> tabs[i].leaf == old(tabs)[i].leaf[Vpn(va) := MakePte(pa, PTE_W + PTE_U + PTE_R)]
      ensures pa != 0 ==> Permits(tabs[i].leaf[Vpn(va)], true, false) && Translates(tabs[i], va) == pa
      ensures var t := old(tabs)[i];
              pa == 0 <==> va >= table[i].sz || Vpn(va) in t.leaf || |old(m.free)| < 1 + Missing(DirsOf(t), Vpn(va))
    {
      hide Missing, DirsOf;
      hide FreeOk, Elems, SpaceOk, World, Isolated, InUse, SameOutside, Layout, SameData, SameUser, Kept, PagesOf,
           MakePte,
           Owned, Vpn, UserEntries, Permits, Translates;
      OneProc(m.mem, m.free, table, tabs, all, trampoline, i);
      var p := table[i];
      ghost var t := tabs[i];
      GrowArgs(t.leaf, p.sz, p.sz);
      ghost var t';
      pa, t' := Vmfault(m, p.root, p.sz, va, t);
      FaultLayout(t.leaf, t'.leaf, p.sz, va, pa);
      DataGrown(old(m.mem), m.mem, t, t');
      ProcKept(old(m.mem), old(m.free), p, t, trampoline, m.mem, m.free, t', p.sz);
      WorldChange(old(m.mem), old(m.free), table, tabs, all, trampoline, i, m.mem, m.free, p, t');
      assert table[i := p] == table;
      tabs := tabs[i := t'];
    }

    /** How copyin and copyout get at the page of an address of process i: walkaddr, and vmfault if it finds
        nothing. They reach every page below the size, as long as there is memory, and no other. */
    method Reach(i: nat, va: nat) returns (pa: nat)
      requires Valid() && i < |table|
      modifies this, m
      ensures Valid() && |tabs| == |old(tabs)| == |table| && table == old(table)
      ensures Isolated(old(m.mem), m.mem, old(table), old(tabs), i) && tabs == old(tabs)[i := tabs[i]]
      ensures SameData(old(m.mem), old(tabs)[i], m.mem, tabs[i])
      ensures pa == Translates(tabs[i], va)
      ensures var t := old(tabs)[i];
              pa == 0 <==> Vpn(va) >= PagesOf(table[i].sz)
                           || (Vpn(va) !in t.leaf && |old(m.free)| < 1 + Missing(DirsOf(t), Vpn(va)))
      ensures pa != 0 && Vpn(va) in old(tabs)[i].leaf ==> tabs == old(tabs) && m.mem == old(m.mem)
    {
      hide Missing, DirsOf, World, Isolated, SameData, FreeOk, Elems, SpaceOk, InUse, Layout, PagesOf, Translates, Vpn;
      OneProc(m.mem, m.free, table, tabs, all, trampoline, i);
      var p := table[i];
      var va0 := va / PGSIZE * PGSIZE;
      RoundedDown(va, p.sz);
      FoundAt(m.mem, m.freelist, m.free, p, tabs[i], trampoline, va0);
      PageFound(tabs[i], va);
      pa := WalkAddr(m, p.root, va0, tabs[i]);
      if pa == 0 {
        pa := Fault(i, va0);
        NotFound(old(tabs)[i], tabs[i], va0, pa);
        PageFound(tabs[i], va);
      } else {
        assert tabs[i := tabs[i]] == tabs;
      }
    }

    /** freeproc: every page of the process goes back to the free list. */
    method Freeproc(i: nat)
      requires Valid() && i < |table|
      modifies this, m
      ensures Valid() && table == Remove(old(table), i) && tabs == Remove(old(tabs), i)
      ensures Isolated(old(m.mem), m.mem, old(table), old(tabs), i)
      ensures Elems(m.free) == Elems(old(m.free)) + Owned(old(table)[i], old(tabs)[i])
    {
      hide FreeOk, Elems, SpaceOk, World, Isolated, InUse, SameOutside, Layout, Kept, PagesOf, MakePte;
      OneProc(m.mem, m.free, table, tabs, all, trampoline, i);
      var p := table[i];
      ghost var t := tabs[i];
      GrowArgs(t.leaf, p.sz, p.sz);
      ElemsOf(m.free, p.trapframe);
      m.Kfree(p.trapframe);
      ghost var mem1, free1 := m.mem, m.free;
      TrapframeGone(old(m.mem), old(m.free), mem1, free1, p, t, trampoline);
      ProcFreepagetable(m, p.root, p.sz, t);
      AllGone(old(m.mem), old(m.free), mem1, free1, m.mem, m.free, p, t);
      WorldRemove(old(m.mem), old(m.free), table, tabs, all, trampoline, i, m.mem, m.free);
      table := table[..i] + table[i + 1..];
      tabs := tabs[..i] + tabs[i + 1..];
    }

    /** The registers that kfork gives to the child. */
    method CopyTrapframe(i: nat, k: nat)
      requires Valid() && i < |table| && k < |table| && i != k
      modifies m`mem
      ensures Valid() && SameRegisters(m.mem, table[i], table[k])
      ensures Isolated(old(m.mem), m.mem, table, tabs, k) && SamePages(old(m.mem), m.mem, InUse(tabs[k]))
    {
      hide World, Isolated, SamePages, InUse;
      TrapframesIn(m.mem, m.freelist, m.free, table, tabs, all, trampoline, i, k);
      var page := Registers(m.mem[table[i].trapframe], m.mem[table[k].trapframe]);
      TrapframeWrite(m.mem, m.freelist, m.free, table, tabs, all, trampoline, k, page);
      m.mem := m.mem[table[k].trapframe := page];
    }

    /** kfork: a child whose pages and registers equal the parent's, but for a0; no child exactly when the
        table is full or the free pages do not suffice. */
    method Fork(i: nat) returns (r: int)
      requires Valid() && i < |table|
      modifies this, m
      ensures Valid() && Isolated(old(m.mem), m.mem, old(table), old(tabs), -1)
      ensures r == -1 <==> |old(table)| == NPROC || |old(m.free)| < 4 + ForkNeed(old(table)[i], old(tabs)[i])
      ensures r == -1 ==> table == old(table) && tabs == old(tabs)
      ensures r != -1 ==> r == |old(table)| && |table| == r + 1 && table[..r] == old(table) && tabs[..r] == old(tabs)
      ensures r != -1 ==> table[r].sz == table[i].sz && Copied(m.mem, tabs[i], tabs[r], PagesOf(table[i].sz))
      ensures r != -1 ==> SameRegisters(m.mem, table[i], table[r])
    {
      hide FreeOk, Elems, SpaceOk, World, Isolated, InUse, SameOutside, Layout, Kept, PagesOf, MakePte, Copied, Owned,
           Need, DirsOf, StartDirs, UserEntries;
      ghost var ps, ts := table, tabs;
      Nothing(m.mem, m.free, table, tabs, all, trampoline);
      var ok := Allocproc();
      if !ok { return -1; }
      ghost var mem1, free1 := m.mem, m.free;
      var k := |table| - 1;
      Nothing(m.mem, m.free, table, tabs, all, trampoline);
      TwoProcs(m.mem, m.free, table, tabs, all, trampoline, i, k);
      var p, np := table[i], table[k];
      ghost var t := tabs[k];
      ghost var t';
      r, t' := Uvmcopy(m, p.root, np.root, p.sz, tabs[i], t);
      if r < 0 {
        ProcKept(mem1, free1, np, t, trampoline, m.mem, m.free, t', 0);
        WorldChange(mem1, free1, table, tabs, all, trampoline, k, m.mem, m.free, np, t');
        IsolatedTwice(old(m.mem), mem1, m.mem, ps, ts, table, tabs, k);
        tabs := tabs[k := t'];
        assert table[k := np] == table;
        ghost var mem2, ps2, ts2 := m.mem, table, tabs;
        Freeproc(k);
        assert table == ps && tabs == ts;
        IsolatedTwice(old(m.mem), mem2, m.mem, ps, ts, ps2, ts2, k);
        return -1;
      }
      CopyLayout(t.leaf, t'.leaf, p.sz);
      CopyEntries(m.mem, tabs[i], t.leaf, t', PagesOf(p.sz));
      ProcKept(mem1, free1, np, t, trampoline, m.mem, m.free, t', p.sz);
      WorldChange(mem1, free1, table, tabs, all, trampoline, k, m.mem, m.free, np.(sz := p.sz), t');
      IsolatedTwice(old(m.mem), mem1, m.mem, ps, ts, table, tabs, k);
      table := table[k := np.(sz := p.sz)];
      tabs := tabs[k := t'];
      ghost var mem2 := m.mem;
      CopyTrapframe(i, k);
      IsolatedTwice(old(m.mem), mem2, m.mem, ps, ts, table, tabs, k);
      CopiedStays(mem2, m.mem, m.free, table, tabs, all, trampoline, i, k);
      r := k;
    }

    ghost function Now(): (s: Moment)
      reads this, m
    {
      Moment(m.free, table, tabs)
    }

    /** One system call or fault of process i, if there is such a process. */
    method Step(op: Op)
      requires Valid()
      modifies this, m
      ensures Valid() && Did(op, old(Now()), Now())
    {
      hide World, FreeOk, Isolated, SameData, Copied, Missing, DirsOf, CanGrow, ForkNeed, PagesOf, GrewBy, ShrankBy,
           SameRegisters, StartLeaf, Vpn, MakePte, Translates, Permits, Owned, Elems, Filled;
      Nothing(m.mem, m.free, table, tabs, all, trampoline);
      if op.Start? {
        var ok := Allocproc();
      } else if op.i < |table| {
        match op
        case Start =>
        case SysSbrk(i, n, eager) =>
          if IsInt(n) {
            var r := Sbrk(i, n, eager);
            if eager && n > 0 && r != -1 { GrewMapped(m.mem, old(tabs)[i], tabs[i], old(table)[i].sz,
                                                      old(table)[i].sz + n); }
          }
        case PageFault(i, va) => var pa := Fault(i, va);
        case ForkProc(i) => var r := Fork(i);
        case ExitProc(i) => Freeproc(i);
      }
      Nothing(m.mem, m.free, table, tabs, all, trampoline);
    }
  }

  lemma AllFree(mem: map<nat, Page>, free: seq<nat>, ps: seq<Proc>, ts: seq<Table>, all: set<nat>, trampoline: nat)
    requires World(mem, free, ps, ts, all, trampoline) && ps == []
    ensures Elems(free) == all
  {
    assert Owns(ps, ts) == [];
    PartNone(Elems(free), all);
  }

  /** Any run of system calls and faults by any number of processes, each doing what it should, ended by
      the exit of all of them, puts exactly the pages of the beginning back on the free list. */
  method Run(m: Machine, trampoline: nat, ops: seq<Op>) returns (ghost run: seq<Moment>)
    requires m.Valid() && trampoline % PGSIZE == 0
    modifies m
    ensures m.Valid() && Elems(m.free) == Elems(old(m.free))
    ensures |run| == |ops| + 1 && run[0] == Moment(old(m.free), [], [])
    ensures forall k :: 0 <= k < |ops| ==> Did(ops[k], run[k], run[k + 1])
  {
    hide World, FreeOk, Elems, Did;
    var procs := new Procs(m, trampoline);
    run := [procs.Now()];
    for k := 0 to |ops|
      invariant procs.Valid() && procs.m == m && procs.all == Elems(old(m.free))
      invariant |run| == k + 1 && run[0] == Moment(old(m.free), [], []) && run[k] == procs.Now()
      invariant forall j :: 0 <= j < k ==> Did(ops[j], run[j], run[j + 1])
    {
      procs.Step(ops[k]);
      run := run + [procs.Now()];
    }
    while |procs.table| > 0
      invariant procs.Valid() && procs.m == m && procs.all == Elems(old(m.free))
      decreases |procs.table|
    {
      procs.Freeproc(0);
    }
    AllFree(m.mem, m.free, procs.table, procs.tabs, procs.all, trampoline);
  }
}
