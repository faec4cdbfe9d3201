/** proc_pagetable (kernel/proc.c) and uvmcopy (kernel/vm.c): making an address space. */
module ProcVm {
  import opened Collections
  import opened Kalloc
  import opened PageTable
  import opened Vm
  import opened UserVm
  import opened FreeVm

  /** A table without entries: one zeroed page. */
  ghost function NewTable(root: nat): (t: Table) { Table(root, map[], map[], map[]) }

  lemma NewTableOk(mem: map<nat, Page>, free: seq<nat>, root: nat)
    requires root in mem && mem[root] == Filled(0) && root !in Elems(free)
    ensures SpaceOk(mem, free, NewTable(root)) && InUse(NewTable(root)) == {root}
  {
    var t := NewTable(root);
    EmptyTable(mem, root);
    LeaflessFrames(t);
    hide Rep, Shape, PtPages, Elems;
    assert UserFrames(t) == {};
  }

  /** uvmcreate: an empty table on a fresh page. */
  method Uvmcreate(m: Machine) returns (root: nat)
    requires m.Valid()
    modifies m
    ensures m.Valid() && SameOutside(old(m.mem), m.mem, Elems(old(m.free)))
    ensures root == 0 ==> m.free == old(m.free)
    ensures (root == 0 <==> old(m.free) == []) && (root != 0 ==> |m.free| == |old(m.free)| - 1)
    ensures root != 0 ==> SpaceOk(m.mem, m.free, NewTable(root))
                          && Elems(m.free) + InUse(NewTable(root)) == Elems(old(m.free))
  {
    hide FreeOk, Elems, InUse, SpaceOk;
    root := m.Kalloc();
    if root == 0 { return; }
    ElemsOf(m.free, root);
    m.Store(root, Filled(0));
    NewTableOk(m.mem, m.free, root);
  }

  /** The entries every process starts with. */
  ghost function StartLeaf(trampoline: nat, trapframe: nat): (leaf: map<nat, nat>) {
    map[TRAMPOLINE := MakePte(trampoline, PTE_R + PTE_X)][TRAPFRAME := MakePte(trapframe, PTE_R + PTE_W)]
  }

  lemma StartArgs(trampoline: nat, trapframe: nat)
    ensures Vpn(TRAMPOLINE * PGSIZE) == TRAMPOLINE && Vpn(TRAPFRAME * PGSIZE) == TRAPFRAME && PGSIZE / PGSIZE == 1
    ensures HasRwx(PTE_R + PTE_X) && HasRwx(PTE_R + PTE_W) && PTE_R + PTE_X < 1024 && PTE_R + PTE_W < 1024
    ensures forall j :: 0 <= j <= 1 ==> RangeFrames(TRAMPOLINE, trampoline, j) == {}
    ensures forall j :: 0 <= j <= 1 ==> RangeFrames(TRAPFRAME, trapframe, j) == {}
  {
    assert !IsUserPage(TRAMPOLINE + 0) && !IsUserPage(TRAPFRAME + 0);
    hide IsUserPage;
    forall j | 0 <= j <= 1 ensures RangeFrames(TRAMPOLINE, trampoline, j) == {} {
      if j == 1 { RangeNext(TRAMPOLINE, trampoline, 0); } else { RangeNext(TRAMPOLINE, trampoline, j); }
    }
    forall j | 0 <= j <= 1 ensures RangeFrames(TRAPFRAME, trapframe, j) == {} {
      if j == 1 { RangeNext(TRAPFRAME, trapframe, 0); } else { RangeNext(TRAPFRAME, trapframe, j); }
    }
  }

  lemma RootIs(root: nat)
    ensures NewTable(root).root == root && NewTable(root).leaf == map[]
  {
  }

  lemma StartFailed(m: map<nat, Page>, f: seq<nat>, m0: map<nat, Page>, f0: seq<nat>, t0: Table,
                    m1: map<nat, Page>, f1: seq<nat>, t1: Table, m2: map<nat, Page>, f2: seq<nat>)
    requires SameOutside(m, m0, Elems(f)) && Elems(f0) + InUse(t0) == Elems(f)
    requires Kept(m0, f0, t0, m1, f1, t1, {})
    requires Elems(f2) == Elems(f1) + InUse(t1) && SameOutside(m1, m2, Elems(f1) + InUse(t1))
    ensures Elems(f2) == Elems(f) && SameOutside(m, m2, Elems(f))
  {
    hide Elems, InUse;
  }

  lemma StartDone(m: map<nat, Page>, f: seq<nat>, m0: map<nat, Page>, f0: seq<nat>, t0: Table,
                  m1: map<nat, Page>, f1: seq<nat>, t1: Table)
    requires SameOutside(m, m0, Elems(f)) && Elems(f0) + InUse(t0) == Elems(f)
    requires Kept(m0, f0, t0, m1, f1, t1, {})
    ensures Elems(f1) + InUse(t1) == Elems(f) && SameOutside(m, m1, Elems(f))
  {
    hide Elems, InUse;
  }

  /** The page-table pages of a new process. */
  function StartDirs(): (d: Dirs) { WithDirs(Dirs({}, {}), TRAMPOLINE) }

  lemma StartNeed(root: nat)
    ensures DirsOf(NewTable(root)) == Dirs({}, {}) && Missing(Dirs({}, {}), TRAMPOLINE) == 2
    ensures Missing(StartDirs(), TRAPFRAME) == 0 && WithDirs(StartDirs(), TRAPFRAME) == StartDirs()
  {
    assert Up(TRAPFRAME) == Up(TRAMPOLINE);
  }

  /** proc_pagetable: a table holding just trampoline and trapframe, on three pages, or, when there are
      fewer, 0 with every page back on the free list. Mapping the trapframe never fails. */
  method ProcPagetable(m: Machine, trampoline: nat, trapframe: nat) returns (root: nat, ghost t: Table)
    requires m.Valid() && trampoline % PGSIZE == 0 && trapframe % PGSIZE == 0
    modifies m
    ensures m.Valid() && SameOutside(old(m.mem), m.mem, Elems(old(m.free)))
    ensures root == 0 ==> Elems(m.free) == Elems(old(m.free))
    ensures root != 0 ==> SpaceOk(m.mem, m.free, t) && t.root == root && t.leaf == StartLeaf(trampoline, trapframe)
    ensures root != 0 ==> Elems(m.free) + InUse(t) == Elems(old(m.free))
    ensures root == 0 <==> |old(m.free)| < 3
    ensures root != 0 ==> |m.free| == |old(m.free)| - 3 && DirsOf(t) == StartDirs()
  {
    hide FreeOk, Elems, InUse, PagesOf, Vpn, Rep, Shape, PtPages, Kept, SameUser, SpaceOk, SameOutside, MakePte, HasRwx,
         Need, DirsFor, Missing, WithDirs, DirsOf, NewTable;
    root := Uvmcreate(m);
    t := NewTable(root);
    StartNeed(root);
    OneNeed(0, Dirs({}, {}), TRAMPOLINE);
    OneNeed(0, StartDirs(), TRAPFRAME);
    RootIs(root);
    if root == 0 { return; }
    ghost var mem0, free0, t0 := m.mem, m.free, t;
    StartArgs(trampoline, trapframe);
    Pages0();
    var r;
    ghost var j;
    r, t, j := Mappages(m, root, TRAMPOLINE * PGSIZE, PGSIZE, trampoline, PTE_R + PTE_X, t);
    KeptRoot(mem0, free0, t0, m.mem, m.free, t, {});
    if r < 0 {
      ghost var mem1, free1 := m.mem, m.free;
      Uvmfree(m, root, 0, t);
      StartFailed(old(m.mem), old(m.free), mem0, free0, t0, mem1, free1, t, m.mem, m.free);
      return 0, t;
    }
    ghost var mem1, free1, t1 := m.mem, m.free, t;
    r, t, j := Mappages(m, root, TRAPFRAME * PGSIZE, PGSIZE, trapframe, PTE_R + PTE_W, t);
    KeptTrans(mem0, free0, t0, mem1, free1, t1, m.mem, m.free, t, {}, {});
    var none: set<nat> := {};
    assert none + none == none;
    KeptRoot(mem0, free0, t0, m.mem, m.free, t, {});
    if r < 0 {
      // Not reached: the trapframe needs no page-table page besides those of the trampoline.
      assert false;
    }
    StartDone(old(m.mem), old(m.free), mem0, free0, t0, m.mem, m.free, t);
  }

  // ---- uvmcopy

  /** An address space is unaffected by changes to other pages. */
  lemma SpaceFrame(mem: map<nat, Page>, free: seq<nat>, mem': map<nat, Page>, free': seq<nat>, t: Table)
    requires SpaceOk(mem, free, t) && InUse(t) !! Elems(free')
    requires forall p :: p in InUse(t) ==> p in mem && p in mem' && mem'[p] == mem[p]
    ensures SpaceOk(mem', free', t)
  {
    hide Elems, Shape, Rep, UserFrames, PtPages;
    RepFrame(mem, mem', t);
  }

  /** One page of the parent and the child: mapped in both or neither, with the same flags and bytes. */
  ghost predicate SamePage(mem: map<nat, Page>, told: Table, t: Table, v: nat) {
    && (v in told.leaf <==> v in t.leaf)
    && (v in told.leaf ==>
          && PteFlags(t.leaf[v]) == PteFlags(told.leaf[v])
          && Frame(t, v) in mem && Frame(told, v) in mem && mem[Frame(t, v)] == mem[Frame(told, v)])
  }

  /** The first n pages agree. */
  ghost predicate Copied(mem: map<nat, Page>, told: Table, t: Table, n: nat) {
    forall v: nat :: v < n ==> SamePage(mem, told, t, v)
  }

  ghost predicate CopyInv(mem0: map<nat, Page>, free0: seq<nat>, tnew: Table, mem: map<nat, Page>, free: seq<nat>,
                          t: Table,
                          told: Table, n: nat) {
    && SpaceOk(mem, free, told) && SpaceOk(mem, free, t) && InUse(told) !! InUse(t)
    && Kept(mem0, free0, tnew, mem, free, t, {}) && InUse(told) <= mem0.Keys
    && (forall p :: p in InUse(told) ==> p in mem && mem[p] == mem0[p])
    && Copied(mem, told, t, n) && Without(t.leaf, 0, n) == tnew.leaf
  }

  lemma CopyStart(mem: map<nat, Page>, free: seq<nat>, told: Table, tnew: Table)
    requires SpaceOk(mem, free, told) && SpaceOk(mem, free, tnew) && InUse(told) !! InUse(tnew)
    ensures CopyInv(mem, free, tnew, mem, free, tnew, told, 0)
  {
    hide Elems, Rep, Shape, PtPages, UserFrames;
    assert Without(tnew.leaf, 0, 0) == tnew.leaf;
  }

  lemma NotThere(mem: map<nat, Page>, free: seq<nat>, t: Table, v: nat)
    requires SpaceOk(mem, free, t) && Up(v) !in t.low
    ensures v !in t.leaf
  {
    hide Rep, Up;
  }

  /** A page the parent has not mapped is not mapped in the child either. */
  lemma CopySkip(mem0: map<nat, Page>, free0: seq<nat>, tnew: Table, mem: map<nat, Page>, free: seq<nat>, t: Table,
                 told: Table, n: nat)
    requires CopyInv(mem0, free0, tnew, mem, free, t, told, n) && n !in told.leaf && n !in tnew.leaf
    ensures CopyInv(mem0, free0, tnew, mem, free, t, told, n + 1)
  {
    hide SpaceOk, InUse, Kept, PteFlags;
    assert n !in t.leaf by { NotYetMapped(tnew.leaf, t.leaf, 0, n); }
    assert Without(t.leaf, 0, n + 1) == Without(t.leaf, 0, n);
  }

  lemma FlagsHere(w: nat)
    ensures PteFlags(w) < 1024 && (HasRwx(PteFlags(w)) <==> HasRwx(w)) && (IsValid(w) ==> PteFlags(w) % 2 == 1)
  {
    var k, f := w / 1024, w % 1024;
    assert w == 1024 * k + f;
    FlagsOf(k, f);
  }

  /** What uvmcopy reads of the parent's page n. */
  lemma CopyPage(mem: map<nat, Page>, head: nat, free: seq<nat>, t: Table, n: nat)
    requires SpaceOk(mem, free, t) && n in t.leaf && IsUserPage(n) && FreeOk(mem, head, free)
    ensures var w := t.leaf[n];
            && PteFlags(w) < 1024 && HasRwx(PteFlags(w)) && Pte2Pa(w) in mem && |mem[Pte2Pa(w)]| == WORDS
  {
    FlagsHere(t.leaf[n]);
    hide PteFlags, Pte2Pa, HasRwx, Rep, Listed;
    FrameIn(mem, free, t, n);
  }

  lemma CopyOpen(mem0: map<nat, Page>, free0: seq<nat>, tnew: Table, mem: map<nat, Page>, free: seq<nat>, t: Table,
                 told: Table, n: nat)
    requires CopyInv(mem0, free0, tnew, mem, free, t, told, n) && n !in tnew.leaf
    ensures t.root == tnew.root && n !in t.leaf
  {
    hide SpaceOk, InUse, Copied;
    NotYetMapped(tnew.leaf, t.leaf, 0, n);
  }

  /** The parent's side of an operation on the child. */
  lemma ParentKept(mem0: map<nat, Page>, mem1: map<nat, Page>, free1: seq<nat>, t1: Table, mem2: map<nat, Page>,
                   free2: seq<nat>, t2: Table, told: Table)
    requires SpaceOk(mem1, free1, told) && InUse(told) !! InUse(t1) && InUse(told) <= mem0.Keys
    requires forall p :: p in InUse(told) ==> p in mem1 && mem1[p] == mem0[p]
    requires Kept(mem1, free1, t1, mem2, free2, t2, {})
    ensures SpaceOk(mem2, free2, told) && InUse(told) !! InUse(t2)
    ensures forall p :: p in InUse(told) ==> p in mem2 && mem2[p] == mem1[p] == mem0[p]
  {
    hide InUse, Rep, Shape, PtPages, UserFrames, Elems;
    StillOutside(mem1, free1, t1, mem2, free2, t2, InUse(told));
    SpaceFrame(mem1, free1, mem2, free2, told);
  }

  /** Pages copied so far stay copied while parent and child pages are untouched. */
  lemma CopiedFrame(mem1: map<nat, Page>, t1: Table, mem2: map<nat, Page>, t2: Table, told: Table, n: nat)
    requires Copied(mem1, told, t1, n) && n <= TRAPFRAME && SameUser(mem1, mem2, t1)
    requires forall p :: p in InUse(told) ==> p in mem2 && p in mem1 && mem2[p] == mem1[p]
    requires forall v: nat :: v < n ==> (v in t2.leaf <==> v in t1.leaf) && (v in t1.leaf ==> t2.leaf[v] == t1.leaf[v])
    ensures Copied(mem2, told, t2, n)
  {
    hide PteFlags, Pte2Pa, PtPages;
    forall v: nat | v < n ensures SamePage(mem2, told, t2, v) {
      assert SamePage(mem1, told, t1, v);
      if v in told.leaf {
        assert Frame(told, v) in UserFrames(told);
        assert Frame(t1, v) in UserFrames(t1);
      }
    }
  }

  lemma CopyFailed(mem0: map<nat, Page>, free0: seq<nat>, tnew: Table, mem1: map<nat, Page>, free1: seq<nat>, t1: Table,
                   mem2: map<nat, Page>, free2: seq<nat>, t2: Table, told: Table, n: nat)
    requires CopyInv(mem0, free0, tnew, mem1, free1, t1, told, n) && n <= TRAPFRAME
    requires SpaceOk(mem2, free2, t2) && Kept(mem1, free1, t1, mem2, free2, t2, {}) && SameUser(mem1, mem2, t1)
    requires t2.leaf == t1.leaf
    ensures CopyInv(mem0, free0, tnew, mem2, free2, t2, told, n) && t2.root == tnew.root
  {
    hide SpaceOk, InUse, Copied, SameUser;
    ParentKept(mem0, mem1, free1, t1, mem2, free2, t2, told);
    CopiedFrame(mem1, t1, mem2, t2, told, n);
    KeptTrans(mem0, free0, tnew, mem1, free1, t1, mem2, free2, t2, {}, {});
    var none: set<nat> := {};
    assert none + none == none;
  }

  lemma CopyUndone(mem0: map<nat, Page>, free0: seq<nat>, tnew: Table, mem1: map<nat, Page>, free1: seq<nat>, t1: Table,
                   mem2: map<nat, Page>, free2: seq<nat>, t2: Table, told: Table, n: nat)
    requires CopyInv(mem0, free0, tnew, mem1, free1, t1, told, n)
    requires SpaceOk(mem2, free2, t2) && Kept(mem1, free1, t1, mem2, free2, t2, {})
    requires t2.leaf == Without(t1.leaf, 0, n)
    ensures SpaceOk(mem2, free2, told) && InUse(told) !! InUse(t2) && t2.leaf == tnew.leaf
    ensures Kept(mem0, free0, tnew, mem2, free2, t2, {})
    ensures forall p :: p in InUse(told) ==> p in mem2 && mem2[p] == mem0[p]
  {
    hide SpaceOk, InUse, Copied;
    ParentKept(mem0, mem1, free1, t1, mem2, free2, t2, told);
    KeptTrans(mem0, free0, tnew, mem1, free1, t1, mem2, free2, t2, {}, {});
    var none: set<nat> := {};
    assert none + none == none;
  }

  lemma CopiedNext(mem1: map<nat, Page>, tnew: Table, t1: Table, mem2: map<nat, Page>, t2: Table, told: Table, n: nat,
                   pa: nat)
    requires Copied(mem1, told, t1, n) && Without(t1.leaf, 0, n) == tnew.leaf
    requires n < TRAPFRAME && n !in tnew.leaf && n in told.leaf && SameUser(mem1, mem2, t1)
    requires forall p :: p in InUse(told) ==> p in mem2 && p in mem1 && mem2[p] == mem1[p]
    requires IsValid(told.leaf[n]) && Frame(told, n) in mem1
    requires t2.leaf == t1.leaf[n := MakePte(pa, PteFlags(told.leaf[n]))] && pa % PGSIZE == 0
    requires pa in mem2 && mem2[pa] == mem1[Frame(told, n)]
    ensures Copied(mem2, told, t2, n + 1) && Without(t2.leaf, 0, n + 1) == tnew.leaf
  {
    FlagsHere(told.leaf[n]);
    hide SameUser, PteFlags, MakePte, IsValid, HasRwx, Pte2Pa, PtPages;
    PteRoundTrip(pa, PteFlags(told.leaf[n]));
    NotYetMapped(tnew.leaf, t1.leaf, 0, n);
    WithoutNext(t1.leaf, 0, n, MakePte(pa, PteFlags(told.leaf[n])));
    assert Frame(told, n) in InUse(told) by { assert Frame(told, n) in UserFrames(told); }
    hide InUse;
    assert Copied(mem2, told, t2, n) by { hide Copied; CopiedFrame(mem1, t1, mem2, t2, told, n); }
    assert SamePage(mem2, told, t2, n);
  }

  lemma CopyNext(mem0: map<nat, Page>, free0: seq<nat>, tnew: Table, mem1: map<nat, Page>, free1: seq<nat>, t1: Table,
                 mem2: map<nat, Page>, free2: seq<nat>, t2: Table, told: Table, n: nat, pa: nat)
    requires CopyInv(mem0, free0, tnew, mem1, free1, t1, told, n) && n < TRAPFRAME && n !in tnew.leaf && n in told.leaf
    requires SpaceOk(mem2, free2, t2) && Kept(mem1, free1, t1, mem2, free2, t2, {}) && SameUser(mem1, mem2, t1)
    requires IsValid(told.leaf[n]) && Frame(told, n) in mem1
    requires t2.leaf == t1.leaf[n := MakePte(pa, PteFlags(told.leaf[n]))] && pa % PGSIZE == 0
    requires pa in mem2 && mem2[pa] == mem1[Frame(told, n)]
    ensures CopyInv(mem0, free0, tnew, mem2, free2, t2, told, n + 1)
  {
    hide SpaceOk, SameUser, Copied, Without, InUse, PteFlags, MakePte, IsValid, Pte2Pa;
    ParentKept(mem0, mem1, free1, t1, mem2, free2, t2, told);
    CopiedNext(mem1, tnew, t1, mem2, t2, told, n, pa);
    KeptTrans(mem0, free0, tnew, mem1, free1, t1, mem2, free2, t2, {}, {});
    var none: set<nat> := {};
    assert none + none == none;
  }

  /** uvmcopy: the child gets the parent's pages below sz, byte for byte and with the same flags, on
      frames of its own; when memory runs out it keeps no leaf. */
  method Uvmcopy(m: Machine, parent: nat, child: nat, sz: nat, ghost told: Table, ghost tnew: Table)
    returns (r: int, ghost t': Table)
    requires m.Valid() && SpaceOk(m.mem, m.free, told) && SpaceOk(m.mem, m.free, tnew)
    requires parent == told.root && child == tnew.root && InUse(told) !! InUse(tnew)
    requires PagesOf(sz) <= TRAPFRAME && forall v :: v in tnew.leaf ==> v >= PagesOf(sz)
    modifies m
    ensures m.Valid() && SpaceOk(m.mem, m.free, told) && SpaceOk(m.mem, m.free, t') && InUse(told) !! InUse(t')
    ensures Kept(old(m.mem), old(m.free), tnew, m.mem, m.free, t', {})
    ensures forall p :: p in InUse(told) ==> m.mem[p] == old(m.mem)[p]
    ensures r == 0 || r == -1
    ensures r == 0 ==> Copied(m.mem, told, t', PagesOf(sz)) && Without(t'.leaf, 0, PagesOf(sz)) == tnew.leaf
    ensures r == -1 ==> t'.leaf == tnew.leaf
    ensures r == -1 <==> |old(m.free)| < Need(1, DirsOf(tnew), Only(told.leaf), 0, PagesOf(sz))
  {
    hide Need, DirsFor, Missing, WithDirs, DirsOf, Budget;
    hide FreeOk, Elems, InUse, PagesOf, Vpn, Rep, Shape, PtPages, Kept, SameUser, SpaceOk, Copied, IsValid, PteFlags,
         Pte2Pa,
         HasRwx, Up, Idx;
    t' := tnew;
    ghost var mem0, free0 := m.mem, m.free;
    CopyStart(m.mem, m.free, told, tnew);
    assert Without(tnew.leaf, 0, 0) == tnew.leaf;
    ghost var w, d, hi := Only(told.leaf), DirsOf(tnew), PagesOf(sz);
    BudgetStart(1, tnew, w, 0, hi, |m.free|);
    var i := 0;
    ghost var n := 0;
    while i < sz
      invariant 0 <= n <= PagesOf(sz) && i == n * PGSIZE
      invariant m.Valid() && CopyInv(mem0, free0, tnew, m.mem, m.free, t', told, n)
      invariant Budget(1, d, w, 0, hi, |free0|, DirsOf(t'), n, |m.free|)
      decreases PagesOf(sz) - n
    {
      assert Vpn(i) == n < PagesOf(sz) && i % PGSIZE == 0 by { PageAfter(0, n); Pages0(); BelowSize(i, sz); }
      assert i < MAXVPN * PGSIZE;
      ghost var mem1, free1, t1 := m.mem, m.free, t';
      BudgetNext(1, d, w, 0, hi, |free0|, DirsOf(t1), n, |free1|);
      var entry;
      ghost var same;
      entry, same := Walk(m, parent, i, false, told);
      if entry.None? {
        NotThere(m.mem, m.free, told, n);
        CopySkip(mem0, free0, tnew, m.mem, m.free, t', told, n);
        i, n := i + PGSIZE, n + 1;
        continue;
      }
      LowEntry(m.mem, m.free, told, n);
      var pte := m.mem[entry.value.0][entry.value.1];
      if !IsValid(pte) {
        CopySkip(mem0, free0, tnew, m.mem, m.free, t', told, n);
        i, n := i + PGSIZE, n + 1;
        continue;
      }
      CopyPage(m.mem, m.freelist, m.free, told, n);
      CopyOpen(mem0, free0, tnew, m.mem, m.free, t', told, n);
      var page := m.mem[Pte2Pa(pte)];
      var mem;
      mem, t' := AddPage(m, child, i, page, PteFlags(pte), t');
      if mem == 0 {
        CopyFailed(mem0, free0, tnew, mem1, free1, t1, m.mem, m.free, t', told, n);
        ghost var mem2, free2, t2 := m.mem, m.free, t';
        Pages0();
        assert i / PGSIZE == n;
        t' := Uvmunmap(m, child, 0, i / PGSIZE, true, t');
        CopyUndone(mem0, free0, tnew, mem2, free2, t2, m.mem, m.free, t', told, n);
        return -1, t';
      }
      CopyNext(mem0, free0, tnew, mem1, free1, t1, m.mem, m.free, t', told, n, mem);
      i, n := i + PGSIZE, n + 1;
    }
    assert n == PagesOf(sz) by { PageAfter(0, n); Pages0(); AtSize(i, sz); }
    BudgetEnd(1, d, w, 0, hi, |free0|, DirsOf(t'), |m.free|);
    r := 0;
  }
}
