/** An address space of kernel/vm.c: what it owns, and walk. The ghost Table of each call is the map
    that the words in memory represent. */
module Vm {
  import opened Collections
  import opened Kalloc
  import opened PageTable

  const MAXVPN := 0x400_0000       // MAXVA / PGSIZE
  const TRAMPOLINE := 0x3ff_ffff   // its page number
  const TRAPFRAME := 0x3ff_fffe

  // ---- ownership

  predicate IsUserPage(v: nat) { v < TRAPFRAME }

  ghost function Frame(t: Table, v: nat): (pa: nat)
    requires v in t.leaf
  {
    Pte2Pa(t.leaf[v])
  }

  /** The frames of the user pages; trampoline and trapframe are mapped but not owned. */
  ghost function UserFrames(t: Table): (s: set<nat>) {
    set v | v in t.leaf && IsUserPage(v) :: Frame(t, v)
  }

  /** Every physical page this address space is responsible for. */
  ghost function InUse(t: Table): (s: set<nat>) {
    PtPages(t) + UserFrames(t)
  }

  /** The table is in memory, its pages and frames are distinct and none of them is free. */
  ghost predicate SpaceOk(mem: map<nat, Page>, free: seq<nat>, t: Table) {
    && Rep(mem, t) && Shape(t)
    && InUse(t) <= mem.Keys
    && InUse(t) !! Elems(free)
    && PtPages(t) !! UserFrames(t)
    && (forall u, v :: u in t.leaf && v in t.leaf && IsUserPage(u) && IsUserPage(v) && u != v ==>
        Frame(t, u) != Frame(t, v))
  }

  /** Conservation and framing of an operation on one address space: it exchanges pages with the
      free list, takes over the pages `gain` from its caller, and touches no other page. */
  ghost predicate Kept(mem: map<nat, Page>, free: seq<nat>, t: Table, mem': map<nat, Page>, free': seq<nat>, t': Table,
                       gain: set<nat>) {
    && t'.root == t.root && mem'.Keys == mem.Keys
    && Elems(free') + InUse(t') == Elems(free) + InUse(t) + gain
    && forall p :: p in mem && p !in Elems(free) + InUse(t) + gain ==> mem'[p] == mem[p]
  }

  /** User pages that stay mapped keep their entry and their contents. */
  ghost predicate SameData(mem: map<nat, Page>, t: Table, mem': map<nat, Page>, t': Table) {
    forall v :: v in t.leaf && v in t'.leaf ==>
      && t'.leaf[v] == t.leaf[v]
      && (IsUserPage(v) ==> Frame(t, v) in mem && Frame(t, v) in mem' && mem'[Frame(t, v)] == mem[Frame(t, v)])
  }

  lemma KeptTrans(m0: map<nat, Page>, f0: seq<nat>, t0: Table, m1: map<nat, Page>, f1: seq<nat>, t1: Table,
                  m2: map<nat, Page>, f2: seq<nat>, t2: Table, g1: set<nat>, g2: set<nat>)
    requires Kept(m0, f0, t0, m1, f1, t1, g1) && Kept(m1, f1, t1, m2, f2, t2, g2)
    ensures Kept(m0, f0, t0, m2, f2, t2, g1 + g2)
  {
    hide InUse, Elems;
  }

  // ---- virtual addresses

  /** PX(level, va) */
  function Px(level: nat, va: nat): (i: nat)
    ensures i < WORDS
  {
    if level == 0 then va / 0x1000 % 512 else if level == 1 then va / 0x20_0000 % 512 else va / 0x4000_0000 % 512
  }

  function Vpn(va: nat): (v: nat) { va / PGSIZE }

  lemma PxIs(va: nat)
    requires va < MAXVPN * PGSIZE
    ensures Px(0, va) == Idx(Vpn(va)) && Px(1, va) == Idx(Up(Vpn(va))) && Px(2, va) == Up(Up(Vpn(va)))
    ensures Up(Up(Vpn(va))) < WORDS
  {
    var v := va / 4096;
    var r := va % 4096;
    assert va == 4096 * v + r;
    var k := v / 512;
    var j := v % 512;
    assert v == 512 * k + j;
    assert va / 0x20_0000 == k by { assert va == 0x20_0000 * k + (4096 * j + r) && 4096 * j + r < 0x20_0000; }
    var a := k / 512;
    var i := k % 512;
    assert k == 512 * a + i;
    assert va / 0x4000_0000 == a by {
      assert va == 0x4000_0000 * a + (0x20_0000 * i + 4096 * j + r) && 0x20_0000 * i + 4096 * j + r < 0x4000_0000;
    }
    assert a < 512;
  }

  // ---- single page movements

  /** A page taken off the free list belongs to nobody yet. */
  lemma TakeOk(mem: map<nat, Page>, free: seq<nat>, t: Table, mem': map<nat, Page>, free': seq<nat>, p: nat)
    requires SpaceOk(mem, free, t) && mem'.Keys == mem.Keys
    requires Elems(free) == Elems(free') + {p}
    requires forall q :: q in mem && q != p ==> mem'[q] == mem[q]
    ensures SpaceOk(mem', free', t) && p !in InUse(t)
  {
    hide Rep, Shape, PtPages, UserFrames, Elems;
    RepFrame(mem, mem', t);
  }

  /** A page that belongs to nobody can be written, or put on the free list. */
  lemma GiveOk(mem: map<nat, Page>, free: seq<nat>, t: Table, mem': map<nat, Page>, free': seq<nat>, p: nat)
    requires SpaceOk(mem, free, t) && mem'.Keys == mem.Keys && p !in InUse(t)
    requires Elems(free') <= Elems(free) + {p}
    requires forall q :: q in mem && q != p ==> mem'[q] == mem[q]
    ensures SpaceOk(mem', free', t)
  {
    hide Rep, Shape, PtPages, UserFrames, Elems;
    RepFrame(mem, mem', t);
  }

  ghost function AddDir(t: Table, level: nat, k: nat, p: nat): (t': Table) {
    if level == 2 then t.(mid := t.mid[k := p]) else t.(low := t.low[k := p])
  }

  ghost function Parent(t: Table, level: nat, k: nat): (pa: nat)
    requires level == 1 ==> Up(k) in t.mid
  {
    if level == 1 then t.mid[Up(k)] else t.root
  }

  ghost function Slot(level: nat, k: nat): (i: nat)
    requires level != 1 ==> k < WORDS
    ensures i < WORDS
  {
    if level == 1 then Idx(k) else k
  }

  lemma ParentIn(mem: map<nat, Page>, t: Table, level: nat, k: nat)
    requires Rep(mem, t) && (level == 1 ==> Up(k) in t.mid)
    ensures var up := Parent(t, level, k); up in mem && |mem[up]| == WORDS && up in PtPages(t)
  {
    hide Up;
    if level == 1 {
      assert t.mid[Up(k)] in t.mid.Values;
    }
  }

  /** A new page-table page, linked into its parent page. */
  lemma DirOk(mem: map<nat, Page>, free: seq<nat>, t: Table, level: nat, k: nat, p: nat)
    requires SpaceOk(mem, free, t) && p in mem && p !in InUse(t) && p !in Elems(free)
    requires level == 2 || level == 1
    requires level == 2 ==> k < WORDS && k !in t.mid
    requires level == 1 ==> Up(k) in t.mid && k !in t.low
    ensures var t' := AddDir(t, level, k, p);
            var up := Parent(t, level, k);
            && up in mem && |mem[up]| == WORDS
            && var mem' := mem[p := Filled(0)][up := Poke(mem[up], Slot(level, k), DirPte(p))];
               SpaceOk(mem', free, t') && InUse(t') == InUse(t) + {p}
  {
    hide Rep, Shape, Up, Idx, Elems, DirPte, Poke, PtPages;
    ParentIn(mem, t, level, k);
    var t' := AddDir(t, level, k, p);
    if level == 2 {
      AddMid(mem, t, k, p);
    } else {
      AddLow(mem, t, k, p);
    }
    assert UserFrames(t') == UserFrames(t);
  }

  lemma LowIn(mem: map<nat, Page>, t: Table, k: nat)
    requires Rep(mem, t) && k in t.low
    ensures t.low[k] in mem && |mem[t.low[k]]| == WORDS && t.low[k] in PtPages(t)
  {
    assert t.low[k] in t.low.Values;
  }

  lemma FramesAdd(t: Table, v: nat, w: nat)
    requires v !in t.leaf
    ensures UserFrames(t.(leaf := t.leaf[v := w])) == UserFrames(t) + (if IsUserPage(v) then {Pte2Pa(w)} else {})
    ensures forall u :: u in t.leaf && IsUserPage(u) ==> Frame(t, u) in UserFrames(t)
  {
    hide Pte2Pa, IsUserPage;
    var t' := t.(leaf := t.leaf[v := w]);
    forall x | x in UserFrames(t) ensures x in UserFrames(t') {
      var u :| u in t.leaf && IsUserPage(u) && Frame(t, u) == x;
      assert Frame(t', u) == x;
    }
    if IsUserPage(v) {
      assert Frame(t', v) == Pte2Pa(w);
    }
  }

  /** Mapping frame f at an unmapped user page. */
  lemma MapOk(mem: map<nat, Page>, free: seq<nat>, t: Table, v: nat, w: nat)
    requires SpaceOk(mem, free, t) && Up(v) in t.low && v !in t.leaf
    requires w != 0 && IsValid(w) && HasRwx(w)
    requires IsUserPage(v) ==> Pte2Pa(w) in mem && Pte2Pa(w) !in InUse(t) && Pte2Pa(w) !in Elems(free)
    ensures var t' := t.(leaf := t.leaf[v := w]);
            var p := t.low[Up(v)];
            && p in mem && |mem[p]| == WORDS
            && SpaceOk(mem[p := Poke(mem[p], Idx(v), w)], free, t')
            && InUse(t') == InUse(t) + (if IsUserPage(v) then {Pte2Pa(w)} else {})
  {
    hide Shape, Up, Idx, Elems, Poke, IsValid, HasRwx, Pte2Pa, RootPage, MidPage, IsUserPage;
    LowIn(mem, t, Up(v));
    SetLeaf(mem, t, v, w);
    var t' := t.(leaf := t.leaf[v := w]);
    assert PtPages(t') == PtPages(t);
    assert UserFrames(t') == UserFrames(t) + (if IsUserPage(v) then {Pte2Pa(w)} else {}) by {
      FramesAdd(t, v, w);
    }
  }

  lemma LeafUnder(t: Table, v: nat)
    requires Shape(t) && v in t.leaf
    ensures Up(v) in t.low && IsValid(t.leaf[v])
  {
  }

  lemma PtPagesSame(t: Table, t': Table)
    requires t'.root == t.root && t'.mid == t.mid && t'.low == t.low
    ensures PtPages(t') == PtPages(t)
  {
  }

  lemma FramesRemove(t: Table, v: nat)
    requires v in t.leaf
    requires forall u, v :: u in t.leaf && v in t.leaf && IsUserPage(u) && IsUserPage(v) && u != v ==>
             Frame(t, u) != Frame(t, v)
    ensures UserFrames(t.(leaf := t.leaf - {v})) == UserFrames(t) - (if IsUserPage(v) then {Frame(t, v)} else {})
    ensures IsUserPage(v) ==> Frame(t, v) in UserFrames(t)
  {
    hide Pte2Pa, IsUserPage;
    var t' := t.(leaf := t.leaf - {v});
    forall x | x in UserFrames(t) && !(IsUserPage(v) && x == Frame(t, v)) ensures x in UserFrames(t') {
      var u :| u in t.leaf && IsUserPage(u) && Frame(t, u) == x;
      assert Frame(t', u) == x;
    }
    forall x | x in UserFrames(t') ensures x in UserFrames(t) && !(IsUserPage(v) && x == Frame(t, v)) {
      var u :| u in t'.leaf && IsUserPage(u) && Frame(t', u) == x;
      assert Frame(t, u) == x;
    }
  }

  /** Unmapping a page: the frame of a user page then belongs to nobody. */
  lemma UnmapOk(mem: map<nat, Page>, free: seq<nat>, t: Table, v: nat)
    requires SpaceOk(mem, free, t) && v in t.leaf
    ensures Up(v) in t.low
    ensures var t' := t.(leaf := t.leaf - {v});
            var p := t.low[Up(v)];
            && p in mem && |mem[p]| == WORDS
            && SpaceOk(mem[p := Poke(mem[p], Idx(v), 0)], free, t')
            && InUse(t') == InUse(t) - (if IsUserPage(v) then {Frame(t, v)} else {})
            && (IsUserPage(v) ==> Frame(t, v) in InUse(t) && Frame(t, v) != p)
  {
    hide Up, Idx, Elems, Poke, Pte2Pa, IsUserPage, Rep, Shape, PtPages, UserFrames;
    LeafUnder(t, v);
    LowIn(mem, t, Up(v));
    SetLeaf(mem, t, v, 0);
    FramesRemove(t, v);
    var t' := t.(leaf := t.leaf - {v});
    assert PtPages(t') == PtPages(t) by { PtPagesSame(t, t'); }
  }

  // ---- walk

  lemma ZeroInvalid()
    ensures !IsValid(0)
  {
  }

  ghost function Child(t: Table, level: nat, k: nat): (r: Option<nat>) {
    if level == 2 then (if k in t.mid then Some(t.mid[k]) else None)
    else (if k in t.low then Some(t.low[k]) else None)
  }

  /** What walk reads at each level. */
  lemma DirEntry(mem: map<nat, Page>, t: Table, level: nat, k: nat)
    requires Rep(mem, t) && Shape(t) && PagesOk(mem) && (level == 1 ==> Up(k) in t.mid) && (level == 2 ==> k < WORDS)
    requires level == 1 || level == 2
    ensures var up := Parent(t, level, k);
            && up in mem && |mem[up]| == WORDS
            && var pte := mem[up][Slot(level, k)];
               && (IsValid(pte) <==> Child(t, level, k).Some?)
               && (IsValid(pte) ==> Child(t, level, k) == Some(Pte2Pa(pte)))
  {
    hide Up, Idx, DirPte, IsValid, HasRwx, Pte2Pa, LowPage;
    assert !IsValid(0) by { ZeroInvalid(); }
    if level == 2 {
      if k in t.mid { DirRoundTrip(t.mid[k]); }
    } else {
      Split(k);
      assert mem[t.mid[Up(k)]][Idx(k)] == MidWord(t, At(Up(k), Idx(k)));
      if k in t.low { DirRoundTrip(t.low[k]); }
    }
  }

  /** The table that walk with alloc != 0 leaves: the same leaves, possibly more directories. */
  ghost predicate Grown(t: Table, t': Table) {
    && t'.root == t.root && t'.leaf == t.leaf
    && (forall a :: a in t.mid ==> a in t'.mid && t'.mid[a] == t.mid[a])
    && (forall k :: k in t.low ==> k in t'.low && t'.low[k] == t.low[k])
  }

  /** User pages keep their contents when only free and page-table pages change. */
  ghost predicate SameUser(mem: map<nat, Page>, mem': map<nat, Page>, t: Table) {
    forall p :: p in UserFrames(t) ==> p in mem && p in mem' && mem'[p] == mem[p]
  }

  lemma SelfUser(mem: map<nat, Page>, t: Table)
    requires InUse(t) <= mem.Keys
    ensures SameUser(mem, mem, t)
  {
  }

  lemma ElemsOf(free: seq<nat>, p: nat)
    ensures p in Elems(free) <==> p in free
  {
  }

  lemma NotFree(free: seq<nat>, t: Table, p: nat)
    requires InUse(t) !! Elems(free) && p in PtPages(t)
    ensures p !in free
  {
  }

  lemma UserKept(mem: map<nat, Page>, free: seq<nat>, mem': map<nat, Page>, t: Table, p: nat, q: nat)
    requires SpaceOk(mem, free, t) && p in Elems(free) && q in PtPages(t) && mem'.Keys == mem.Keys
    requires forall x :: x in mem && x != p && x != q ==> mem'[x] == mem[x]
    ensures SameUser(mem, mem', t)
  {
    hide Rep, Shape, Elems, PtPages, UserFrames;
  }

  /** walk's allocation of one page-table page. */
  method AllocDir(m: Machine, pagetable: nat, idx: nat, ghost t: Table, ghost level: nat, ghost k: nat)
    returns (p: nat, ghost t': Table)
    requires m.Valid() && SpaceOk(m.mem, m.free, t)
    requires level == 2 || level == 1
    requires level == 2 ==> k < WORDS && k !in t.mid
    requires level == 1 ==> Up(k) in t.mid && k !in t.low
    requires pagetable == Parent(t, level, k) && idx == Slot(level, k)
    modifies m
    ensures m.Valid() && SpaceOk(m.mem, m.free, t')
    ensures Kept(old(m.mem), old(m.free), t, m.mem, m.free, t', {}) && SameUser(old(m.mem), m.mem, t)
    ensures p == 0 ==> t' == t && m.free == [] == old(m.free) && m.mem == old(m.mem)
    ensures p != 0 ==> t' == AddDir(t, level, k, p) && |m.free| == |old(m.free)| - 1
  {
    hide FreeOk, Up, Idx, Elems, DirPte, Rep, Shape, PtPages, UserFrames, Poke;
    t' := t;
    p := m.Kalloc();
    if p == 0 {
      SelfUser(m.mem, t);
      return;
    }
    TakeOk(old(m.mem), old(m.free), t, m.mem, m.free, p);
    ghost var mem1 := m.mem;
    ElemsOf(m.free, p);
    DirOk(m.mem, m.free, t, level, k, p);
    ParentIn(m.mem, t, level, k);
    NotFree(m.free, t, pagetable);
    m.Store(p, Filled(0));
    m.Store(pagetable, Poke(m.mem[pagetable], idx, DirPte(p)));
    ghost var mem2: map<nat, Page> := mem1[p := Filled(0)];
    assert m.mem == mem2[pagetable := Poke(mem1[pagetable], idx, DirPte(p))];
    t' := AddDir(t, level, k, p);
    UserKept(old(m.mem), old(m.free), m.mem, t, p, pagetable);
  }

  lemma WalkStart(mem: map<nat, Page>, free: seq<nat>, t: Table)
    requires SpaceOk(mem, free, t)
    ensures Kept(mem, free, t, mem, free, t, {}) && SameUser(mem, mem, t) && Grown(t, t)
  {
    hide Rep, Shape;
  }

  lemma WalkLooks(mem: map<nat, Page>, head: nat, free: seq<nat>, t: Table, level: nat, k: nat)
    requires FreeOk(mem, head, free) && SpaceOk(mem, free, t)
    requires (level == 1 ==> Up(k) in t.mid) && (level == 2 ==> k < WORDS) && (level == 1 || level == 2)
    ensures var up := Parent(t, level, k);
            && up in mem && |mem[up]| == WORDS
            && var pte := mem[up][Slot(level, k)];
               && (IsValid(pte) <==> Child(t, level, k).Some?)
               && (IsValid(pte) ==> Child(t, level, k) == Some(Pte2Pa(pte)))
  {
    DirEntry(mem, t, level, k);
  }

  lemma WalkMiss(mem: map<nat, Page>, free: seq<nat>, t: Table, level: nat, k: nat)
    requires SpaceOk(mem, free, t) && (level == 1 || level == 2)
    requires level == 2 ==> Up(k) !in t.mid
    requires level == 1 ==> k !in t.low
    ensures k !in t.low
  {
    hide Rep, Up, Elems;
  }

  lemma WalkGrows(m0: map<nat, Page>, f0: seq<nat>, t: Table, m1: map<nat, Page>, f1: seq<nat>, t1: Table,
                  m2: map<nat, Page>, f2: seq<nat>, t2: Table, level: nat, k: nat, p: nat)
    requires Grown(t, t1) && Kept(m0, f0, t, m1, f1, t1, {}) && SameUser(m0, m1, t)
    requires Kept(m1, f1, t1, m2, f2, t2, {}) && SameUser(m1, m2, t1)
    requires if p == 0 then t2 == t1 else t2 == AddDir(t1, level, k, p)
    requires level == 2 ==> k !in t1.mid
    requires level == 1 ==> k !in t1.low
    requires level == 1 || level == 2
    ensures Grown(t, t2) && Kept(m0, f0, t, m2, f2, t2, {}) && SameUser(m0, m2, t)
  {
    hide Rep, Shape, Kept;
    KeptTrans(m0, f0, t, m1, f1, t1, m2, f2, t2, {}, {});
    var none: set<nat> := {};
    assert none + none == none;
    assert UserFrames(t1) == UserFrames(t);
  }

  // ---- how many pages it takes

  /** Which page-table pages exist below the root. */
  datatype Dirs = Dirs(mid: set<nat>, low: set<nat>)

  ghost function DirsOf(t: Table): (d: Dirs) { Dirs(t.mid.Keys, t.low.Keys) }

  /** The same with those that lead to page v. */
  function WithDirs(d: Dirs, v: nat): (d': Dirs) { Dirs(d.mid + {Up(Up(v))}, d.low + {Up(v)}) }

  /** How many of those have to be made. */
  function Missing(d: Dirs, v: nat): (n: nat)
    ensures n <= 2
  {
    (if Up(Up(v)) in d.mid then 0 else 1) + (if Up(v) in d.low then 0 else 1)
  }

  /** Pages of a range: all of them, or those with an entry. */
  datatype Pages = All | Only(leaf: map<nat, nat>)

  predicate Wanted(w: Pages, v: nat) { w.All? || v in w.leaf }

  /** How many pages it takes to map the wanted pages from lo up to hi: `each` for every one of them, and
      the page-table pages that do not exist by then. */
  function Need(each: nat, d: Dirs, w: Pages, lo: nat, hi: nat): (n: nat)
    decreases hi - lo
  {
    if lo >= hi then 0
    else if Wanted(w, lo) then each + Missing(d, lo) + Need(each, WithDirs(d, lo), w, lo + 1, hi)
    else Need(each, d, w, lo + 1, hi)
  }

  /** The page-table pages there are then. */
  function DirsFor(d: Dirs, w: Pages, lo: nat, hi: nat): (d': Dirs)
    decreases hi - lo
  {
    if lo >= hi then d
    else DirsFor(if Wanted(w, lo) then WithDirs(d, lo) else d, w, lo + 1, hi)
  }

  /** Two page-table pages for each page to map are always enough. */
  lemma {:induction false} NeedAtMost(each: nat, d: Dirs, w: Pages, lo: nat, hi: nat)
    requires lo <= hi
    ensures Need(each, d, w, lo, hi) <= (each + 2) * (hi - lo)
    decreases hi - lo
  {
    hide Missing, WithDirs;
    if lo < hi {
      NeedAtMost(each, if Wanted(w, lo) then WithDirs(d, lo) else d, w, lo + 1, hi);
      assert (each + 2) * (hi - lo) == (each + 2) * (hi - lo - 1) + each + 2;
    }
  }

  /** A range that is mapped up to page `at`, with what was free before and what is free now. */
  ghost predicate Budget(each: nat, d: Dirs, w: Pages, lo: nat, hi: nat, free: nat, d1: Dirs, at: nat, free1: nat) {
    && free1 + Need(each, d, w, lo, hi) == free + Need(each, d1, w, at, hi)
    && DirsFor(d, w, lo, hi) == DirsFor(d1, w, at, hi)
  }

  lemma BudgetStart(each: nat, t: Table, w: Pages, lo: nat, hi: nat, free: nat)
    ensures Budget(each, DirsOf(t), w, lo, hi, free, DirsOf(t), lo, free)
  {
  }

  lemma BudgetNext(each: nat, d: Dirs, w: Pages, lo: nat, hi: nat, free: nat, d1: Dirs, at: nat, free1: nat)
    requires Budget(each, d, w, lo, hi, free, d1, at, free1) && at < hi
    ensures Wanted(w, at) && free1 >= each + Missing(d1, at) ==>
              Budget(each, d, w, lo, hi, free, WithDirs(d1, at), at + 1, free1 - each - Missing(d1, at))
    ensures !Wanted(w, at) ==> Budget(each, d, w, lo, hi, free, d1, at + 1, free1)
    ensures Wanted(w, at) && free1 < each + Missing(d1, at) ==> free < Need(each, d, w, lo, hi)
  {
    hide Missing, WithDirs;
  }

  lemma BudgetEnd(each: nat, d: Dirs, w: Pages, lo: nat, hi: nat, free: nat, d1: Dirs, free1: nat)
    requires Budget(each, d, w, lo, hi, free, d1, hi, free1)
    ensures free1 == free - Need(each, d, w, lo, hi) && d1 == DirsFor(d, w, lo, hi)
  {
    hide Missing, WithDirs;
  }

  lemma OneNeed(each: nat, d: Dirs, v: nat)
    ensures Need(each, d, All, v, v + 1) == each + Missing(d, v) && DirsFor(d, All, v, v + 1) == WithDirs(d, v)
  {
    hide Missing, WithDirs;
  }

  lemma LevelTwo(mem: map<nat, Page>, free: seq<nat>, t: Table, t': Table, v: nat, p: nat)
    requires SpaceOk(mem, free, t) && Up(Up(v)) !in t.mid
    requires if p == 0 then t' == t else t' == AddDir(t, 2, Up(Up(v)), p)
    ensures Missing(DirsOf(t), v) == 2
    ensures p != 0 ==> DirsOf(t') == Dirs(t.mid.Keys + {Up(Up(v))}, t.low.Keys)
  {
    hide Up, Rep, Elems;
  }

  lemma LevelOne(t: Table, t1: Table, t2: Table, v: nat, p: nat)
    requires DirsOf(t1) == Dirs(t.mid.Keys + {Up(Up(v))}, t.low.Keys) && Up(v) !in t1.low
    requires if p == 0 then t2 == t1 else t2 == AddDir(t1, 1, Up(v), p)
    ensures Missing(DirsOf(t), v) == 1 + if Up(Up(v)) in t.mid then 0 else 1
    ensures p != 0 ==> DirsOf(t2) == WithDirs(DirsOf(t), v)
  {
    hide Up;
  }

  lemma LevelFound(t: Table, t1: Table, v: nat)
    requires DirsOf(t1) == Dirs(t.mid.Keys + {Up(Up(v))}, t.low.Keys) && Up(v) in t1.low
    ensures Missing(DirsOf(t), v) == if Up(Up(v)) in t.mid then 0 else 1
    ensures DirsOf(t1) == WithDirs(DirsOf(t), v)
  {
    hide Up;
  }

  /** walk: the page and index of the leaf entry for va. Without alloc nothing changes and None means
      that the leaf table does not exist; with alloc None means that the free pages do not suffice for
      the page-table pages that are missing. */
  method Walk(m: Machine, root: nat, va: nat, alloc: bool, ghost t: Table)
    returns (r: Option<(nat, nat)>, ghost t': Table)
    requires m.Valid() && SpaceOk(m.mem, m.free, t) && root == t.root && va < MAXVPN * PGSIZE
    modifies m
    ensures m.Valid() && SpaceOk(m.mem, m.free, t') && Grown(t, t')
    ensures Kept(old(m.mem), old(m.free), t, m.mem, m.free, t', {}) && SameUser(old(m.mem), m.mem, t)
    ensures !alloc ==> t' == t && m.mem == old(m.mem) && m.free == old(m.free)
    ensures !alloc && r.None? ==> Up(Vpn(va)) !in t.low
    ensures alloc && r.None? ==> m.free == []
    ensures alloc ==> (r.None? <==> |old(m.free)| < Missing(DirsOf(t), Vpn(va)))
    ensures alloc && r.Some? ==>
              |m.free| == |old(m.free)| - Missing(DirsOf(t), Vpn(va)) && DirsOf(t') == WithDirs(DirsOf(t), Vpn(va))
    ensures r.Some? ==> Up(Vpn(va)) in t'.low && r.value == (t'.low[Up(Vpn(va))], Idx(Vpn(va)))
  {
    hide FreeOk, Up, Idx, Elems, DirPte, Rep, Shape, PtPages, UserFrames, Poke, Px, Vpn, IsValid, Pte2Pa, Kept, SpaceOk,
         SameUser, Missing, WithDirs;
    t' := t;
    PxIs(va);
    ghost var k := Up(Vpn(va));
    ghost var a := Up(k);
    WalkStart(m.mem, m.free, t);
    var pagetable, level := root, 2;
    while level > 0
      invariant 0 <= level <= 2
      invariant m.Valid() && SpaceOk(m.mem, m.free, t') && Grown(t, t')
      invariant Kept(old(m.mem), old(m.free), t, m.mem, m.free, t', {}) && SameUser(old(m.mem), m.mem, t)
      invariant !alloc ==> t' == t && m.mem == old(m.mem) && m.free == old(m.free)
      invariant level == 2 ==> pagetable == t'.root
      invariant level == 1 ==> a in t'.mid && pagetable == t'.mid[a]
      invariant level == 0 ==> k in t'.low && pagetable == t'.low[k]
      invariant level == 2 ==> t' == t && |m.free| == |old(m.free)|
      invariant level == 1 ==>
                  && DirsOf(t') == Dirs(t.mid.Keys + {a}, t.low.Keys)
                  && |m.free| == |old(m.free)| - (if a in t.mid then 0 else 1)
      invariant level == 0 && alloc ==>
                  && DirsOf(t') == WithDirs(DirsOf(t), Vpn(va))
                  && |m.free| == |old(m.free)| - Missing(DirsOf(t), Vpn(va))
    {
      ghost var key := if level == 2 then a else k;
      WalkLooks(m.mem, m.freelist, m.free, t', level, key);
      var pte := m.mem[pagetable][Px(level, va)];
      if IsValid(pte) {
        if level == 1 { LevelFound(t, t', Vpn(va)); }
        if level == 2 { assert t.mid.Keys + {a} == t.mid.Keys; }
        pagetable := Pte2Pa(pte);
      } else {
        if !alloc {
          WalkMiss(m.mem, m.free, t, level, k);
          return None, t';
        }
        ghost var mem1, free1, t1 := m.mem, m.free, t';
        var p;
        p, t' := AllocDir(m, pagetable, Px(level, va), t', level, key);
        WalkGrows(old(m.mem), old(m.free), t, mem1, free1, t1, m.mem, m.free, t', level, key, p);
        if level == 2 {
          LevelTwo(mem1, free1, t, t', Vpn(va), p);
        } else {
          LevelOne(t, t1, t', Vpn(va), p);
        }
        if p == 0 {
          return None, t';
        }
        pagetable := p;
      }
      level := level - 1;
    }
    r := Some((pagetable, Px(0, va)));
  }
}
