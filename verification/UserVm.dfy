/** Mapping, unmapping, growing, shrinking and faulting in user memory (kernel/vm.c). */
module UserVm {
  import opened Collections
  import opened Kalloc
  import opened PageTable
  import opened Vm

  // ---- mappages

  lemma LowEntry(mem: map<nat, Page>, free: seq<nat>, t: Table, v: nat)
    requires SpaceOk(mem, free, t) && Up(v) in t.low
    ensures var p := t.low[Up(v)];
            p in mem && |mem[p]| == WORDS && p in PtPages(t) && mem[p][Idx(v)] == LowWord(t, v)
    ensures var w := LowWord(t, v);
            (v in t.leaf <==> IsValid(w)) && (v in t.leaf ==> w == t.leaf[v])
  {
    hide Up, Idx, HasRwx, Elems, UserFrames, RootPage, MidPage;
    Split(v);
    LowIn(mem, t, Up(v));
    assert mem[t.low[Up(v)]][Idx(v)] == LowWord(t, At(Up(v), Idx(v)));
  }

  /** Pages of the caller that are outside before an operation without gain are outside after it. */
  lemma StillOutside(m0: map<nat, Page>, f0: seq<nat>, t0: Table, m1: map<nat, Page>, f1: seq<nat>, t1: Table,
                     s: set<nat>)
    requires Kept(m0, f0, t0, m1, f1, t1, {}) && s !! InUse(t0) && s !! Elems(f0) && s <= m0.Keys
    ensures s !! InUse(t1) && s !! Elems(f1) && s <= m1.Keys
    ensures forall p :: p in s ==> m1[p] == m0[p]
  {
    hide InUse, Elems;
  }

  lemma LeafNotFree(mem: map<nat, Page>, free: seq<nat>, t: Table, v: nat)
    requires SpaceOk(mem, free, t) && Up(v) in t.low
    ensures t.low[Up(v)] !in free
  {
    hide Up, Rep, Shape;
    assert t.low[Up(v)] in t.low.Values;
    ElemsOf(free, t.low[Up(v)]);
  }

  lemma MapKept(m0: map<nat, Page>, f0: seq<nat>, t0: Table, m1: map<nat, Page>, f1: seq<nat>, t1: Table,
                m2: map<nat, Page>, t2: Table, p: nat, g: set<nat>)
    requires Kept(m0, f0, t0, m1, f1, t1, {}) && p in PtPages(t1) && p in m1
    requires InUse(t2) == InUse(t1) + g && t2.root == t1.root
    requires m2.Keys == m1.Keys && forall q :: q in m1 && q != p ==> m2[q] == m1[q]
    ensures Kept(m0, f0, t0, m2, f1, t2, g)
  {
    hide UserFrames, PtPages, Elems;
    assert p in InUse(t1);
    assert Kept(m1, f1, t1, m2, f1, t2, g);
    KeptTrans(m0, f0, t0, m1, f1, t1, m2, f1, t2, {}, g);
    assert {} + g == g;
  }

  lemma MapUser(m0: map<nat, Page>, m1: map<nat, Page>, m2: map<nat, Page>, free: seq<nat>, t: Table, t1: Table, p: nat)
    requires SameUser(m0, m1, t) && t1.leaf == t.leaf && SpaceOk(m1, free, t1) && p in PtPages(t1)
    requires m2.Keys == m1.Keys && forall q :: q in m1 && q != p ==> m2[q] == m1[q]
    ensures SameUser(m0, m2, t)
  {
    hide Rep, Shape, PtPages, Elems;
    assert UserFrames(t1) == UserFrames(t);
  }

  /** One turn of mappages' loop; the page must not be mapped, or mappages would panic "remap". */
  method MapPage(m: Machine, root: nat, va: nat, pa: nat, perm: nat, ghost t: Table) returns (ok: bool, ghost t': Table)
    requires m.Valid() && SpaceOk(m.mem, m.free, t) && root == t.root && va < MAXVPN * PGSIZE
    requires Vpn(va) !in t.leaf
    requires pa % PGSIZE == 0 && perm < 1024 && HasRwx(perm)
    requires IsUserPage(Vpn(va)) ==> pa in m.mem && pa !in InUse(t) && pa !in Elems(m.free)
    modifies m
    ensures m.Valid() && SpaceOk(m.mem, m.free, t')
    ensures Kept(old(m.mem), old(m.free), t, m.mem, m.free, t', if ok && IsUserPage(Vpn(va)) then {pa} else {})
    ensures SameUser(old(m.mem), m.mem, t)
    ensures t'.leaf == if ok then t.leaf[Vpn(va) := MakePte(pa, perm)] else t.leaf
    ensures !ok ==> m.free == []
    ensures ok <==> |old(m.free)| >= Missing(DirsOf(t), Vpn(va))
    ensures ok ==>
              |m.free| == |old(m.free)| - Missing(DirsOf(t), Vpn(va)) && DirsOf(t') == WithDirs(DirsOf(t), Vpn(va))
    ensures IsUserPage(Vpn(va)) ==> m.mem[pa] == old(m.mem)[pa]
  {
    hide Missing, WithDirs;
    hide FreeOk, Up, Idx, Elems, Rep, Shape, PtPages, UserFrames, Poke, Vpn, IsValid, Pte2Pa, SpaceOk, HasRwx, MakePte,
         IsUserPage, SameUser;
    var r, t1 := Walk(m, root, va, true, t);
    t' := t1;
    if r.None? {
      return false, t';
    }
    ghost var v := Vpn(va);
    var (p, i) := r.value;
    PteRoundTrip(pa, perm);
    LowEntry(m.mem, m.free, t1, v);
    StillOutside(old(m.mem), old(m.free), t, m.mem, m.free, t1, if IsUserPage(v) then {pa} else {});
    MapOk(m.mem, m.free, t1, v, MakePte(pa, perm));
    LeafNotFree(m.mem, m.free, t1, v);
    ghost var mem1 := m.mem;
    m.Store(p, Poke(m.mem[p], i, MakePte(pa, perm)));
    t' := t1.(leaf := t1.leaf[v := MakePte(pa, perm)]);
    ok := true;
    MapKept(old(m.mem), old(m.free), t, mem1, m.free, t1, m.mem, t', p, if IsUserPage(v) then {pa} else {});
    MapUser(old(m.mem), mem1, m.mem, m.free, t, t1, p);
  }

  /** The leaf entries after mapping n consecutive pages. */
  ghost function MapRange(leaf: map<nat, nat>, v: nat, pa: nat, perm: nat, n: nat): (r: map<nat, nat>) {
    if n == 0 then leaf
    else MapRange(leaf, v, pa, perm, n - 1)[v + n - 1 := MakePte(pa + (n - 1) * PGSIZE, perm)]
  }

  /** The frames of the user pages among n consecutive pages. */
  ghost function RangeFrames(v: nat, pa: nat, n: nat): (s: set<nat>) {
    set i: nat | i < n && IsUserPage(v + i) :: pa + i * PGSIZE
  }

  lemma RangeNext(v: nat, pa: nat, n: nat)
    ensures RangeFrames(v, pa, n + 1) == RangeFrames(v, pa, n) + (if IsUserPage(v + n) then {pa + n * PGSIZE} else {})
    ensures pa + n * PGSIZE !in RangeFrames(v, pa, n)
    ensures RangeFrames(v, pa, 0) == {}
  {
    if IsUserPage(v + n) {
      assert pa + n * PGSIZE in RangeFrames(v, pa, n + 1);
    }
    forall x | x in RangeFrames(v, pa, n) ensures x in RangeFrames(v, pa, n + 1) {
      var i: nat :| i < n && IsUserPage(v + i) && pa + i * PGSIZE == x;
    }
  }

  lemma RangeMono(v: nat, pa: nat, j: nat, n: nat)
    requires j <= n
    ensures RangeFrames(v, pa, j) <= RangeFrames(v, pa, n)
  {
    forall x | x in RangeFrames(v, pa, j) ensures x in RangeFrames(v, pa, n) {
      var i: nat :| i < j && IsUserPage(v + i) && pa + i * PGSIZE == x;
    }
  }

  lemma MapRangeKeys(leaf: map<nat, nat>, v: nat, pa: nat, perm: nat, n: nat)
    ensures forall u :: u in MapRange(leaf, v, pa, perm, n) <==> u in leaf || v <= u < v + n
  {
  }

  /** The frames this address space has taken from the free list or the caller so far. */
  lemma FrameOutside(m0: map<nat, Page>, f0: seq<nat>, t0: Table, m1: map<nat, Page>, f1: seq<nat>, t1: Table,
                     v: nat, pa: nat, j: nat, n: nat)
    requires Kept(m0, f0, t0, m1, f1, t1, RangeFrames(v, pa, j)) && j < n
    requires RangeFrames(v, pa, n) <= m0.Keys && RangeFrames(v, pa, n) !! InUse(t0)
             && RangeFrames(v, pa, n) !! Elems(f0)
    ensures IsUserPage(v + j) ==>
              var p := pa + j * PGSIZE; p in m1 && p !in InUse(t1) && p !in Elems(f1) && m1[p] == m0[p]
  {
    hide InUse, Elems, IsUserPage;
    RangeNext(v, pa, j);
    RangeMono(v, pa, j + 1, n);
  }

  lemma PageAfter(va: nat, j: nat)
    requires va % PGSIZE == 0
    ensures Vpn(va + j * PGSIZE) == Vpn(va) + j && (va + j * PGSIZE) % PGSIZE == 0
  {
  }

  lemma PagesFit(va: nat, size: nat, j: nat)
    requires va % PGSIZE == 0 && size % PGSIZE == 0 && va + size <= MAXVPN * PGSIZE && j < size / PGSIZE
    ensures va + j * PGSIZE < MAXVPN * PGSIZE
    ensures va + j * PGSIZE == va + size - PGSIZE <==> j + 1 == size / PGSIZE
  {
  }

  lemma KeptRoot(m0: map<nat, Page>, f0: seq<nat>, t0: Table, m1: map<nat, Page>, f1: seq<nat>, t1: Table, g: set<nat>)
    requires Kept(m0, f0, t0, m1, f1, t1, g)
    ensures t1.root == t0.root && m1.Keys == m0.Keys
  {
  }

  lemma KeysIn(mem: map<nat, Page>, free: seq<nat>, t: Table)
    requires SpaceOk(mem, free, t)
    ensures InUse(t) <= mem.Keys
  {
    hide Rep, Shape;
  }

  lemma {:induction false} MapRangeAt(leaf: map<nat, nat>, v: nat, pa: nat, perm: nat, n: nat)
    ensures forall u :: v <= u < v + n ==>
              && u in MapRange(leaf, v, pa, perm, n)
              && MapRange(leaf, v, pa, perm, n)[u] == MakePte(pa + (u - v) * PGSIZE, perm)
    ensures forall u :: u in leaf && !(v <= u < v + n) ==>
              u in MapRange(leaf, v, pa, perm, n) && MapRange(leaf, v, pa, perm, n)[u] == leaf[u]
  {
    hide MakePte;
    if n > 0 {
      MapRangeAt(leaf, v, pa, perm, n - 1);
    }
  }

  lemma MapRangeFrames(t0: Table, t1: Table, v: nat, pa: nat, perm: nat, j: nat, n: nat)
    requires t1.leaf == MapRange(t0.leaf, v, pa, perm, j) && j <= n
    requires forall u :: v <= u < v + n ==> u !in t0.leaf
    requires pa % PGSIZE == 0 && perm < 1024
    ensures RangeFrames(v, pa, j) <= UserFrames(t1)
    ensures UserFrames(t0) <= UserFrames(t1)
  {
    hide MakePte, IsUserPage;
    MapRangeAt(t0.leaf, v, pa, perm, j);
    forall x | x in RangeFrames(v, pa, j) ensures x in UserFrames(t1) {
      var i: nat :| i < j && IsUserPage(v + i) && pa + i * PGSIZE == x;
      PageAfter(pa, i);
      PteRoundTrip(x, perm);
      assert v + i in t1.leaf && t1.leaf[v + i] == MakePte(x, perm);
      assert Frame(t1, v + i) == x;
    }
    forall x | x in UserFrames(t0) ensures x in UserFrames(t1) {
      var u :| u in t0.leaf && IsUserPage(u) && Frame(t0, u) == x;
      assert Frame(t1, u) == x;
    }
  }

  lemma MapLoop(m0: map<nat, Page>, f0: seq<nat>, t0: Table, m1: map<nat, Page>, f1: seq<nat>, t1: Table,
                m2: map<nat, Page>, f2: seq<nat>, t2: Table, v: nat, pa: nat, perm: nat, j: nat, n: nat, ok: bool)
    requires Kept(m0, f0, t0, m1, f1, t1, RangeFrames(v, pa, j)) && SameUser(m0, m1, t0)
    requires t1.leaf == MapRange(t0.leaf, v, pa, perm, j) && j < n
    requires forall u :: v <= u < v + n ==> u !in t0.leaf
    requires Kept(m1, f1, t1, m2, f2, t2, if ok && IsUserPage(v + j) then {pa + j * PGSIZE} else {})
    requires SameUser(m1, m2, t1)
    requires IsUserPage(v + j) ==> pa + j * PGSIZE in m1 && m2[pa + j * PGSIZE] == m1[pa + j * PGSIZE]
    requires pa % PGSIZE == 0 && perm < 1024
    requires RangeFrames(v, pa, n) <= m0.Keys && RangeFrames(v, pa, n) !! InUse(t0)
             && RangeFrames(v, pa, n) !! Elems(f0)
    requires forall p :: p in RangeFrames(v, pa, n) ==> p in m1 && m1[p] == m0[p]
    ensures Kept(m0, f0, t0, m2, f2, t2, RangeFrames(v, pa, if ok then j + 1 else j))
    ensures SameUser(m0, m2, t0)
    ensures forall p :: p in RangeFrames(v, pa, n) ==> p in m2 && m2[p] == m0[p]
  {
    hide RangeFrames, InUse, Elems, MapRange, MakePte, IsUserPage, UserFrames;
    RangeNext(v, pa, j);
    KeptTrans(m0, f0, t0, m1, f1, t1, m2, f2, t2, RangeFrames(v, pa, j), if ok
              && IsUserPage(v + j) then {pa + j * PGSIZE} else {});
    assert RangeFrames(v, pa, j) + {} == RangeFrames(v, pa, j);
    MapRangeFrames(t0, t1, v, pa, perm, j, n);
    forall p | p in RangeFrames(v, pa, n) ensures p in m2 && m2[p] == m0[p] {
      if p !in RangeFrames(v, pa, j) {
        if !(IsUserPage(v + j) && p == pa + j * PGSIZE) {
          assert p !in Elems(f1) + InUse(t1);
        }
      }
    }
  }

  /** mappages: entries for consecutive pages and frames; -1 when a page-table page cannot be
      allocated, and then the first j pages stay mapped. */
  method Mappages(m: Machine, root: nat, va: nat, size: nat, pa: nat, perm: nat, ghost t: Table)
    returns (r: int, ghost t': Table, ghost j: nat)
    requires m.Valid() && SpaceOk(m.mem, m.free, t) && root == t.root
    requires va % PGSIZE == 0 && size % PGSIZE == 0 && size > 0 && va + size <= MAXVPN * PGSIZE
    requires forall v :: Vpn(va) <= v < Vpn(va) + size / PGSIZE ==> v !in t.leaf
    requires pa % PGSIZE == 0 && perm < 1024 && HasRwx(perm)
    requires RangeFrames(Vpn(va), pa, size / PGSIZE) <= m.mem.Keys
    requires RangeFrames(Vpn(va), pa, size / PGSIZE) !! InUse(t)
    requires RangeFrames(Vpn(va), pa, size / PGSIZE) !! Elems(m.free)
    modifies m
    ensures m.Valid() && SpaceOk(m.mem, m.free, t')
    ensures j <= size / PGSIZE && r == (if j == size / PGSIZE then 0 else -1)
    ensures t'.leaf == MapRange(t.leaf, Vpn(va), pa, perm, j)
    ensures Kept(old(m.mem), old(m.free), t, m.mem, m.free, t', RangeFrames(Vpn(va), pa, j))
    ensures SameUser(old(m.mem), m.mem, t)
    ensures r != 0 ==> m.free == []
    ensures var v, n := Vpn(va), size / PGSIZE;
            && (r == 0 <==> |old(m.free)| >= Need(0, DirsOf(t), All, v, v + n))
            && (r == 0 ==> |m.free| == |old(m.free)| - Need(0, DirsOf(t), All, v, v + n))
            && (r == 0 ==> DirsOf(t') == DirsFor(DirsOf(t), All, v, v + n))
    ensures forall p :: p in RangeFrames(Vpn(va), pa, size / PGSIZE) ==> m.mem[p] == old(m.mem)[p]
  {
    hide Need, DirsFor, Missing, WithDirs, Budget, DirsOf;
    hide FreeOk, Elems, Rep, Shape, PtPages, UserFrames, SpaceOk, HasRwx, MakePte, IsUserPage, SameUser, Kept,
         RangeFrames, InUse;
    ghost var v, n := Vpn(va), size / PGSIZE;
    t', j := t, 0;
    WalkStart(m.mem, m.free, t);
    RangeNext(v, pa, 0);
    KeysIn(m.mem, m.free, t);
    assert Budget(0, DirsOf(t), All, v, v + n, |m.free|, DirsOf(t), v,
                  |m.free|) by { BudgetStart(0, t, All, v, v + n, |m.free|); }
    var a, f := va, pa;
    while true
      invariant j < n && a == va + j * PGSIZE && f == pa + j * PGSIZE
      invariant m.Valid() && SpaceOk(m.mem, m.free, t') && m.mem.Keys == old(m.mem).Keys && t'.root == root
                && t.root == root
      invariant t'.leaf == MapRange(t.leaf, v, pa, perm, j)
      invariant Kept(old(m.mem), old(m.free), t, m.mem, m.free, t', RangeFrames(v, pa, j))
      invariant SameUser(old(m.mem), m.mem, t)
      invariant Budget(0, DirsOf(t), All, v, v + n, |old(m.free)|, DirsOf(t'), v + j, |m.free|)
      invariant forall p :: p in RangeFrames(v, pa, n) ==> p in m.mem && m.mem[p] == old(m.mem)[p]
      decreases n - j
    {
      assert Vpn(a) == v + j && a < MAXVPN * PGSIZE by { PageAfter(va, j); PagesFit(va, size, j); }
      assert f % PGSIZE == 0 by { PageAfter(pa, j); }
      FrameOutside(old(m.mem), old(m.free), t, m.mem, m.free, t', v, pa, j, n);
      MapRangeKeys(t.leaf, v, pa, perm, j);
      ghost var mem1, free1, t1 := m.mem, m.free, t';
      var ok;
      ok, t' := MapPage(m, root, a, f, perm, t');
      KeptRoot(mem1, free1, t1, m.mem, m.free, t', if ok && IsUserPage(Vpn(a)) then {f} else {});
      MapLoop(old(m.mem), old(m.free), t, mem1, free1, t1, m.mem, m.free, t', v, pa, perm, j, n, ok);
      BudgetNext(0, DirsOf(t), All, v, v + n, |old(m.free)|, DirsOf(t1), v + j, |free1|);
      if !ok {
        return -1, t', j;
      }
      j := j + 1;
      if a == va + size - PGSIZE {
        break;
      }
      a, f := a + PGSIZE, f + PGSIZE;
    }
    BudgetEnd(0, DirsOf(t), All, v, v + n, |old(m.free)|, DirsOf(t'), |m.free|);
    r := 0;
  }

  // ---- uvmunmap

  lemma NotMapped(mem: map<nat, Page>, free: seq<nat>, t: Table, v: nat)
    requires SpaceOk(mem, free, t) && Up(v) !in t.low
    ensures t.leaf - {v} == t.leaf
  {
    hide Up, Rep, Elems;
  }

  lemma FrameIn(mem: map<nat, Page>, free: seq<nat>, t: Table, v: nat)
    requires SpaceOk(mem, free, t) && v in t.leaf && IsUserPage(v)
    ensures Frame(t, v) in mem && Frame(t, v) !in free && Frame(t, v) in UserFrames(t) && Frame(t, v) !in PtPages(t)
  {
    hide Rep, Shape, PtPages;
    ElemsOf(free, Frame(t, v));
  }

  lemma UnmapFreed(mem: map<nat, Page>, free: seq<nat>, t: Table, v: nat, mem': map<nat, Page>, free': seq<nat>)
    requires SpaceOk(mem, free, t) && v in t.leaf && IsUserPage(v) && Up(v) in t.low
    requires mem'.Keys == mem.Keys && Elems(free') == Elems(free) + {Frame(t, v)}
    requires t.low[Up(v)] in mem && |mem[t.low[Up(v)]]| == WORDS
             && mem'[t.low[Up(v)]] == Poke(mem[t.low[Up(v)]], Idx(v), 0)
    requires forall q :: q in mem && q != Frame(t, v) && q != t.low[Up(v)] ==> mem'[q] == mem[q]
    ensures var t' := t.(leaf := t.leaf - {v});
            SpaceOk(mem', free', t') && Kept(mem, free, t, mem', free', t', {}) && SameUser(mem, mem', t')
  {
    hide Up, Idx, Elems, Poke, Pte2Pa, IsUserPage, Rep, Shape, PtPages, UserFrames;
    var t' := t.(leaf := t.leaf - {v});
    UnmapOk(mem, free, t, v);
    var p := t.low[Up(v)];
    var mem1: map<nat, Page> := mem[p := Poke(mem[p], Idx(v), 0)];
    GiveOk(mem1, free, t', mem', free', Frame(t, v));
    LowIn(mem, t, Up(v));
    FrameIn(mem, free, t, v);
    FramesRemove(t, v);
  }

  lemma UnmapKept(mem: map<nat, Page>, free: seq<nat>, t: Table, v: nat, mem': map<nat, Page>)
    requires SpaceOk(mem, free, t) && v in t.leaf && !IsUserPage(v) && Up(v) in t.low
    requires t.low[Up(v)] in mem && |mem[t.low[Up(v)]]| == WORDS
             && mem' == mem[t.low[Up(v)] := Poke(mem[t.low[Up(v)]], Idx(v), 0)]
    ensures var t' := t.(leaf := t.leaf - {v});
            SpaceOk(mem', free, t') && Kept(mem, free, t, mem', free, t', {}) && SameUser(mem, mem', t')
  {
    hide Up, Idx, Elems, Poke, Pte2Pa, IsUserPage, Rep, Shape, PtPages, UserFrames;
    UnmapOk(mem, free, t, v);
    LowIn(mem, t, Up(v));
    FramesRemove(t, v);
  }

  /** One turn of uvmunmap's loop: nothing happens unless the page is mapped. The frames of user
      pages are freed, those of trampoline and trapframe are not. */
  method UnmapPage(m: Machine, root: nat, va: nat, do_free: bool, ghost t: Table) returns (ghost t': Table)
    requires m.Valid() && SpaceOk(m.mem, m.free, t) && root == t.root && va < MAXVPN * PGSIZE
    requires do_free <==> IsUserPage(Vpn(va))
    modifies m
    ensures m.Valid() && SpaceOk(m.mem, m.free, t')
    ensures t' == t.(leaf := t.leaf - {Vpn(va)})
    ensures Kept(old(m.mem), old(m.free), t, m.mem, m.free, t', {}) && SameUser(old(m.mem), m.mem, t')
  {
    hide FreeOk, Up, Idx, Elems, Rep, Shape, PtPages, UserFrames, Poke, Vpn, IsValid, Pte2Pa, SpaceOk, IsUserPage,
         SameUser;
    ghost var v := Vpn(va);
    var r, t1 := Walk(m, root, va, false, t);
    t' := t;
    WalkStart(m.mem, m.free, t);
    if r.None? {
      NotMapped(m.mem, m.free, t, v);
      return;
    }
    var (p, i) := r.value;
    LowEntry(m.mem, m.free, t, v);
    LeafNotFree(m.mem, m.free, t, v);
    var pte := m.mem[p][i];
    if !IsValid(pte) {
      assert t.leaf - {v} == t.leaf;
      return;
    }
    t' := t.(leaf := t.leaf - {v});
    UnmapOk(m.mem, m.free, t, v);
    ghost var mem0, free0 := m.mem, m.free;
    if do_free {
      var pa := Pte2Pa(pte);
      FrameIn(mem0, free0, t, v);
      m.Kfree(pa);
      m.Store(p, Poke(m.mem[p], i, 0));
      UnmapFreed(mem0, free0, t, v, m.mem, m.free);
    } else {
      m.Store(p, Poke(m.mem[p], i, 0));
      UnmapKept(mem0, free0, t, v, m.mem);
    }
  }

  /** The entries outside n pages from v. */
  ghost function Without(leaf: map<nat, nat>, v: nat, n: nat): (r: map<nat, nat>) {
    map u | u in leaf && !(v <= u < v + n) :: leaf[u]
  }

  lemma UnmapLoop(m0: map<nat, Page>, f0: seq<nat>, t0: Table, m1: map<nat, Page>, f1: seq<nat>, t1: Table,
                  m2: map<nat, Page>, f2: seq<nat>, t2: Table)
    requires Kept(m0, f0, t0, m1, f1, t1, {}) && Kept(m1, f1, t1, m2, f2, t2, {})
    requires SameUser(m0, m1, t1) && SameUser(m1, m2, t2)
    requires forall u :: u in t2.leaf ==> u in t1.leaf && t1.leaf[u] == t2.leaf[u]
    ensures Kept(m0, f0, t0, m2, f2, t2, {}) && SameUser(m0, m2, t2)
  {
    hide InUse, Elems, Kept, IsUserPage;
    KeptTrans(m0, f0, t0, m1, f1, t1, m2, f2, t2, {}, {});
    var none: set<nat> := {};
    assert none + none == none;
    forall x | x in UserFrames(t2) ensures x in UserFrames(t1) {
      var u :| u in t2.leaf && IsUserPage(u) && Frame(t2, u) == x;
      assert Frame(t1, u) == x;
    }
  }

  /** uvmunmap: remove npages of mappings from va, freeing the frames of user pages. */
  method Uvmunmap(m: Machine, root: nat, va: nat, npages: nat, do_free: bool, ghost t: Table) returns (ghost t': Table)
    requires m.Valid() && SpaceOk(m.mem, m.free, t) && root == t.root
    requires va % PGSIZE == 0 && va + npages * PGSIZE <= MAXVPN * PGSIZE
    requires forall v :: Vpn(va) <= v < Vpn(va) + npages ==> (do_free <==> IsUserPage(v))
    modifies m
    ensures m.Valid() && SpaceOk(m.mem, m.free, t')
    ensures t' == t.(leaf := Without(t.leaf, Vpn(va), npages))
    ensures Kept(old(m.mem), old(m.free), t, m.mem, m.free, t', {}) && SameUser(old(m.mem), m.mem, t')
  {
    hide FreeOk, Elems, Rep, Shape, PtPages, UserFrames, SpaceOk, IsUserPage, SameUser, Kept, InUse;
    ghost var v := Vpn(va);
    t' := t;
    WalkStart(m.mem, m.free, t);
    assert Without(t.leaf, v, 0) == t.leaf;
    var a := va;
    ghost var j := 0;
    while a < va + npages * PGSIZE
      invariant 0 <= j <= npages && a == va + j * PGSIZE
      invariant m.Valid() && SpaceOk(m.mem, m.free, t')
      invariant t' == t.(leaf := Without(t.leaf, v, j))
      invariant Kept(old(m.mem), old(m.free), t, m.mem, m.free, t', {}) && SameUser(old(m.mem), m.mem, t')
      decreases npages - j
    {
      assert Vpn(a) == v + j && a < MAXVPN * PGSIZE by { PageAfter(va, j); }
      ghost var mem1, free1, t1 := m.mem, m.free, t';
      t' := UnmapPage(m, root, a, do_free, t');
      assert Without(t.leaf, v, j) - {v + j} == Without(t.leaf, v, j + 1);
      UnmapLoop(old(m.mem), old(m.free), t, mem1, free1, t1, m.mem, m.free, t');
      a := a + PGSIZE;
      j := j + 1;
    }
  }

  // ---- a new page of user memory, as in uvmalloc, uvmcopy and vmfault

  lemma VaFits(va: nat)
    requires IsUserPage(Vpn(va)) && va % PGSIZE == 0
    ensures va + PGSIZE <= MAXVPN * PGSIZE
  {
  }

  lemma OnePage()
    ensures PGSIZE / PGSIZE == 1
  {
  }

  lemma Aligned(mem: map<nat, Page>, head: nat, free: seq<nat>, p: nat)
    requires FreeOk(mem, head, free) && p in mem
    ensures p % PGSIZE == 0
  {
  }

  lemma OneFrame(v: nat, pa: nat)
    requires IsUserPage(v)
    ensures RangeFrames(v, pa, 1) == {pa} && RangeFrames(v, pa, 0) == {}
  {
    RangeNext(v, pa, 0);
  }

  lemma AddFailed(m0: map<nat, Page>, f0: seq<nat>, t: Table, m2: map<nat, Page>, f1: seq<nat>,
                  m3: map<nat, Page>, f3: seq<nat>, t1: Table, m4: map<nat, Page>, f4: seq<nat>, pa: nat)
    requires m2.Keys == m0.Keys && (forall q :: q in m0 && q != pa ==> m2[q] == m0[q])
    requires Elems(f0) == Elems(f1) + {pa} && pa !in InUse(t) && InUse(t) <= m0.Keys
    requires Kept(m2, f1, t, m3, f3, t1, {}) && SameUser(m2, m3, t)
    requires m4.Keys == m3.Keys && (forall q :: q in m3 && q != pa ==> m4[q] == m3[q]) && Elems(f4) == Elems(f3) + {pa}
    ensures Kept(m0, f0, t, m4, f4, t1, {}) && SameUser(m0, m4, t)
  {
    hide Elems, PtPages, UserFrames;
  }

  lemma AddWorked(m0: map<nat, Page>, f0: seq<nat>, t: Table, m2: map<nat, Page>, f1: seq<nat>,
                  m3: map<nat, Page>, f3: seq<nat>, t1: Table, pa: nat)
    requires m2.Keys == m0.Keys && (forall q :: q in m0 && q != pa ==> m2[q] == m0[q])
    requires Elems(f0) == Elems(f1) + {pa} && pa !in InUse(t) && InUse(t) <= m0.Keys
    requires Kept(m2, f1, t, m3, f3, t1, {pa}) && SameUser(m2, m3, t)
    ensures Kept(m0, f0, t, m3, f3, t1, {}) && SameUser(m0, m3, t)
  {
    hide Elems, PtPages, UserFrames;
  }

  /** kalloc a page, fill it, and map it at the unmapped user page va; when kalloc or mappages fails,
      nothing stays allocated except page-table pages, and 0 is returned. */
  method AddPage(m: Machine, root: nat, va: nat, page: Page, perm: nat, ghost t: Table)
    returns (pa: nat, ghost t': Table)
    requires m.Valid() && SpaceOk(m.mem, m.free, t) && root == t.root
    requires va % PGSIZE == 0 && IsUserPage(Vpn(va)) && Vpn(va) !in t.leaf
    requires |page| == WORDS && perm < 1024 && HasRwx(perm)
    modifies m
    ensures m.Valid() && SpaceOk(m.mem, m.free, t')
    ensures Kept(old(m.mem), old(m.free), t, m.mem, m.free, t', {}) && SameUser(old(m.mem), m.mem, t)
    ensures pa == 0 ==> t'.leaf == t.leaf
    ensures pa != 0 ==> t'.leaf == t.leaf[Vpn(va) := MakePte(pa, perm)] && pa in m.mem && m.mem[pa] == page
    ensures pa != 0 ==> pa % PGSIZE == 0 && pa in old(m.free)
    ensures pa == 0 <==> |old(m.free)| < 1 + Missing(DirsOf(t), Vpn(va))
    ensures pa != 0 ==> |m.free| == |old(m.free)| - 1 - Missing(DirsOf(t), Vpn(va))
    ensures pa != 0 ==> DirsOf(t') == WithDirs(DirsOf(t), Vpn(va))
  {
    hide Need, DirsFor, Missing, WithDirs;
    hide FreeOk, Elems, Rep, Shape, PtPages, UserFrames, HasRwx, MakePte, IsUserPage, SameUser, Kept, InUse, SpaceOk;
    t' := t;
    ghost var v := Vpn(va);
    VaFits(va);
    OnePage();
    OneNeed(0, DirsOf(t), v);
    WalkStart(m.mem, m.free, t);
    KeysIn(m.mem, m.free, t);
    pa := m.Kalloc();
    if pa == 0 {
      return;
    }
    TakeOk(old(m.mem), old(m.free), t, m.mem, m.free, pa);
    Aligned(m.mem, m.freelist, m.free, pa);
    ElemsOf(m.free, pa);
    ghost var mem1, free1 := m.mem, m.free;
    m.Store(pa, page);
    GiveOk(mem1, free1, t, m.mem, m.free, pa);
    ghost var mem2 := m.mem;
    OneFrame(v, pa);
    var r, t1, j := Mappages(m, root, va, PGSIZE, pa, perm, t);
    t' := t1;
    KeptRoot(mem2, free1, t, m.mem, m.free, t1, RangeFrames(v, pa, j));
    if r != 0 {
      ghost var mem3, free3 := m.mem, m.free;
      StillOutside(mem2, free1, t, mem3, free3, t1, {pa});
      ElemsOf(m.free, pa);
      m.Kfree(pa);
      GiveOk(mem3, free3, t1, m.mem, m.free, pa);
      AddFailed(old(m.mem), old(m.free), t, mem2, free1, mem3, free3, t1, m.mem, m.free, pa);
      return 0, t';
    }
    assert MapRange(t.leaf, v, pa, perm, 1) == t.leaf[v := MakePte(pa, perm)];
    AddWorked(old(m.mem), old(m.free), t, mem2, free1, m.mem, m.free, t1, pa);
  }

  // ---- sizes

  /** PGROUNDUP(sz) / PGSIZE */
  function PagesOf(sz: nat): (n: nat) { (sz + PGSIZE - 1) / PGSIZE }

  function PgRoundUp(sz: nat): (r: nat) { (sz + PGSIZE - 1) / PGSIZE * PGSIZE }

  lemma RoundUp(sz: nat)
    ensures PgRoundUp(sz) % PGSIZE == 0 && Vpn(PgRoundUp(sz)) == PagesOf(sz) && sz <= PgRoundUp(sz) < sz + PGSIZE
    ensures PgRoundUp(sz) / PGSIZE == PagesOf(sz) && PagesOf(PgRoundUp(sz)) == PagesOf(sz)
    ensures PagesOf(sz) * PGSIZE == PgRoundUp(sz)
  {
  }

  // ---- uvmdealloc and uvmalloc

  lemma PagesMono(a: nat, b: nat)
    requires a <= b
    ensures PagesOf(a) <= PagesOf(b)
  {
  }

  /** uvmdealloc: unmap and free the pages between the two sizes. */
  method Uvmdealloc(m: Machine, root: nat, oldsz: nat, newsz: nat, ghost t: Table) returns (r: nat, ghost t': Table)
    requires m.Valid() && SpaceOk(m.mem, m.free, t) && root == t.root && PagesOf(oldsz) <= TRAPFRAME
    modifies m
    ensures m.Valid() && SpaceOk(m.mem, m.free, t')
    ensures r == (if newsz >= oldsz then oldsz else newsz)
    ensures t'.mid == t.mid && t'.low == t.low
    ensures t'.leaf == if newsz < oldsz then Without(t.leaf, PagesOf(newsz),
                                                     PagesOf(oldsz) - PagesOf(newsz)) else t.leaf
    ensures Kept(old(m.mem), old(m.free), t, m.mem, m.free, t', {}) && SameUser(old(m.mem), m.mem, t')
  {
    hide FreeOk, Elems, Rep, Shape, PtPages, UserFrames, SameUser, Kept, InUse, SpaceOk, PagesOf, PgRoundUp, Vpn;
    t' := t;
    WalkStart(m.mem, m.free, t);
    if newsz >= oldsz {
      return oldsz, t';
    }
    RoundUp(newsz);
    RoundUp(oldsz);
    PagesMono(newsz, oldsz);
    if PgRoundUp(newsz) < PgRoundUp(oldsz) {
      var npages := (PgRoundUp(oldsz) - PgRoundUp(newsz)) / PGSIZE;
      t' := Uvmunmap(m, root, PgRoundUp(newsz), npages, true, t);
    } else {
      assert Without(t.leaf, PagesOf(newsz), 0) == t.leaf;
    }
    r := newsz;
  }

  /** Pages lo..hi are mapped to zeroed frames with the given flags. */
  ghost predicate Zeroed(mem: map<nat, Page>, t: Table, lo: nat, hi: nat, perm: nat) {
    forall v :: lo <= v < hi ==>
      v in t.leaf && Frame(t, v) in mem && mem[Frame(t, v)] == Filled(0) && t.leaf[v] == MakePte(Frame(t, v), perm)
  }

  lemma PermOk(xperm: nat)
    requires xperm == 0 || xperm == PTE_W || xperm == PTE_X || xperm == PTE_W + PTE_X
    ensures HasRwx(PTE_R + PTE_U + xperm) && PTE_R + PTE_U + xperm < 1024
  {
  }

  /** What an entry lets the user do with the page. */
  predicate Permits(pte: nat, write: bool, exec: bool) {
    IsUser(pte) && CanRead(pte) && (CanWrite(pte) <==> write) && (CanExec(pte) <==> exec)
  }

  /** The frame at which walkaddr finds an address, or 0. */
  ghost function Translates(t: Table, va: nat): (pa: nat) {
    if va < MAXVPN * PGSIZE && Vpn(va) in t.leaf && IsUser(t.leaf[Vpn(va)]) then Frame(t, Vpn(va)) else 0
  }

  /** Every address in pages lo..hi is found, and its page can be used as asked. */
  ghost predicate Usable(t: Table, lo: nat, hi: nat, write: bool, exec: bool) {
    && (forall v :: lo <= v < hi ==> v in t.leaf && Permits(t.leaf[v], write, exec))
    && (forall va: nat :: lo <= Vpn(va) < hi ==> Translates(t, va) == Frame(t, Vpn(va)) != 0)
  }

  lemma UserPerm(xperm: nat)
    requires xperm == 0 || xperm == PTE_W || xperm == PTE_X || xperm == PTE_W + PTE_X
    ensures Permits(PTE_R + PTE_U + xperm, xperm == PTE_W || xperm == PTE_W + PTE_X,
                    xperm == PTE_X || xperm == PTE_W + PTE_X)
  {
  }

  lemma InTable(va: nat)
    requires Vpn(va) < TRAPFRAME
    ensures va < MAXVPN * PGSIZE
  {
  }

  /** The pages that uvmalloc maps can be used as asked. */
  lemma ZeroedUsable(mem: map<nat, Page>, head: nat, free: seq<nat>, t: Table, lo: nat, hi: nat, xperm: nat)
    requires Zeroed(mem, t, lo, hi, PTE_R + PTE_U + xperm) && FreeOk(mem, head, free) && hi <= TRAPFRAME
    requires xperm == 0 || xperm == PTE_W || xperm == PTE_X || xperm == PTE_W + PTE_X
    ensures Usable(t, lo, hi, xperm == PTE_W || xperm == PTE_W + PTE_X, xperm == PTE_X || xperm == PTE_W + PTE_X)
  {
    UserPerm(xperm);
    var perm := PTE_R + PTE_U + xperm;
    hide MakePte, Pte2Pa, IsUser, CanRead, CanWrite, CanExec, Vpn, Listed;
    forall v | lo <= v < hi
      ensures v in t.leaf && Frame(t, v) != 0
              && Permits(t.leaf[v], xperm == PTE_W || xperm == PTE_W + PTE_X, xperm == PTE_X || xperm == PTE_W + PTE_X)
    {
      assert Frame(t, v) in mem;
      PteRoundTrip(Frame(t, v), perm);
    }
    forall va: nat | lo <= Vpn(va) < hi ensures Translates(t, va) == Frame(t, Vpn(va)) != 0 {
      InTable(va);
    }
  }

  lemma ZeroedNone(mem: map<nat, Page>, t: Table, lo: nat, perm: nat)
    ensures Zeroed(mem, t, lo, lo, perm)
  {
  }

  lemma BelowSize(a: nat, newsz: nat)
    requires a % PGSIZE == 0 && a < newsz
    ensures Vpn(a) < PagesOf(newsz)
  {
  }

  lemma AtSize(a: nat, newsz: nat)
    requires a % PGSIZE == 0 && newsz <= a
    ensures PagesOf(newsz) <= Vpn(a)
  {
  }

  lemma RoundedIs(a: nat)
    requires a % PGSIZE == 0
    ensures PagesOf(a) == Vpn(a)
  {
  }

  lemma NotYetMapped(leaf: map<nat, nat>, leaf': map<nat, nat>, lo: nat, j: nat)
    requires Without(leaf', lo, j) == leaf && lo + j !in leaf
    ensures lo + j !in leaf'
  {
  }

  lemma WithoutNext(leaf: map<nat, nat>, lo: nat, j: nat, w: nat)
    requires lo + j !in leaf
    ensures Without(leaf[lo + j := w], lo, j + 1) == Without(leaf, lo, j)
  {
  }

  lemma GrowLoop(m0: map<nat, Page>, f0: seq<nat>, t0: Table, m1: map<nat, Page>, f1: seq<nat>, t1: Table,
                 m2: map<nat, Page>, f2: seq<nat>, t2: Table)
    requires Kept(m0, f0, t0, m1, f1, t1, {}) && Kept(m1, f1, t1, m2, f2, t2, {})
    requires SameUser(m0, m1, t0) && SameUser(m1, m2, t1)
    requires forall u :: u in t0.leaf ==> u in t1.leaf && t1.leaf[u] == t0.leaf[u]
    ensures Kept(m0, f0, t0, m2, f2, t2, {}) && SameUser(m0, m2, t0)
  {
    hide InUse, Elems, Kept, IsUserPage;
    KeptTrans(m0, f0, t0, m1, f1, t1, m2, f2, t2, {}, {});
    var none: set<nat> := {};
    assert none + none == none;
    forall x | x in UserFrames(t0) ensures x in UserFrames(t1) {
      var u :| u in t0.leaf && IsUserPage(u) && Frame(t0, u) == x;
      assert Frame(t1, u) == x;
    }
  }

  lemma ShrinkBack(m0: map<nat, Page>, f0: seq<nat>, t0: Table, m1: map<nat, Page>, f1: seq<nat>, t1: Table,
                   m2: map<nat, Page>, f2: seq<nat>, t2: Table)
    requires Kept(m0, f0, t0, m1, f1, t1, {}) && Kept(m1, f1, t1, m2, f2, t2, {})
    requires SameUser(m0, m1, t0) && SameUser(m1, m2, t2) && t2.leaf == t0.leaf
    ensures Kept(m0, f0, t0, m2, f2, t2, {}) && SameUser(m0, m2, t0)
  {
    hide InUse, Elems, Kept, IsUserPage;
    KeptTrans(m0, f0, t0, m1, f1, t1, m2, f2, t2, {}, {});
    var none: set<nat> := {};
    assert none + none == none;
    assert UserFrames(t2) == UserFrames(t0);
  }

  lemma ZeroedNext(m1: map<nat, Page>, t1: Table, m2: map<nat, Page>, t2: Table, lo: nat, j: nat, pa: nat, perm: nat)
    requires Zeroed(m1, t1, lo, lo + j, perm) && SameUser(m1, m2, t1) && lo + j <= TRAPFRAME
    requires t2.leaf == t1.leaf[lo + j := MakePte(pa, perm)] && lo + j !in t1.leaf
    requires pa in m2 && m2[pa] == Filled(0) && pa % PGSIZE == 0 && perm < 1024
    ensures Zeroed(m2, t2, lo, lo + j + 1, perm)
  {
    hide MakePte, Pte2Pa;
    PteRoundTrip(pa, perm);
    forall v | lo <= v < lo + j + 1
      ensures v in t2.leaf && Frame(t2, v) in m2 && m2[Frame(t2, v)] == Filled(0)
              && t2.leaf[v] == MakePte(Frame(t2, v), perm)
    {
      if v < lo + j {
        assert Frame(t1, v) in UserFrames(t1);
      }
    }
  }

  /** uvmalloc: every page between the sizes gets a fresh zeroed frame, or, when memory runs out, no
      leaf entry and no frame is left over and 0 is returned. */
  method Uvmalloc(m: Machine, root: nat, oldsz: nat, newsz: nat, xperm: nat, ghost t: Table)
    returns (r: nat, ghost t': Table)
    requires m.Valid() && SpaceOk(m.mem, m.free, t) && root == t.root && PagesOf(newsz) <= TRAPFRAME
    requires forall v :: PagesOf(oldsz) <= v < PagesOf(newsz) ==> v !in t.leaf
    requires xperm == 0 || xperm == PTE_W || xperm == PTE_X || xperm == PTE_W + PTE_X
    modifies m
    ensures m.Valid() && SpaceOk(m.mem, m.free, t')
    ensures Kept(old(m.mem), old(m.free), t, m.mem, m.free, t', {}) && SameUser(old(m.mem), m.mem, t)
    ensures newsz < oldsz ==> r == oldsz && t' == t && m.mem == old(m.mem)
    ensures newsz >= oldsz ==> r == newsz || r == 0
    ensures newsz >= oldsz && r == newsz != 0 ==>
              && Zeroed(m.mem, t', PagesOf(oldsz), PagesOf(newsz), PTE_R + PTE_U + xperm)
              && Without(t'.leaf, PagesOf(oldsz), PagesOf(newsz) - PagesOf(oldsz)) == t.leaf
    ensures newsz >= oldsz && r == newsz != 0 ==>
              Usable(t', PagesOf(oldsz), PagesOf(newsz), xperm == PTE_W || xperm == PTE_W + PTE_X,
                     xperm == PTE_X || xperm == PTE_W + PTE_X)
    ensures newsz >= oldsz && r == 0 ==> t'.leaf == t.leaf
    ensures newsz >= oldsz && newsz > 0 ==>
              (r == 0 <==> |old(m.free)| < Need(1, DirsOf(t), All, PagesOf(oldsz), PagesOf(newsz)))
  {
    hide Need, DirsFor, Missing, WithDirs, Budget, DirsOf;
    hide FreeOk, Elems, Rep, Shape, PtPages, UserFrames, SameUser, Kept, InUse, SpaceOk, PagesOf, PgRoundUp, Vpn,
         Zeroed, MakePte, HasRwx, Usable;
    t' := t;
    WalkStart(m.mem, m.free, t);
    if newsz < oldsz {
      return oldsz, t';
    }
    RoundUp(oldsz);
    RoundUp(newsz);
    PagesMono(oldsz, newsz);
    PermOk(xperm);
    ghost var lo := PagesOf(oldsz);
    var start := PgRoundUp(oldsz);
    var a := start;
    ghost var j := 0;
    assert Without(t.leaf, lo, 0) == t.leaf;
    ZeroedNone(m.mem, t, lo, PTE_R + PTE_U + xperm);
    BudgetStart(1, t, All, lo, PagesOf(newsz), |m.free|);
    while a < newsz
      invariant 0 <= j && a == start + j * PGSIZE && lo + j <= PagesOf(newsz)
      invariant m.Valid() && SpaceOk(m.mem, m.free, t') && t'.root == root
      invariant Kept(old(m.mem), old(m.free), t, m.mem, m.free, t', {}) && SameUser(old(m.mem), m.mem, t)
      invariant Zeroed(m.mem, t', lo, lo + j, PTE_R + PTE_U + xperm)
      invariant Without(t'.leaf, lo, j) == t.leaf
      invariant Budget(1, DirsOf(t), All, lo, PagesOf(newsz), |old(m.free)|, DirsOf(t'), lo + j, |m.free|)
      decreases PagesOf(newsz) - lo - j
    {
      assert Vpn(a) == lo + j && a % PGSIZE == 0 by { PageAfter(start, j); }
      assert lo + j < PagesOf(newsz) by { BelowSize(a, newsz); }
      NotYetMapped(t.leaf, t'.leaf, lo, j);
      ghost var mem1, free1, t1 := m.mem, m.free, t';
      var pa;
      pa, t' := AddPage(m, root, a, Filled(0), PTE_R + PTE_U + xperm, t');
      KeptRoot(mem1, free1, t1, m.mem, m.free, t', {});
      GrowLoop(old(m.mem), old(m.free), t, mem1, free1, t1, m.mem, m.free, t');
      BudgetNext(1, DirsOf(t), All, lo, PagesOf(newsz), |old(m.free)|, DirsOf(t1), lo + j, |free1|);
      if pa == 0 {
        ghost var mem2, free2, t2 := m.mem, m.free, t';
        RoundUp(a);
        RoundedIs(a);
        var x;
        x, t' := Uvmdealloc(m, root, a, start, t');
        assert t'.leaf == t.leaf by { RoundedIs(start); }
        ShrinkBack(old(m.mem), old(m.free), t, mem2, free2, t2, m.mem, m.free, t');
        return 0, t';
      }
      ZeroedNext(mem1, t1, m.mem, t', lo, j, pa, PTE_R + PTE_U + xperm);
      WithoutNext(t1.leaf, lo, j, MakePte(pa, PTE_R + PTE_U + xperm));
      a := a + PGSIZE;
      j := j + 1;
    }
    assert lo + j == PagesOf(newsz) by { PageAfter(start, j); AtSize(a, newsz); }
    BudgetEnd(1, DirsOf(t), All, lo, PagesOf(newsz), |old(m.free)|, DirsOf(t'), |m.free|);
    ZeroedUsable(m.mem, m.freelist, m.free, t', lo, PagesOf(newsz), xperm);
    r := newsz;
  }

  // ---- vmfault

  lemma FaultPage(va: nat, sz: nat)
    requires va < sz && PagesOf(sz) <= TRAPFRAME
    ensures var a := va / PGSIZE * PGSIZE;
            Vpn(a) == Vpn(va) < PagesOf(sz) && IsUserPage(Vpn(a)) && a < MAXVPN * PGSIZE && a % PGSIZE == 0
  {
  }

  /** ismapped */
  method IsMapped(m: Machine, root: nat, va: nat, ghost t: Table) returns (r: bool)
    requires m.Valid() && SpaceOk(m.mem, m.free, t) && root == t.root && va < MAXVPN * PGSIZE
    modifies m
    ensures m.Valid() && m.mem == old(m.mem) && m.free == old(m.free)
    ensures r <==> Vpn(va) in t.leaf
  {
    hide FreeOk, Up, Idx, Elems, Rep, Shape, PtPages, UserFrames, Vpn, IsValid, SpaceOk, Kept, SameUser;
    var w, t1 := Walk(m, root, va, false, t);
    if w.None? {
      NotMapped(m.mem, m.free, t, Vpn(va));
      assert Vpn(va) !in t.leaf - {Vpn(va)};
      return false;
    }
    LowEntry(m.mem, m.free, t, Vpn(va));
    var (p, i) := w.value;
    r := IsValid(m.mem[p][i]);
  }

  lemma FaultFound(mem: map<nat, Page>, head: nat, free: seq<nat>, t: Table, va: nat, pa: nat)
    requires FreeOk(mem, head, free) && pa in mem && Vpn(va) < TRAPFRAME
    requires Vpn(va) in t.leaf && t.leaf[Vpn(va)] == MakePte(pa, PTE_W + PTE_U + PTE_R)
    ensures Permits(t.leaf[Vpn(va)], true, false) && Translates(t, va) == pa
  {
    UserPerm(PTE_W);
    PteRoundTrip(pa, PTE_W + PTE_U + PTE_R);
    InTable(va);
    hide MakePte, Pte2Pa, IsUser, CanRead, CanWrite, CanExec, Vpn, Listed;
  }

  /** vmfault on the faulting process's own table: a page below the process size that is not mapped
      gets a zeroed read-write frame; 0 when va is out of range, already mapped, or memory ran out. */
  method Vmfault(m: Machine, root: nat, sz: nat, va: nat, ghost t: Table) returns (pa: nat, ghost t': Table)
    requires m.Valid() && SpaceOk(m.mem, m.free, t) && root == t.root && PagesOf(sz) <= TRAPFRAME
    modifies m
    ensures m.Valid() && SpaceOk(m.mem, m.free, t')
    ensures Kept(old(m.mem), old(m.free), t, m.mem, m.free, t', {}) && SameUser(old(m.mem), m.mem, t)
    ensures pa == 0 ==> t'.leaf == t.leaf
    ensures pa != 0 ==> va < sz && Vpn(va) !in t.leaf
                        && t'.leaf == t.leaf[Vpn(va) := MakePte(pa, PTE_W + PTE_U + PTE_R)]
    ensures pa != 0 ==> pa in m.mem && m.mem[pa] == Filled(0)
    ensures pa != 0 ==> Vpn(va) in t'.leaf && Permits(t'.leaf[Vpn(va)], true, false) && Translates(t', va) == pa
    ensures va < sz && Vpn(va) in t.leaf ==> pa == 0 && t' == t
    ensures pa == 0 <==> va >= sz || Vpn(va) in t.leaf || |old(m.free)| < 1 + Missing(DirsOf(t), Vpn(va))
  {
    hide Missing, WithDirs;
    hide FreeOk, Elems, Rep, Shape, PtPages, UserFrames, SameUser, Kept, InUse, SpaceOk, PagesOf, MakePte, Up, Idx,
         IsValid, Permits, Pte2Pa, IsUser;
    t' := t;
    WalkStart(m.mem, m.free, t);
    if va >= sz {
      return 0, t';
    }
    var a := va / PGSIZE * PGSIZE;
    FaultPage(va, sz);
    var mapped := IsMapped(m, root, a, t);
    if mapped {
      return 0, t';
    }
    PermOk(PTE_W);
    pa, t' := AddPage(m, root, a, Filled(0), PTE_W + PTE_U + PTE_R, t);
    if pa != 0 { FaultFound(m.mem, m.freelist, m.free, t', va, pa); }
  }

  /** walkaddr: the frame of a mapped user page, 0 for every other address. */
  method WalkAddr(m: Machine, root: nat, va: nat, ghost t: Table) returns (pa: nat)
    requires m.Valid() && SpaceOk(m.mem, m.free, t) && root == t.root
    modifies m
    ensures m.Valid() && m.mem == old(m.mem) && m.free == old(m.free)
    ensures pa == Translates(t, va)
  {
    hide FreeOk, Up, Idx, Elems, Rep, Shape, PtPages, UserFrames, Vpn, IsValid, IsUser, Pte2Pa, SpaceOk, Kept, SameUser;
    if va >= MAXVPN * PGSIZE { return 0; }
    var w, t1 := Walk(m, root, va, false, t);
    if w.None? {
      NotMapped(m.mem, m.free, t, Vpn(va));
      assert Vpn(va) !in t.leaf - {Vpn(va)};
      return 0;
    }
    LowEntry(m.mem, m.free, t, Vpn(va));
    var (p, i) := w.value;
    var pte := m.mem[p][i];
    if !IsValid(pte) { return 0; }
    if !IsUser(pte) { return 0; }
    pa := Pte2Pa(pte);
  }
}
