/** freewalk and uvmfree (kernel/vm.c): giving a page table back, page by page. */
module FreeVm {
  import opened Collections
  import opened Kalloc
  import opened PageTable
  import opened Vm
  import opened UserVm

  // ---- the pages below a node; level 2 is the root, level 0 a leaf table

  /** The page of a node: the root, the level-1 page k, or the level-0 page k. */
  ghost function NodePage(t: Table, level: nat, k: nat): (r: Option<nat>) {
    if level == 2 then Some(t.root)
    else if level == 1 then (if k in t.mid then Some(t.mid[k]) else None)
    else (if k in t.low then Some(t.low[k]) else None)
  }

  ghost function ChildKey(level: nat, k: nat, i: nat): (c: nat) {
    if level == 2 then i else At(k, i)
  }

  /** All pages in the subtrees of the children with index in [lo, hi). */
  ghost function Under(t: Table, level: nat, k: nat, lo: nat, hi: nat): (s: set<nat>) {
    if level == 2 then
      (set a | a in t.mid && lo <= a < hi :: t.mid[a]) + (set x | x in t.low && lo <= Up(x) < hi :: t.low[x])
    else if level == 1 then set x | x in t.low && Up(x) == k && lo <= Idx(x) < hi :: t.low[x]
    else {}
  }

  /** All pages of the subtree of a node. */
  ghost function Subtree(t: Table, level: nat, k: nat): (s: set<nat>)
    requires NodePage(t, level, k).Some?
  {
    {NodePage(t, level, k).value} + Under(t, level, k, 0, WORDS)
  }

  /** The words of the subtree are those of the table. */
  ghost predicate SubRep(mem: map<nat, Page>, t: Table, level: nat, k: nat) {
    if level == 2 then Rep(mem, t)
    else if level == 1 then
      && k in t.mid && t.mid[k] in mem && MidPage(mem[t.mid[k]], t, k)
      && forall x :: x in t.low && Up(x) == k ==> t.low[x] in mem && LowPage(mem[t.low[x]], t, x)
    else k in t.low && t.low[k] in mem && LowPage(mem[t.low[k]], t, k)
  }

  /** Child i of a node, with its subtree. */
  ghost function ChildTree(t: Table, level: nat, k: nat, i: nat): (s: set<nat>)
    requires level == 1 || level == 2
  {
    if NodePage(t, level - 1, ChildKey(level, k, i)).Some? then Subtree(t, level - 1, ChildKey(level, k, i)) else {}
  }

  lemma UnderNextMid(t: Table, k: nat, i: nat)
    requires i < WORDS
    ensures Under(t, 1, k, 0, i + 1) == Under(t, 1, k, 0, i) + ChildTree(t, 1, k, i)
    ensures Under(t, 1, k, i, WORDS) == ChildTree(t, 1, k, i) + Under(t, 1, k, i + 1, WORDS)
  {
    hide Up, Idx, At;
    Join(k, i);
    assert ChildTree(t, 1, k, i) == Under(t, 1, k, i, i + 1) by {
      forall x | x in t.low && Up(x) == k && Idx(x) == i ensures x == At(k, i) {
        Split(x);
      }
      if At(k, i) in t.low {
        assert Subtree(t, 0, At(k, i)) == {t.low[At(k, i)]};
      }
    }
    hide ChildTree;
    assert Under(t, 1, k, 0, i + 1) == Under(t, 1, k, 0, i) + Under(t, 1, k, i, i + 1);
    assert Under(t, 1, k, i, WORDS) == Under(t, 1, k, i, i + 1) + Under(t, 1, k, i + 1, WORDS);
  }

  lemma RootChild(t: Table, k: nat, i: nat)
    requires Shape(t) && i < WORDS
    ensures ChildTree(t, 2, k, i) == Under(t, 2, k, i, i + 1)
  {
    hide Up, Idx, At;
    assert (set x | x in t.low && i <= Up(x) < i + 1 :: t.low[x]) == Under(t, 1, i, 0, WORDS);
    if i in t.mid {
      assert (set a | a in t.mid && i <= a < i + 1 :: t.mid[a]) == {t.mid[i]};
    } else {
      assert (set a | a in t.mid && i <= a < i + 1 :: t.mid[a]) == {};
      assert Under(t, 1, i, 0, WORDS) == {};
    }
  }

  lemma UnderNextRoot(t: Table, k: nat, i: nat)
    requires Shape(t) && i < WORDS
    ensures Under(t, 2, k, 0, i + 1) == Under(t, 2, k, 0, i) + ChildTree(t, 2, k, i)
    ensures Under(t, 2, k, i, WORDS) == ChildTree(t, 2, k, i) + Under(t, 2, k, i + 1, WORDS)
  {
    hide Up, Idx, At;
    RootChild(t, k, i);
    hide ChildTree, Shape;
    assert Under(t, 2, k, 0, i + 1) == Under(t, 2, k, 0, i) + Under(t, 2, k, i, i + 1);
    assert Under(t, 2, k, i, WORDS) == Under(t, 2, k, i, i + 1) + Under(t, 2, k, i + 1, WORDS);
  }

  /** Different children share no page, and none of them is the node's own page. */
  lemma UnderDisjoint(t: Table, level: nat, k: nat, i: nat)
    requires Shape(t) && (level == 1 || level == 2) && NodePage(t, level, k).Some?
    ensures Under(t, level, k, 0, i) !! Under(t, level, k, i, WORDS)
    ensures NodePage(t, level, k).value !in Under(t, level, k, 0, WORDS)
  {
    hide Up, Idx, IsValid, HasRwx;
  }

  lemma UnderNext(t: Table, level: nat, k: nat, i: nat)
    requires Shape(t) && (level == 1 || level == 2) && i < WORDS
    ensures Under(t, level, k, 0, i + 1) == Under(t, level, k, 0, i) + ChildTree(t, level, k, i)
    ensures Under(t, level, k, i, WORDS) == ChildTree(t, level, k, i) + Under(t, level, k, i + 1, WORDS)
  {
    hide Under, ChildTree, Shape;
    if level == 1 { UnderNextMid(t, k, i); } else { UnderNextRoot(t, k, i); }
  }

  /** What a word of a leafless table says about the tree. */
  lemma Entry(mem: map<nat, Page>, t: Table, level: nat, k: nat, i: nat)
    requires PagesOk(mem) && Shape(t) && t.leaf == map[] && level <= 2 && i < WORDS
    requires SubRep(mem, t, level, k) && NodePage(t, level, k).Some?
    ensures NodePage(t, level, k).value in mem
    ensures var w := mem[NodePage(t, level, k).value][i];
            if IsValid(w)
            then !HasRwx(w) && level > 0 && NodePage(t, level - 1, ChildKey(level, k, i)) == Some(Pte2Pa(w))
            else level > 0 ==> ChildTree(t, level, k, i) == {}
  {
    hide IsValid, HasRwx, Pte2Pa, DirPte, Up, Idx, At, Under;
    ZeroInvalid();
    if level == 2 && i in t.mid {
      DirRoundTrip(t.mid[i]);
    } else if level == 1 && At(k, i) in t.low {
      Join(k, i);
      DirRoundTrip(t.low[At(k, i)]);
    }
  }

  lemma ChildRep(mem: map<nat, Page>, t: Table, level: nat, k: nat, i: nat)
    requires SubRep(mem, t, level, k) && (level == 1 || level == 2) && i < WORDS
    requires NodePage(t, level - 1, ChildKey(level, k, i)).Some?
    ensures SubRep(mem, t, level - 1, ChildKey(level, k, i))
  {
    hide MidPage, LowPage, RootPage, Up, Idx, At;
    if level == 1 { Join(k, i); }
  }

  /** A subtree stays represented while its own pages are untouched. */
  lemma SubRepFrame(mem: map<nat, Page>, mem': map<nat, Page>, t: Table, level: nat, k: nat)
    requires SubRep(mem, t, level, k) && NodePage(t, level, k).Some? && level <= 1
    requires forall p :: p in Subtree(t, level, k) ==> p in mem && p in mem' && mem'[p] == mem[p]
    ensures SubRep(mem', t, level, k)
  {
    hide MidPage, LowPage, RootPage, Up, Idx, At;
    assert NodePage(t, level, k).value in Subtree(t, level, k);
    if level == 1 {
      forall x | x in t.low && Up(x) == k ensures t.low[x] in Subtree(t, 1, k) {
        assert t.low[x] in Under(t, 1, k, 0, WORDS);
      }
    }
  }

  lemma SubtreeIn(mem: map<nat, Page>, t: Table, level: nat, k: nat)
    requires SubRep(mem, t, level, k) && NodePage(t, level, k).Some? && level <= 2
    ensures Subtree(t, level, k) <= mem.Keys
  {
    hide MidPage, LowPage, RootPage, Up, Idx, At;
  }

  /** mem' agrees with mem outside `touched`. */
  ghost predicate SameOutside(mem: map<nat, Page>, mem': map<nat, Page>, touched: set<nat>) {
    mem'.Keys == mem.Keys && forall p :: p in mem && p !in touched ==> mem'[p] == mem[p]
  }

  /** freewalk between two iterations: the subtrees of the first i children are on the free list,
      the others and the node itself are untouched above word i. */
  ghost predicate Walked(mem0: map<nat, Page>, free0: set<nat>, mem: map<nat, Page>, free: set<nat>, t: Table,
                         level: nat, k: nat, i: nat, page: nat) {
    && NodePage(t, level, k) == Some(page) && page in mem && page in mem0
    && free == free0 + Under(t, level, k, 0, i)
    && SameOutside(mem0, mem, free + {page})
    && |mem[page]| == |mem0[page]| == WORDS
    && forall j :: i <= j < WORDS ==> mem[page][j] == mem0[page][j]
  }

  lemma UnderSplit(t: Table, level: nat, k: nat, i: nat)
    requires i <= WORDS
    ensures Under(t, level, k, 0, WORDS) == Under(t, level, k, 0, i) + Under(t, level, k, i, WORDS)
    ensures Under(t, level, k, 0, 0) == {}
  {
    hide Up, Idx;
  }

  lemma FreeChild(mem0: map<nat, Page>, free0: set<nat>, mem: map<nat, Page>, free: set<nat>, t: Table,
                  level: nat, k: nat, i: nat, page: nat)
    requires Walked(mem0, free0, mem, free, t, level, k, i, page) && i < WORDS
    requires Shape(t) && (level == 1 || level == 2)
    requires SubRep(mem0, t, level, k) && Subtree(t, level, k) !! free0
    requires NodePage(t, level - 1, ChildKey(level, k, i)).Some?
    ensures var c := ChildKey(level, k, i);
            && SubRep(mem, t, level - 1, c) && Subtree(t, level - 1, c) !! free
            && page !in Subtree(t, level - 1, c) && page !in free
            && ChildTree(t, level, k, i) == Subtree(t, level - 1, c)
  {
    hide Shape, Under, RootPage, MidPage, LowPage, Up, Idx, At, ChildKey, SubRep;
    var c := ChildKey(level, k, i);
    var sub := Subtree(t, level - 1, c);
    UnderNext(t, level, k, i);
    UnderNext(t, level, k, 0);
    UnderSplit(t, level, k, i);
    UnderDisjoint(t, level, k, i);
    assert ChildTree(t, level, k, i) == sub;
    assert sub <= Under(t, level, k, i, WORDS) <= Subtree(t, level, k);
    ChildRep(mem0, t, level, k, i);
    SubtreeIn(mem0, t, level - 1, c);
    SubRepFrame(mem0, mem, t, level - 1, c);
  }

  lemma FreeNext(mem0: map<nat, Page>, free0: set<nat>, mem: map<nat, Page>, free: set<nat>,
                 mem': map<nat, Page>, free': set<nat>, t: Table, level: nat, k: nat, i: nat, page: nat)
    requires Walked(mem0, free0, mem, free, t, level, k, i, page) && i < WORDS
    requires Shape(t) && (level == 1 || level == 2)
    requires var sub := ChildTree(t, level, k, i);
             && free' == free + sub && page !in free + sub
             && page in mem' && |mem'[page]| == WORDS
             && SameOutside(mem, mem', free + sub + {page})
             && forall j :: i < j < WORDS ==> mem'[page][j] == mem[page][j]
    ensures Walked(mem0, free0, mem', free', t, level, k, i + 1, page)
  {
    hide Shape, Under, ChildTree, NodePage;
    UnderNext(t, level, k, i);
  }

  lemma FreeStart(mem: map<nat, Page>, head: nat, free: seq<nat>, t: Table, level: nat, k: nat, page: nat)
    requires FreeOk(mem, head, free) && level <= 2
    requires NodePage(t, level, k) == Some(page) && SubRep(mem, t, level, k)
    requires Subtree(t, level, k) !! Elems(free)
    ensures PagesOk(mem) && Walked(mem, Elems(free), mem, Elems(free), t, level, k, 0, page)
  {
    hide Under, Elems;
    SubtreeIn(mem, t, level, k);
    UnderSplit(t, level, k, 0);
  }

  /** An invalid word has no child below it. */
  lemma FreeSkip(mem0: map<nat, Page>, free0: set<nat>, mem: map<nat, Page>, free: set<nat>, t: Table,
                 level: nat, k: nat, i: nat, page: nat)
    requires Walked(mem0, free0, mem, free, t, level, k, i, page) && i < WORDS && Shape(t) && level <= 2
    requires level > 0 ==> ChildTree(t, level, k, i) == {}
    ensures Walked(mem0, free0, mem, free, t, level, k, i + 1, page)
  {
    if level > 0 {
      hide Shape, Under, ChildTree, NodePage;
      UnderNext(t, level, k, i);
    }
  }

  lemma FreeEnd(mem0: map<nat, Page>, free0: set<nat>, mem: map<nat, Page>, free: seq<nat>, mem': map<nat, Page>,
                free': seq<nat>, t: Table, level: nat, k: nat, page: nat)
    requires Walked(mem0, free0, mem, Elems(free), t, level, k, WORDS, page)
    requires Elems(free') == Elems(free) + {page} && mem'.Keys == mem.Keys
    requires forall q :: q in mem && q != page ==> mem'[q] == mem[q]
    ensures Elems(free') == free0 + Subtree(t, level, k)
    ensures SameOutside(mem0, mem', free0 + Subtree(t, level, k))
  {
    hide Under, Elems;
  }

  lemma NodeNotFree(mem0: map<nat, Page>, free0: set<nat>, mem: map<nat, Page>, free: seq<nat>, t: Table,
                    level: nat, k: nat, i: nat, page: nat)
    requires Walked(mem0, free0, mem, Elems(free), t, level, k, i, page) && Shape(t) && level <= 2 && i <= WORDS
    requires Subtree(t, level, k) !! free0
    ensures page !in free
  {
    ElemsOf(free, page);
    hide Shape, Elems;
    if level > 0 {
      UnderDisjoint(t, level, k, i);
      UnderSplit(t, level, k, i);
    }
    assert page in Subtree(t, level, k);
  }

  /** freewalk: free every page of a subtree without leaves, each exactly once. */
  method Freewalk(m: Machine, pagetable: nat, ghost t: Table, ghost level: nat, ghost k: nat)
    requires m.Valid() && Shape(t) && t.leaf == map[] && level <= 2
    requires NodePage(t, level, k) == Some(pagetable)
    requires SubRep(m.mem, t, level, k)
    requires Subtree(t, level, k) !! Elems(m.free)
    modifies m
    decreases level
    ensures m.Valid() && Elems(m.free) == Elems(old(m.free)) + Subtree(t, level, k)
    ensures SameOutside(old(m.mem), m.mem, Elems(old(m.free)) + Subtree(t, level, k))
  {
    hide SubRep, Shape, FreeOk, Under, Elems, ChildTree, Pte2Pa, IsValid, HasRwx, ChildKey, NodePage, Subtree;
    ghost var mem0, free0 := m.mem, Elems(m.free);
    FreeStart(mem0, m.freelist, m.free, t, level, k, pagetable);
    var i := 0;
    while i < WORDS
      invariant 0 <= i <= WORDS && m.Valid()
      invariant Walked(mem0, free0, m.mem, Elems(m.free), t, level, k, i, pagetable)
    {
      var pte := m.mem[pagetable][i];
      Entry(mem0, t, level, k, i);
      if IsValid(pte) && !HasRwx(pte) {
        FreeChild(mem0, free0, m.mem, Elems(m.free), t, level, k, i, pagetable);
        ghost var mem1, free1 := m.mem, Elems(m.free);
        Freewalk(m, Pte2Pa(pte), t, level - 1, ChildKey(level, k, i));
        ElemsOf(m.free, pagetable);
        m.Store(pagetable, Poke(m.mem[pagetable], i, 0));
        FreeNext(mem0, free0, mem1, free1, m.mem, Elems(m.free), t, level, k, i, pagetable);
      } else if IsValid(pte) {
        assert false;
      } else {
        FreeSkip(mem0, free0, m.mem, Elems(m.free), t, level, k, i, pagetable);
      }
      i := i + 1;
    }
    NodeNotFree(mem0, free0, m.mem, m.free, t, level, k, WORDS, pagetable);
    ghost var mem1, free1 := m.mem, m.free;
    m.Kfree(pagetable);
    FreeEnd(mem0, free0, mem1, free1, m.mem, m.free, t, level, k, pagetable);
  }

  // ---- uvmfree, proc_pagetable, proc_freepagetable

  /** The page-table pages are the subtree of the root. */
  lemma RootTree(t: Table)
    requires Shape(t)
    ensures Subtree(t, 2, 0) == PtPages(t)
  {
    hide Up, Idx, IsValid, HasRwx;
  }

  lemma LeaflessFrames(t: Table)
    requires t.leaf == map[]
    ensures InUse(t) == PtPages(t)
  {
    hide PtPages;
    assert UserFrames(t) == {};
  }

  /** All entries lie below n pages. */
  ghost predicate Below(leaf: map<nat, nat>, n: nat) { forall v :: v in leaf ==> v < n }

  lemma Pages0()
    ensures PagesOf(0) == 0 && Vpn(0) == 0
  {
  }

  lemma FreeArgs(mem: map<nat, Page>, free: seq<nat>, t: Table)
    requires SpaceOk(mem, free, t)
    ensures Kept(mem, free, t, mem, free, t, {}) && Vpn(0) == 0 && Shape(t)
  {
    Pages0();
    hide Rep, Shape, PtPages, Elems, UserFrames, Vpn;
  }

  lemma FreeTop(mem: map<nat, Page>, free: seq<nat>, t: Table)
    requires SpaceOk(mem, free, t) && t.leaf == map[]
    ensures Shape(t) && SubRep(mem, t, 2, 0) && NodePage(t, 2, 0) == Some(t.root)
    ensures Subtree(t, 2, 0) == InUse(t) && Subtree(t, 2, 0) !! Elems(free)
  {
    RootTree(t);
    LeaflessFrames(t);
    hide Rep, Shape, PtPages, Elems, UserFrames;
  }

  lemma FreeDone(m0: map<nat, Page>, f0: seq<nat>, t0: Table, m1: map<nat, Page>, f1: seq<nat>, t1: Table,
                 m2: map<nat, Page>, f2: seq<nat>)
    requires Kept(m0, f0, t0, m1, f1, t1, {}) && Elems(f2) == Elems(f1) + InUse(t1)
    requires SameOutside(m1, m2, Elems(f1) + InUse(t1))
    ensures Elems(f2) == Elems(f0) + InUse(t0) && SameOutside(m0, m2, Elems(f0) + InUse(t0))
  {
    hide Elems, InUse;
  }

  /** uvmfree: every page of an address space whose entries all lie below sz goes back to the free
      list; "freewalk: leaf" is not reached. */
  method Uvmfree(m: Machine, root: nat, sz: nat, ghost t: Table)
    requires m.Valid() && SpaceOk(m.mem, m.free, t) && root == t.root
    requires PagesOf(sz) <= TRAPFRAME && Below(t.leaf, PagesOf(sz))
    modifies m
    ensures m.Valid() && Elems(m.free) == Elems(old(m.free)) + InUse(t)
    ensures SameOutside(old(m.mem), m.mem, Elems(old(m.free)) + InUse(t))
  {
    hide FreeOk, Elems, InUse, PagesOf, PgRoundUp, Vpn, Rep, Shape, PtPages, Kept, SameUser, SpaceOk, Subtree;
    ghost var t1 := t;
    RoundUp(sz);
    FreeArgs(m.mem, m.free, t);
    if sz > 0 {
      t1 := Uvmunmap(m, root, 0, PgRoundUp(sz) / PGSIZE, true, t);
      assert Without(t.leaf, 0, PagesOf(sz)) == map[];
    } else {
      assert t.leaf == map[] by { assert PagesOf(0) == 0 by { Pages0(); } }
    }
    FreeTop(m.mem, m.free, t1);
    ghost var mem1, free1 := m.mem, m.free;
    Freewalk(m, root, t1, 2, 0);
    FreeDone(old(m.mem), old(m.free), t, mem1, free1, t1, m.mem, m.free);
  }

  /** The entries of a process: user pages below its size, trampoline and trapframe. */
  ghost predicate Layout(leaf: map<nat, nat>, sz: nat) {
    forall v :: v in leaf ==> v < PagesOf(sz) || v == TRAMPOLINE || v == TRAPFRAME
  }

  lemma HighPages()
    ensures Vpn(TRAMPOLINE * PGSIZE) == TRAMPOLINE && Vpn(TRAPFRAME * PGSIZE) == TRAPFRAME
    ensures (TRAMPOLINE * PGSIZE) % PGSIZE == 0 && (TRAPFRAME * PGSIZE) % PGSIZE == 0
  {
  }

  /** proc_freepagetable */
  method ProcFreepagetable(m: Machine, root: nat, sz: nat, ghost t: Table)
    requires m.Valid() && SpaceOk(m.mem, m.free, t) && root == t.root
    requires PagesOf(sz) <= TRAPFRAME && Layout(t.leaf, sz)
    modifies m
    ensures m.Valid() && Elems(m.free) == Elems(old(m.free)) + InUse(t)
    ensures SameOutside(old(m.mem), m.mem, Elems(old(m.free)) + InUse(t))
  {
    hide FreeOk, Elems, InUse, PagesOf, Vpn, Rep, Shape, PtPages, Kept, SameUser, SpaceOk, SameOutside;
    HighPages();
    ghost var t1 := Uvmunmap(m, root, TRAMPOLINE * PGSIZE, 1, false, t);
    ghost var mem1, free1 := m.mem, m.free;
    ghost var t2 := Uvmunmap(m, root, TRAPFRAME * PGSIZE, 1, false, t1);
    KeptTrans(old(m.mem), old(m.free), t, mem1, free1, t1, m.mem, m.free, t2, {}, {});
    ghost var mem2, free2 := m.mem, m.free;
    assert Below(t2.leaf, PagesOf(sz));
    Uvmfree(m, root, sz, t2);
    var none: set<nat> := {};
    assert none + none == none;
    FreeDone(old(m.mem), old(m.free), t, mem2, free2, t2, m.mem, m.free);
  }
}
