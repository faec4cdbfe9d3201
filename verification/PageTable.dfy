/** The three-level Sv39 page table as data: page-table entries, the tree that the words in memory
    form, and the map from virtual page to entry that it represents. */
module PageTable {
  import opened Kalloc

  // ---- page-table entries (kernel/riscv.h)

  const PTE_V := 1
  const PTE_R := 2
  const PTE_W := 4
  const PTE_X := 8
  const PTE_U := 16

  function Pa2Pte(pa: nat): (w: nat) { pa / 4096 * 1024 }

  function Pte2Pa(pte: nat): (pa: nat) { pte / 1024 * 4096 }

  function PteFlags(pte: nat): (f: nat) { pte % 1024 }

  predicate IsValid(pte: nat) { pte % 2 == 1 }

  /** pte & (PTE_R | PTE_W | PTE_X) is nonzero. */
  predicate HasRwx(pte: nat) { pte / 2 % 8 != 0 }

  // Bits 1 to 4 of an entry, as the hardware reads them.

  predicate CanRead(pte: nat) { pte / 2 % 2 == 1 }

  predicate CanWrite(pte: nat) { pte / 4 % 2 == 1 }

  predicate CanExec(pte: nat) { pte / 8 % 2 == 1 }

  predicate IsUser(pte: nat) { pte / 16 % 2 == 1 }

  /** PA2PTE(pa) | perm | PTE_V, for flags that fit in ten bits. */
  function MakePte(pa: nat, perm: nat): (w: nat) {
    Pa2Pte(pa) + (if perm % 2 == 1 then perm else perm + 1)
  }

  lemma Sixteenth(perm: nat, f: nat)
    requires f == if perm % 2 == 1 then perm else perm + 1
    ensures f / 16 == perm / 16
  {
  }

  lemma EightMod(a: nat, b: nat)
    ensures (8 * a + b) % 8 == b % 8
  {
  }

  lemma TwoMod(a: nat, b: nat)
    ensures (2 * a + b) % 2 == b % 2
  {
  }

  lemma FlagsOf(k: nat, f: nat)
    requires f < 1024
    ensures (1024 * k + f) / 1024 == k && (1024 * k + f) % 1024 == f
    ensures (1024 * k + f) % 2 == f % 2
    ensures (1024 * k + f) / 2 % 8 == f / 2 % 8
    ensures (1024 * k + f) / 16 % 2 == f / 16 % 2
  {
    assert (1024 * k + f) / 2 == 8 * (64 * k) + f / 2;
    assert (1024 * k + f) / 16 == 2 * (32 * k) + f / 16;
    EightMod(64 * k, f / 2);
    TwoMod(32 * k, f / 16);
  }

  lemma BitsOf(k: nat, f: nat)
    requires f < 1024
    ensures (1024 * k + f) / 2 % 2 == f / 2 % 2 && (1024 * k + f) / 4 % 2 == f / 4 % 2
    ensures (1024 * k + f) / 8 % 2 == f / 8 % 2
  {
    assert (1024 * k + f) / 2 == 2 * (256 * k) + f / 2 && (1024 * k + f) / 4 == 2 * (128 * k) + f / 4;
    assert (1024 * k + f) / 8 == 2 * (64 * k) + f / 8;
    TwoMod(256 * k, f / 2);
    TwoMod(128 * k, f / 4);
    TwoMod(64 * k, f / 8);
  }

  lemma SetBit0(perm: nat)
    requires perm % 2 == 0
    ensures (perm + 1) / 2 == perm / 2 && (perm + 1) / 4 == perm / 4 && (perm + 1) / 8 == perm / 8
  {
  }

  /** The entry gives back the frame, the flags and what they allow. */
  lemma PteRoundTrip(pa: nat, perm: nat)
    requires pa % PGSIZE == 0 && perm < 1024
    ensures var w := MakePte(pa, perm);
            && Pte2Pa(w) == pa && IsValid(w) && PteFlags(w) == (if perm % 2 == 1 then perm else perm + 1)
            && (HasRwx(w) <==> HasRwx(perm)) && (IsUser(w) <==> IsUser(perm)) && w != 0
            && (CanRead(w) <==> CanRead(perm)) && (CanWrite(w) <==> CanWrite(perm)) && (CanExec(w) <==> CanExec(perm))
  {
    var k := pa / 4096;
    var f := if perm % 2 == 1 then perm else perm + 1;
    var w := MakePte(pa, perm);
    assert pa == 4096 * k && w == 1024 * k + f && f < 1024;
    FlagsOf(k, f);
    BitsOf(k, f);
    if perm % 2 == 0 { SetBit0(perm); }
    assert f / 2 == perm / 2;
    assert f / 16 == perm / 16 by { Sixteenth(perm, f); }
  }

  /** The entry of a lower-level page table. */
  function DirPte(pa: nat): (w: nat) { Pa2Pte(pa) + PTE_V }

  lemma DirRoundTrip(pa: nat)
    requires pa % PGSIZE == 0
    ensures Pte2Pa(DirPte(pa)) == pa && IsValid(DirPte(pa)) && !HasRwx(DirPte(pa)) && DirPte(pa) != 0
  {
    var k := pa / 4096;
    assert pa == 4096 * k && DirPte(pa) == 1024 * k + 1;
    FlagsOf(k, 1);
  }

  // ---- indices

  /** The page number whose upper part is k and whose lowest nine bits are i. */
  function At(k: nat, i: nat): (v: nat) { k * 512 + i }

  function Up(v: nat): (k: nat) { v / 512 }

  function Idx(v: nat): (i: nat) ensures i < WORDS { v % 512 }

  lemma Split(v: nat)
    ensures v == At(Up(v), Idx(v))
  {
  }

  lemma Join(k: nat, i: nat)
    requires i < WORDS
    ensures Up(At(k, i)) == k && Idx(At(k, i)) == i
  {
  }

  // ---- the tree

  /** The pages of a page table: the root, the level-1 pages by level-2 index, the level-0 pages by
      the upper 18 bits of the virtual page number, and the leaf entries by virtual page number. */
  datatype Table = Table(root: nat, mid: map<nat, nat>, low: map<nat, nat>, leaf: map<nat, nat>)

  function RootWord(t: Table, a: nat): (w: nat) { if a in t.mid then DirPte(t.mid[a]) else 0 }

  function MidWord(t: Table, k: nat): (w: nat) { if k in t.low then DirPte(t.low[k]) else 0 }

  function LowWord(t: Table, v: nat): (w: nat) { if v in t.leaf then t.leaf[v] else 0 }

  ghost predicate RootPage(page: Page, t: Table) {
    |page| == WORDS && forall i :: 0 <= i < WORDS ==> page[i] == RootWord(t, i)
  }

  ghost predicate MidPage(page: Page, t: Table, a: nat) {
    |page| == WORDS && forall i :: 0 <= i < WORDS ==> page[i] == MidWord(t, At(a, i))
  }

  ghost predicate LowPage(page: Page, t: Table, k: nat) {
    |page| == WORDS && forall i :: 0 <= i < WORDS ==> page[i] == LowWord(t, At(k, i))
  }

  /** The words in memory are exactly those of the table. */
  ghost predicate Rep(mem: map<nat, Page>, t: Table) {
    && t.root in mem && RootPage(mem[t.root], t)
    && (forall a :: a in t.mid ==> t.mid[a] in mem && MidPage(mem[t.mid[a]], t, a))
    && (forall k :: k in t.low ==> t.low[k] in mem && LowPage(mem[t.low[k]], t, k))
  }

  /** Pages hang under existing pages, no page is used twice, and leaves can be told from
      directories. */
  ghost predicate Shape(t: Table) {
    && (forall a :: a in t.mid ==> a < WORDS)
    && (forall k :: k in t.low ==> Up(k) in t.mid)
    && (forall v :: v in t.leaf ==> Up(v) in t.low)
    && (forall v :: v in t.leaf ==> IsValid(t.leaf[v]) && HasRwx(t.leaf[v]))
    && (forall a :: a in t.mid ==> t.mid[a] != t.root)
    && (forall k :: k in t.low ==> t.low[k] != t.root)
    && (forall a, k :: a in t.mid && k in t.low ==> t.mid[a] != t.low[k])
    && (forall a, b :: a in t.mid && b in t.mid && a != b ==> t.mid[a] != t.mid[b])
    && (forall j, k :: j in t.low && k in t.low && j != k ==> t.low[j] != t.low[k])
  }

  /** The page-table pages. */
  ghost function PtPages(t: Table): (s: set<nat>) {
    {t.root} + t.mid.Values + t.low.Values
  }

  /** Store one word of a page. */
  function Poke(page: Page, i: nat, w: nat): (r: Page)
    requires i < |page|
    ensures |r| == |page| && r[i] == w
  {
    page[i := w]
  }

  /** An empty table is one zeroed page. */
  lemma EmptyTable(mem: map<nat, Page>, root: nat)
    requires root in mem && mem[root] == Filled(0)
    ensures var t := Table(root, map[], map[], map[]); Rep(mem, t) && Shape(t) && PtPages(t) == {root}
  {
  }

  /** A page the table does not use yet. */
  lemma Fresh(t: Table, p: nat)
    requires p !in PtPages(t)
    ensures p != t.root
    ensures forall a :: a in t.mid ==> t.mid[a] != p
    ensures forall k :: k in t.low ==> t.low[k] != p
  {
    forall a | a in t.mid ensures t.mid[a] != p { assert t.mid[a] in t.mid.Values; }
    forall k | k in t.low ensures t.low[k] != p { assert t.low[k] in t.low.Values; }
  }

  lemma AddMidShape(t: Table, a: nat, p: nat)
    requires Shape(t) && a < WORDS && a !in t.mid && p !in PtPages(t)
    ensures Shape(t.(mid := t.mid[a := p]))
  {
    hide Up, IsValid, HasRwx, PtPages;
    Fresh(t, p);
  }

  lemma AddMidRep(mem: map<nat, Page>, t: Table, a: nat, p: nat)
    requires Rep(mem, t) && Shape(t) && a < WORDS && a !in t.mid
    requires p in mem && p !in PtPages(t)
    ensures var t' := t.(mid := t.mid[a := p]);
            Rep(mem[p := Filled(0)][t.root := Poke(mem[t.root], a, DirPte(p))], t')
  {
    hide Up, Idx, At, DirPte, IsValid, HasRwx, PtPages;
    Fresh(t, p);
    var t' := t.(mid := t.mid[a := p]);
    var mem' := mem[p := Filled(0)][t.root := Poke(mem[t.root], a, DirPte(p))];
    assert MidPage(mem'[p], t', a) by {
      forall i | 0 <= i < WORDS ensures MidWord(t', At(a, i)) == 0 {
        Join(a, i);
      }
    }
    forall b | b in t.mid ensures MidPage(mem'[t.mid[b]], t', b) {
      assert mem'[t.mid[b]] == mem[t.mid[b]];
    }
    forall k | k in t.low ensures LowPage(mem'[t.low[k]], t', k) {
      assert mem'[t.low[k]] == mem[t.low[k]];
    }
  }

  lemma MidValues(m: map<nat, nat>, a: nat, p: nat)
    requires a !in m
    ensures m[a := p].Values == m.Values + {p}
  {
    var m' := m[a := p];
    forall x | x in m.Values ensures x in m'.Values {
      var b :| b in m && m[b] == x;
      assert m'[b] == x;
    }
    assert m'[a] == p;
  }

  /** walk allocates a zeroed level-1 page under the root. */
  lemma AddMid(mem: map<nat, Page>, t: Table, a: nat, p: nat)
    requires Rep(mem, t) && Shape(t) && a < WORDS && a !in t.mid
    requires p in mem && p !in PtPages(t)
    ensures var t' := t.(mid := t.mid[a := p]);
            var mem' := mem[p := Filled(0)][t.root := Poke(mem[t.root], a, DirPte(p))];
            Rep(mem', t') && Shape(t') && PtPages(t') == PtPages(t) + {p}
  {
    hide Up, Idx, At, DirPte, IsValid, HasRwx, Shape, Rep;
    AddMidRep(mem, t, a, p);
    AddMidShape(t, a, p);
    MidValues(t.mid, a, p);
  }

  lemma AddLowShape(t: Table, k: nat, p: nat)
    requires Shape(t) && Up(k) in t.mid && k !in t.low && p !in PtPages(t)
    ensures Shape(t.(low := t.low[k := p]))
  {
    hide Up, IsValid, HasRwx, PtPages;
    Fresh(t, p);
  }

  lemma AddLowRep(mem: map<nat, Page>, t: Table, k: nat, p: nat)
    requires Rep(mem, t) && Shape(t) && Up(k) in t.mid && k !in t.low
    requires p in mem && p !in PtPages(t)
    ensures var t' := t.(low := t.low[k := p]);
            var up := t.mid[Up(k)];
            Rep(mem[p := Filled(0)][up := Poke(mem[up], Idx(k), DirPte(p))], t')
  {
    hide Up, Idx, At, DirPte, IsValid, HasRwx, PtPages;
    Fresh(t, p);
    Split(k);
    var t' := t.(low := t.low[k := p]);
    var up := t.mid[Up(k)];
    var mem' := mem[p := Filled(0)][up := Poke(mem[up], Idx(k), DirPte(p))];
    assert LowPage(mem'[p], t', k) by {
      forall i | 0 <= i < WORDS ensures LowWord(t', At(k, i)) == 0 {
        Join(k, i);
      }
    }
    forall b | b in t.mid ensures MidPage(mem'[t.mid[b]], t', b) {
      forall i | 0 <= i < WORDS ensures mem'[t.mid[b]][i] == MidWord(t', At(b, i)) {
        Join(b, i);
        assert mem[t.mid[b]][i] == MidWord(t, At(b, i));
      }
    }
    forall j | j in t.low ensures LowPage(mem'[t.low[j]], t', j) {
      assert mem'[t.low[j]] == mem[t.low[j]];
    }
  }

  /** walk allocates a zeroed level-0 page under a level-1 page. */
  lemma AddLow(mem: map<nat, Page>, t: Table, k: nat, p: nat)
    requires Rep(mem, t) && Shape(t) && Up(k) in t.mid && k !in t.low
    requires p in mem && p !in PtPages(t)
    ensures var t' := t.(low := t.low[k := p]);
            var up := t.mid[Up(k)];
            var mem' := mem[p := Filled(0)][up := Poke(mem[up], Idx(k), DirPte(p))];
            Rep(mem', t') && Shape(t') && PtPages(t') == PtPages(t) + {p}
  {
    hide Up, Idx, At, DirPte, IsValid, HasRwx, Shape, Rep, MidPage;
    AddLowRep(mem, t, k, p);
    AddLowShape(t, k, p);
    MidValues(t.low, k, p);
  }

  /** The leaf entries after storing word w for page v; a zero word removes the entry. */
  function PutLeaf(leaf: map<nat, nat>, v: nat, w: nat): (r: map<nat, nat>) {
    if w == 0 then leaf - {v} else leaf[v := w]
  }

  lemma SetLeafShape(t: Table, v: nat, w: nat)
    requires Shape(t) && Up(v) in t.low && (w == 0 || (IsValid(w) && HasRwx(w)))
    ensures Shape(t.(leaf := PutLeaf(t.leaf, v, w)))
  {
    hide Up, IsValid, HasRwx;
  }

  lemma SetLeafRep(mem: map<nat, Page>, t: Table, v: nat, w: nat)
    requires Rep(mem, t) && Shape(t) && Up(v) in t.low
    ensures var p := t.low[Up(v)];
            Rep(mem[p := Poke(mem[p], Idx(v), w)], t.(leaf := PutLeaf(t.leaf, v, w)))
  {
    hide Up, Idx, At, DirPte, IsValid, HasRwx;
    Split(v);
    var t' := t.(leaf := PutLeaf(t.leaf, v, w));
    var p := t.low[Up(v)];
    var mem' := mem[p := Poke(mem[p], Idx(v), w)];
    assert RootPage(mem'[t.root], t');
    forall a | a in t.mid ensures MidPage(mem'[t.mid[a]], t', a) {
      assert mem'[t.mid[a]] == mem[t.mid[a]];
    }
    forall j | j in t.low ensures LowPage(mem'[t.low[j]], t', j) {
      forall i | 0 <= i < WORDS ensures mem'[t.low[j]][i] == LowWord(t', At(j, i)) {
        Join(j, i);
        assert mem[t.low[j]][i] == LowWord(t, At(j, i));
      }
    }
  }

  /** Storing a leaf entry through the pointer that walk returned. */
  lemma SetLeaf(mem: map<nat, Page>, t: Table, v: nat, w: nat)
    requires Rep(mem, t) && Shape(t) && Up(v) in t.low
    requires w == 0 || (IsValid(w) && HasRwx(w))
    ensures var t' := t.(leaf := PutLeaf(t.leaf, v, w));
            var p := t.low[Up(v)];
            Rep(mem[p := Poke(mem[p], Idx(v), w)], t') && Shape(t')
  {
    hide Up, Idx, At, DirPte, IsValid, HasRwx, Shape, Rep, LowPage;
    SetLeafRep(mem, t, v, w);
    SetLeafShape(t, v, w);
  }

  /** Pages that the table does not use can change freely. */
  lemma RepFrame(mem: map<nat, Page>, mem': map<nat, Page>, t: Table)
    requires Rep(mem, t)
    requires forall p :: p in PtPages(t) ==> p in mem' && p in mem && mem'[p] == mem[p]
    ensures Rep(mem', t)
  {
    assert t.root in PtPages(t);
    forall a | a in t.mid ensures t.mid[a] in mem' && mem'[t.mid[a]] == mem[t.mid[a]] {
      assert t.mid[a] in t.mid.Values;
    }
    forall k | k in t.low ensures t.low[k] in mem' && mem'[t.low[k]] == mem[t.low[k]] {
      assert t.low[k] in t.low.Values;
    }
  }
}
