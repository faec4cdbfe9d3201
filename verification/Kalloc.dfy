/** Physical pages and the page allocator of kernel/kalloc.c. A page is 512 machine words; the free
    pages form a linked list through their first words, as in `struct run`. */
module Kalloc {
  import opened Collections

  type Page = seq<nat>

  const PGSIZE := 4096
  const WORDS := 512

  function Filled(w: nat): (p: Page)
    ensures |p| == WORDS && forall i :: 0 <= i < WORDS ==> p[i] == w
  {
    seq(WORDS, _ => w)
  }

  const JUNK_FREED := 0x0101_0101_0101_0101
  const JUNK_ALLOCATED := 0x0505_0505_0505_0505

  /** Every page is whole, page-aligned and not at address zero. */
  ghost predicate PagesOk(mem: map<nat, Page>) {
    forall p :: p in mem ==> |mem[p]| == WORDS && p % PGSIZE == 0 && p > 0
  }

  /** The i-th page of a list, 0 at its end. */
  function Nth(free: seq<nat>, i: nat): (r: nat) {
    if i < |free| then free[i] else 0
  }

  /** The list that starts at head and runs through the first word of each page is `free`. */
  ghost predicate Listed(mem: map<nat, Page>, head: nat, free: seq<nat>) {
    && head == Nth(free, 0)
    && (forall i :: 0 <= i < |free| ==> free[i] in mem && |mem[free[i]]| == WORDS)
    && (forall i :: 0 <= i < |free| ==> mem[free[i]][0] == Nth(free, i + 1))
  }

  ghost predicate FreeOk(mem: map<nat, Page>, head: nat, free: seq<nat>) {
    PagesOk(mem) && Listed(mem, head, free) && Distinct(free)
  }

  /** Pages that are not free can be written without touching the list. */
  lemma WriteKeepsFree(mem: map<nat, Page>, head: nat, free: seq<nat>, p: nat, page: Page)
    requires FreeOk(mem, head, free) && p in mem && p !in free && |page| == WORDS
    ensures FreeOk(mem[p := page], head, free)
  {
  }

  lemma PushFree(mem: map<nat, Page>, head: nat, free: seq<nat>, p: nat, page: Page)
    requires FreeOk(mem, head, free) && p in mem && p !in free && |page| == WORDS
    ensures FreeOk(mem[p := page[0 := head]], p, [p] + free)
    ensures Elems([p] + free) == Elems(free) + {p}
  {
    var mem' := mem[p := page[0 := head]];
    var free' := [p] + free;
    forall i | 0 <= i < |free'| ensures free'[i] in mem' && mem'[free'[i]][0] == Nth(free', i + 1) {
      if i > 0 {
        assert free'[i] == free[i - 1] && mem[free[i - 1]][0] == Nth(free, i);
      }
    }
  }

  lemma PopFree(mem: map<nat, Page>, head: nat, free: seq<nat>, page: Page)
    requires FreeOk(mem, head, free) && head != 0 && |page| == WORDS
    ensures free != [] && head == free[0] && head in mem && |mem[head]| == WORDS
    ensures FreeOk(mem[head := page], mem[head][0], free[1..])
    ensures head !in free[1..] && Elems(free) == Elems(free[1..]) + {head}
  {
    var rest := free[1..];
    var mem' := mem[head := page];
    assert free == [head] + rest;
    forall i | 0 <= i < |rest| ensures rest[i] in mem' && rest[i] != head && mem'[rest[i]][0] == Nth(rest, i + 1) {
      assert rest[i] == free[i + 1] && mem[free[i + 1]][0] == Nth(free, i + 2);
    }
    assert mem[free[0]][0] == Nth(free, 1);
  }

  /** A whole aligned page of [lo, hi). */
  predicate Between(lo: nat, p: nat, hi: nat) {
    lo <= p && p % PGSIZE == 0 && p + PGSIZE <= hi
  }

  lemma NextPage(p: nat, q: nat)
    requires p % PGSIZE == 0 && q % PGSIZE == 0 && q < p + PGSIZE
    ensures q <= p
  {
  }

  class Machine {
    var mem: map<nat, Page>
    var freelist: nat
    ghost var free: seq<nat>

    ghost predicate Valid()
      reads this
    {
      FreeOk(mem, freelist, free)
    }

    /** RAM before kinit: no page is on the list. */
    constructor (pages: map<nat, Page>)
      requires PagesOk(pages)
      ensures Valid() && mem == pages && free == []
    {
      mem := pages;
      freelist := 0;
      free := [];
    }

    /** freerange: kfree each whole page of [lo, hi), once. */
    method Freerange(lo: nat, hi: nat)
      requires Valid()
      requires forall p: nat :: Between(lo, p, hi) ==> p in mem && p !in free
      modifies this
      ensures Valid() && mem.Keys == old(mem.Keys)
      ensures forall p: nat :: p in free <==> p in old(free) || Between(lo, p, hi)
    {
      hide FreeOk;
      var p := (lo + PGSIZE - 1) / PGSIZE * PGSIZE;
      while p + PGSIZE <= hi
        invariant lo <= p && p % PGSIZE == 0
        invariant Valid() && mem.Keys == old(mem.Keys)
        invariant forall q: nat :: q in free <==> q in old(free) || (Between(lo, q, hi) && q < p)
        decreases hi - p
      {
        assert Between(lo, p, hi);
        Kfree(p);
        forall q: nat | Between(lo, q, hi) && q < p + PGSIZE ensures q <= p {
          NextPage(p, q);
        }
        p := p + PGSIZE;
      }
      forall q: nat | Between(lo, q, hi) ensures q < p { }
    }

    /** kfree: fill with junk and push on the list. */
    method Kfree(p: nat)
      requires Valid() && p in mem && p !in free
      modifies this
      ensures Valid() && free == [p] + old(free) && Elems(free) == Elems(old(free)) + {p}
      ensures mem.Keys == old(mem.Keys)
      ensures forall q :: q in mem && q != p ==> mem[q] == old(mem)[q]
      ensures mem[p] == Filled(JUNK_FREED)[0 := old(freelist)] && freelist == p
    {
      PushFree(mem, freelist, free, p, Filled(JUNK_FREED));
      var r := Filled(JUNK_FREED);
      mem := mem[p := r];
      mem := mem[p := r[0 := freelist]];
      freelist := p;
      free := [p] + free;
      assert mem == old(mem)[p := r[0 := old(freelist)]];
    }

    /** kalloc: pop the first free page, or 0 when there is none. */
    method Kalloc() returns (r: nat)
      requires Valid()
      modifies this
      ensures Valid() && mem.Keys == old(mem.Keys)
      ensures r == 0 <==> old(free) == []
      ensures r == 0 ==> free == old(free) && mem == old(mem)
      ensures r != 0 ==> r in mem && r in old(free) && r !in free && old(free) == [r] + free
      ensures r != 0 ==> Elems(old(free)) == Elems(free) + {r}
      ensures forall q :: q in mem && q != r ==> mem[q] == old(mem)[q]
      ensures r != 0 ==> mem[r] == Filled(JUNK_ALLOCATED)
    {
      r := freelist;
      if r != 0 {
        PopFree(mem, freelist, free, Filled(JUNK_ALLOCATED));
        freelist := mem[r][0];
        mem := mem[r := Filled(JUNK_ALLOCATED)];
        free := free[1..];
        assert old(free) == [r] + free;
      }
    }

    /** A store to a page in use. */
    method Store(p: nat, page: Page)
      requires Valid() && p in mem && p !in free && |page| == WORDS
      modifies `mem
      ensures Valid() && mem == old(mem)[p := page]
    {
      WriteKeepsFree(mem, freelist, free, p, page);
      mem := mem[p := page];
    }
  }
}
