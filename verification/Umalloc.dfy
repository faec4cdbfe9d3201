/**
 * The allocator of user/umalloc.c: a circular, address-ordered list of free blocks through the
 * static header `base`. Addresses and sizes are in units of sizeof(Header); 0 is the null pointer,
 * and the heap lies above base.
 */
module Umalloc {
  import opened Collections

  const NULL := 0
  const BASE := 1
  const MIN_CORE := 4096

  /** A stretch of memory obtained from sbrk: on the free list, or handed out by malloc. */
  datatype Block = Block(size: nat, free: bool)

  // ---- blocks

  /** Blocks lie above base, are not empty and do not overlap. */
  ghost predicate BlocksOk(blocks: map<nat, Block>) {
    && (forall a: nat :: a in blocks ==> a > BASE && blocks[a].size >= 1)
    && (forall a: nat, b: nat :: a in blocks && b in blocks && a < b ==> a + blocks[a].size <= b)
  }

  ghost predicate Covers(blocks: map<nat, Block>, a: nat, u: nat) { a in blocks && a <= u < a + blocks[a].size }

  /** The blocks make up exactly the units obtained from sbrk. */
  ghost predicate Tiles(blocks: map<nat, Block>, core: set<nat>) {
    forall u: nat :: u in core <==> exists a: nat :: Covers(blocks, a, u)
  }

  /** The size fields in memory are those of the blocks. */
  ghost predicate SizesOk(size: map<nat, nat>, blocks: map<nat, Block>) {
    && BASE in size && size[BASE] == 0
    && forall a: nat :: a in blocks ==> a in size && size[a] == blocks[a].size
  }

  // ---- the free list

  /** next links the list into one cycle that starts at base. */
  ghost predicate Chain(fl: seq<nat>, next: map<nat, nat>) {
    && |fl| >= 1 && fl[0] == BASE
    && (forall i :: 0 <= i < |fl| ==> fl[i] in next)
    && (forall i, j :: 0 <= i < j < |fl| && j == i + 1 ==> next[fl[i]] == fl[j])
    && next[fl[|fl| - 1]] == BASE
  }

  ghost predicate Increasing(fl: seq<nat>) { forall i, j :: 0 <= i < j < |fl| ==> fl[i] < fl[j] }

  predicate In(fl: seq<nat>, a: nat) { a in fl }

  /** The list holds the free blocks, all of them. */
  ghost predicate Listed(fl: seq<nat>, blocks: map<nat, Block>) {
    && (forall i :: 1 <= i < |fl| ==> fl[i] in blocks && blocks[fl[i]].free)
    && (forall a: nat :: a in blocks && blocks[a].free ==> In(fl, a))
  }

  /** No free block touches a later one. */
  ghost predicate Separated(fl: seq<nat>, blocks: map<nat, Block>) {
    forall i, j :: 1 <= i < j < |fl| ==> fl[i] in blocks && fl[i] + blocks[fl[i]].size < fl[j]
  }

  // ---- changing blocks

  /** A block changes hands. */
  lemma Retag(blocks: map<nat, Block>, core: set<nat>, a: nat, free: bool)
    requires BlocksOk(blocks) && Tiles(blocks, core) && a in blocks
    ensures var blocks' := blocks[a := blocks[a].(free := free)]; BlocksOk(blocks') && Tiles(blocks', core)
  {
    var blocks' := blocks[a := blocks[a].(free := free)];
    forall u: nat ensures u in core <==> exists b: nat :: Covers(blocks', b, u) {
      forall b: nat ensures Covers(blocks', b, u) <==> Covers(blocks, b, u) { }
    }
  }

  ghost function Merged(blocks: map<nat, Block>, a: nat, b: nat): (r: map<nat, Block>)
    requires a in blocks && b in blocks
  {
    (blocks - {b})[a := blocks[a].(size := blocks[a].size + blocks[b].size)]
  }

  /** Two blocks that touch become one. */
  lemma Merge(blocks: map<nat, Block>, core: set<nat>, a: nat, b: nat)
    requires BlocksOk(blocks) && Tiles(blocks, core) && a in blocks && b in blocks && a + blocks[a].size == b
    ensures var blocks' := Merged(blocks, a, b); BlocksOk(blocks') && Tiles(blocks', core)
  {
    var blocks' := Merged(blocks, a, b);
    forall u: nat ensures u in core <==> exists c: nat :: Covers(blocks', c, u) {
      if c: nat :| Covers(blocks, c, u) {
        assert Covers(blocks', if c == b then a else c, u);
      }
      if c: nat :| Covers(blocks', c, u) {
        assert Covers(blocks, if c == a && u >= b then b else c, u);
      }
    }
  }

  /** The last n units of a block become a block of their own. */
  ghost function Split(blocks: map<nat, Block>, a: nat, n: nat): (r: map<nat, Block>)
    requires a in blocks && n < blocks[a].size
  {
    blocks[a := blocks[a].(size := blocks[a].size - n)][a + blocks[a].size - n := Block(n, false)]
  }

  lemma SplitBlocks(blocks: map<nat, Block>, a: nat, n: nat)
    requires BlocksOk(blocks) && a in blocks && 1 <= n < blocks[a].size
    ensures a + blocks[a].size - n !in blocks && BlocksOk(Split(blocks, a, n))
  {
    var b, blocks' := a + blocks[a].size - n, Split(blocks, a, n);
    forall c: nat, d: nat | c in blocks' && d in blocks' && c < d ensures c + blocks'[c].size <= d {
      if d == b {
        if c != a { assert c in blocks && a in blocks; }
      } else if c == b {
        assert a in blocks && d in blocks && a < d;
      }
    }
  }

  lemma SplitOk(blocks: map<nat, Block>, core: set<nat>, a: nat, n: nat)
    requires BlocksOk(blocks) && Tiles(blocks, core) && a in blocks && 1 <= n < blocks[a].size
    ensures a + blocks[a].size - n !in blocks && BlocksOk(Split(blocks, a, n)) && Tiles(Split(blocks, a, n), core)
  {
    var b, blocks' := a + blocks[a].size - n, Split(blocks, a, n);
    SplitBlocks(blocks, a, n);
    forall u: nat ensures u in core <==> exists c: nat :: Covers(blocks', c, u) {
      hide BlocksOk;
      if c: nat :| Covers(blocks, c, u) {
        assert Covers(blocks', if c == a && u >= b then b else c, u);
      }
      if c: nat :| Covers(blocks', c, u) {
        assert Covers(blocks, if c == b then a else c, u);
      }
    }
  }

  predicate Within(a: nat, u: nat, n: nat) { a <= u < a + n }

  function Range(a: nat, n: nat): (s: set<nat>) { set u: nat | a <= u < a + n && Within(a, u, n) }

  /** Fresh memory above everything obtained so far. */
  lemma AddOk(blocks: map<nat, Block>, core: set<nat>, a: nat, n: nat)
    requires BlocksOk(blocks) && Tiles(blocks, core) && n >= 1 && a > BASE
    requires forall b: nat :: b in blocks ==> b + blocks[b].size <= a
    ensures a !in blocks
    ensures BlocksOk(blocks[a := Block(n, false)]) && Tiles(blocks[a := Block(n, false)], core + Range(a, n))
  {
    var blocks' := blocks[a := Block(n, false)];
    forall u: nat ensures u in core + Range(a, n) <==> exists c: nat :: Covers(blocks', c, u) {
      if c: nat :| Covers(blocks, c, u) { assert Covers(blocks', c, u); }
      if u in Range(a, n) { assert Covers(blocks', a, u); }
      if c: nat :| Covers(blocks', c, u) {
        if c != a { assert Covers(blocks, c, u); }
      }
    }
  }

  // ---- changing the list

  function Insert(fl: seq<nat>, i: nat, a: nat): (r: seq<nat>)
    requires i <= |fl|
  {
    fl[..i] + [a] + fl[i..]
  }

  lemma RemoveAt(fl: seq<nat>, k: nat, i: nat)
    requires k < |fl| && i < |fl| - 1
    ensures |Remove(fl, k)| == |fl| - 1 && Remove(fl, k)[i] == fl[if i < k then i else i + 1]
  {
  }

  lemma InsertAt(fl: seq<nat>, k: nat, x: nat, i: nat)
    requires k <= |fl| && i <= |fl|
    ensures |Insert(fl, k, x)| == |fl| + 1
    ensures Insert(fl, k, x)[i] == if i < k then fl[i] else if i == k then x else fl[i - 1]
  {
  }

  /** The element after position t, base after the last one. */
  function After(fl: seq<nat>, t: nat): (a: nat)
    requires t < |fl|
  {
    if t + 1 < |fl| then fl[t + 1] else BASE
  }

  lemma ChainHead(fl: seq<nat>, next: map<nat, nat>)
    requires Chain(fl, next)
    ensures |fl| >= 1 && fl[0] == BASE
  {
  }

  lemma ChainNext(fl: seq<nat>, next: map<nat, nat>, t: nat)
    requires Chain(fl, next) && t < |fl|
    ensures fl[t] in next && next[fl[t]] == After(fl, t)
  {
  }

  /** Unlinking the element after position t. */
  lemma ChainRemove(fl: seq<nat>, next: map<nat, nat>, t: nat)
    requires Chain(fl, next) && Increasing(fl) && t + 1 < |fl|
    ensures fl[t + 1] in next && Chain(Remove(fl, t + 1), next[fl[t] := next[fl[t + 1]]])
            && Increasing(Remove(fl, t + 1))
  {
  }

  lemma InsertUp(fl: seq<nat>, t: nat, a: nat, i: nat, j: nat)
    requires Increasing(fl) && t < |fl| && fl[t] < a && (t + 1 < |fl| ==> a < fl[t + 1])
             && i < j < |Insert(fl, t + 1, a)|
    ensures Insert(fl, t + 1, a)[i] < Insert(fl, t + 1, a)[j] && |Insert(fl, t + 1, a)| == |fl| + 1
  {
    InsertAt(fl, t + 1, a, i);
    InsertAt(fl, t + 1, a, j);
    hide Insert;
  }

  lemma InsertLink(fl: seq<nat>, next: map<nat, nat>, t: nat, a: nat, i: nat)
    requires Chain(fl, next) && Increasing(fl) && t < |fl| && fl[t] < a && (t + 1 < |fl| ==> a < fl[t + 1])
    requires i + 1 < |Insert(fl, t + 1, a)|
    ensures var fl', next' := Insert(fl, t + 1, a), next[a := After(fl, t)][fl[t] := a];
           fl'[i] in next'
           && next'[fl'[i]] == fl'[i + 1]
  {
    InsertAt(fl, t + 1, a, i);
    InsertAt(fl, t + 1, a, i + 1);
    hide Insert;
  }

  lemma InsertEnds(fl: seq<nat>, next: map<nat, nat>, t: nat, a: nat)
    requires Chain(fl, next) && Increasing(fl) && t < |fl| && fl[t] < a && (t + 1 < |fl| ==> a < fl[t + 1])
    ensures var fl', next' := Insert(fl, t + 1, a), next[a := After(fl, t)][fl[t] := a];
            |fl'| >= 1 && fl'[0] == BASE && fl'[|fl'| - 1] in next' && next'[fl'[|fl'| - 1]] == BASE
  {
    InsertAt(fl, t + 1, a, 0);
    InsertAt(fl, t + 1, a, |fl|);
    hide Insert;
    if t + 1 < |fl| { assert a < fl[t + 1] <= fl[|fl| - 1]; }
  }

  lemma LinksAre(fl: seq<nat>, next: map<nat, nat>)
    requires |fl| >= 1 && fl[0] == BASE && fl[|fl| - 1] in next && next[fl[|fl| - 1]] == BASE
    requires forall i, j :: 0 <= i < j < |fl| && j == i + 1 ==> fl[i] in next && next[fl[i]] == fl[j]
    ensures Chain(fl, next)
  {
    forall i | 0 <= i < |fl| ensures fl[i] in next {
      var j := i + 1;
      if j < |fl| {
        var x, y := fl[i], fl[j];
        assert x in next && next[x] == y;
      }
    }
  }

  /** Linking a in after position t. */
  lemma ChainInsert(fl: seq<nat>, next: map<nat, nat>, t: nat, a: nat)
    requires Chain(fl, next) && Increasing(fl) && t < |fl| && fl[t] < a && (t + 1 < |fl| ==> a < fl[t + 1])
    ensures Chain(Insert(fl, t + 1, a), next[a := After(fl, t)][fl[t] := a]) && Increasing(Insert(fl, t + 1, a))
  {
    var fl', next' := Insert(fl, t + 1, a), next[a := After(fl, t)][fl[t] := a];
    hide Chain, Insert, After;
    forall i, j | 0 <= i < j < |fl'| ensures fl'[i] < fl'[j]
           && (j == i + 1 ==> fl'[i] in next' && next'[fl'[i]] == fl'[j]) {
      InsertUp(fl, t, a, i, j);
      if j == i + 1 { InsertLink(fl, next, t, a, i); }
    }
    InsertEnds(fl, next, t, a);
    assert Increasing(fl');
    LinksAre(fl', next');
  }

  /** A link stored outside the list changes nothing. */
  lemma ChainFrame(fl: seq<nat>, next: map<nat, nat>, a: nat, x: nat)
    requires Chain(fl, next) && a !in fl
    ensures Chain(fl, next[a := x])
  {
    assert forall i :: 0 <= i < |fl| ==> fl[i] in fl;
  }

  // ---- free: a block on its way to the list

  /** bp is free but not yet on the list, where it belongs after position t. */
  ghost predicate Homeless(fl: seq<nat>, blocks: map<nat, Block>, bp: nat, t: nat) {
    && t < |fl| && fl[0] == BASE && Increasing(fl)
    && bp in blocks && blocks[bp].free && fl[t] < bp && (t + 1 < |fl| ==> bp < fl[t + 1])
    && (forall i :: 1 <= i < |fl| ==> fl[i] in blocks && blocks[fl[i]].free)
    && (forall i :: 0 <= i < |fl| ==> fl[i] != bp)
    && (forall a: nat :: a in blocks && blocks[a].free && a != bp ==> In(fl, a))
    && Separated(fl, blocks)
  }

  /** bp does not touch the block after it. */
  ghost predicate Gap(fl: seq<nat>, blocks: map<nat, Block>, bp: nat, t: nat)
    requires bp in blocks
  {
    t + 1 < |fl| ==> bp + blocks[bp].size < fl[t + 1]
  }

  lemma Released(fl: seq<nat>, blocks: map<nat, Block>, bp: nat, t: nat)
    requires Listed(fl, blocks) && Separated(fl, blocks) && |fl| >= 1 && fl[0] == BASE && Increasing(fl)
    requires bp in blocks && !blocks[bp].free && bp > BASE
    requires t < |fl| && fl[t] < bp && (t + 1 < |fl| ==> bp < fl[t + 1])
    ensures Homeless(fl, blocks[bp := blocks[bp].(free := true)], bp, t)
  {
    hide In;
  }

  lemma MergedIs(blocks: map<nat, Block>, a: nat, b: nat, c: nat)
    requires a in blocks && b in blocks && a != b
    ensures c in Merged(blocks, a, b) <==> c in blocks && c != b
    ensures c in blocks && c != b ==> Merged(blocks, a, b)[c].free == blocks[c].free
  {
  }

  lemma InRemove(fl: seq<nat>, k: nat, a: nat)
    requires k < |fl| && In(fl, a) && a != fl[k]
    ensures In(Remove(fl, k), a)
  {
    var i :| 0 <= i < |fl| && fl[i] == a;
    assert Remove(fl, k)[if i < k then i else i - 1] == a;
  }

  lemma MergeUpIn(fl: seq<nat>, blocks: map<nat, Block>, bp: nat, t: nat, a: nat)
    requires Homeless(fl, blocks, bp, t) && t + 1 < |fl| && fl[t + 1] in blocks
    requires a in Merged(blocks, bp, fl[t + 1]) && Merged(blocks, bp, fl[t + 1])[a].free && a != bp
    ensures In(Remove(fl, t + 1), a)
  {
    MergedIs(blocks, bp, fl[t + 1], a);
    hide Separated, Remove, In, Merged, Increasing;
    InRemove(fl, t + 1, a);
  }

  lemma RemoveUp(fl: seq<nat>, k: nat, i: nat, j: nat)
    requires Increasing(fl) && k < |fl| && i < j < |Remove(fl, k)|
    ensures Remove(fl, k)[i] < Remove(fl, k)[j]
  {
    RemoveAt(fl, k, i);
    RemoveAt(fl, k, j);
    hide Remove;
  }

  lemma MergeUpElem(fl: seq<nat>, blocks: map<nat, Block>, bp: nat, t: nat, i: nat)
    requires Homeless(fl, blocks, bp, t) && t + 1 < |fl| && i < |Remove(fl, t + 1)|
    ensures fl[t + 1] in blocks
    ensures var fl', blocks' := Remove(fl, t + 1), Merged(blocks, bp, fl[t + 1]);
            fl'[i] != bp && (i >= 1 ==> fl'[i] in blocks' && blocks'[fl'[i]].free)
  {
    RemoveAt(fl, t + 1, i);
    hide Remove, In, Separated;
  }

  lemma MergeUpListed(fl: seq<nat>, blocks: map<nat, Block>, bp: nat, t: nat)
    requires Homeless(fl, blocks, bp, t) && t + 1 < |fl|
    ensures fl[t + 1] in blocks
    ensures var fl', blocks' := Remove(fl, t + 1), Merged(blocks, bp, fl[t + 1]);
            && Increasing(fl') && (forall i :: 0 <= i < |fl'| ==> fl'[i] != bp)
            && (forall i :: 1 <= i < |fl'| ==> fl'[i] in blocks' && blocks'[fl'[i]].free)
            && (forall a: nat :: a in blocks' && blocks'[a].free && a != bp ==> In(fl', a))
  {
    var fl', blocks' := Remove(fl, t + 1), Merged(blocks, bp, fl[t + 1]);
    assert Increasing(fl) by { hide Separated, In; }
    hide Homeless, Remove, In, Merged;
    forall i, j | 0 <= i < j < |fl'| ensures fl'[i] < fl'[j] {
      RemoveUp(fl, t + 1, i, j);
    }
    assert Increasing(fl');
    hide Increasing;
    forall i | 0 <= i < |fl'| ensures fl'[i] != bp && (i >= 1 ==> fl'[i] in blocks' && blocks'[fl'[i]].free) {
      MergeUpElem(fl, blocks, bp, t, i);
    }
    forall a: nat | a in blocks' && blocks'[a].free && a != bp ensures In(fl', a) {
      MergeUpIn(fl, blocks, bp, t, a);
    }
  }

  lemma PairApart(fl: seq<nat>, blocks: map<nat, Block>, bp: nat, t: nat, i: nat, j: nat)
    requires Homeless(fl, blocks, bp, t) && t + 1 < |fl| && 1 <= i < j < |fl| && i != t + 1
    ensures fl[t + 1] in blocks && bp in blocks && fl[i] in blocks && fl[i] != bp && fl[i] != fl[t + 1]
    ensures fl[i] + blocks[fl[i]].size < fl[j]
  {
    hide In;
  }

  lemma MergedElse(blocks: map<nat, Block>, a: nat, b: nat, c: nat)
    requires a in blocks && b in blocks && c in blocks && c != a && c != b
    ensures c in Merged(blocks, a, b) && Merged(blocks, a, b)[c] == blocks[c]
  {
  }

  lemma MergeUpPair(fl: seq<nat>, blocks: map<nat, Block>, bp: nat, t: nat, i: nat, j: nat)
    requires Homeless(fl, blocks, bp, t) && t + 1 < |fl| && 1 <= i < j < |fl| - 1
    ensures fl[t + 1] in blocks && |Remove(fl, t + 1)| == |fl| - 1
    ensures var fl', blocks' := Remove(fl, t + 1), Merged(blocks, bp, fl[t + 1]);
            fl'[i] in blocks' && fl'[i] + blocks'[fl'[i]].size < fl'[j]
  {
    RemoveAt(fl, t + 1, i);
    RemoveAt(fl, t + 1, j);
    hide Remove, In, Merged;
    PairApart(fl, blocks, bp, t, if i < t + 1 then i else i + 1, if j < t + 1 then j else j + 1);
    hide Homeless;
    MergedElse(blocks, bp, fl[t + 1], Remove(fl, t + 1)[i]);
  }

  lemma MergeUpGap(fl: seq<nat>, blocks: map<nat, Block>, bp: nat, t: nat)
    requires Homeless(fl, blocks, bp, t) && t + 2 < |fl| && bp + blocks[bp].size == fl[t + 1]
    ensures fl[t + 1] in blocks && bp + blocks[bp].size + blocks[fl[t + 1]].size < fl[t + 2] == Remove(fl, t + 1)[t + 1]
  {
    hide In;
  }

  lemma MergeUpSeparated(fl: seq<nat>, blocks: map<nat, Block>, bp: nat, t: nat)
    requires Homeless(fl, blocks, bp, t) && t + 1 < |fl| && bp + blocks[bp].size == fl[t + 1]
    ensures fl[t + 1] in blocks
    ensures var fl', blocks' := Remove(fl, t + 1), Merged(blocks, bp, fl[t + 1]);
           Separated(fl', blocks')
           && Gap(fl', blocks', bp, t)
  {
    assert fl[t + 1] in blocks && bp != fl[t + 1] && bp in blocks by { hide Separated, In; }
    RemoveAt(fl, t + 1, 0);
    var fl', blocks' := Remove(fl, t + 1), Merged(blocks, bp, fl[t + 1]);
    assert blocks'[bp].size == blocks[bp].size + blocks[fl[t + 1]].size;
    hide Homeless, Remove, Merged;
    forall i, j | 1 <= i < j < |fl'| ensures fl'[i] in blocks' && fl'[i] + blocks'[fl'[i]].size < fl'[j] {
      MergeUpPair(fl, blocks, bp, t, i, j);
    }
    assert Separated(fl', blocks');
    hide Separated;
    if t + 1 < |fl'| { MergeUpGap(fl, blocks, bp, t); }
  }

  /** bp absorbs the block after it. */
  lemma MergeUp(fl: seq<nat>, blocks: map<nat, Block>, bp: nat, t: nat)
    requires BlocksOk(blocks) && Homeless(fl, blocks, bp, t) && t + 1 < |fl| && bp + blocks[bp].size == fl[t + 1]
    ensures fl[t + 1] in blocks
    ensures var fl', blocks' := Remove(fl, t + 1), Merged(blocks, bp, fl[t + 1]);
           Homeless(fl', blocks', bp, t)
           && Gap(fl', blocks', bp, t)
  {
    MergeUpListed(fl, blocks, bp, t);
    MergeUpSeparated(fl, blocks, bp, t);
  }

  lemma InInsert(fl: seq<nat>, k: nat, x: nat, a: nat)
    requires k <= |fl| && (In(fl, a) || a == x)
    ensures In(Insert(fl, k, x), a)
  {
    if a == x {
      assert Insert(fl, k, x)[k] == a;
    } else {
      var i :| 0 <= i < |fl| && fl[i] == a;
      assert Insert(fl, k, x)[if i < k then i else i + 1] == a;
    }
  }

  lemma NoMergeUp(fl: seq<nat>, blocks: map<nat, Block>, bp: nat, t: nat)
    requires BlocksOk(blocks) && Homeless(fl, blocks, bp, t) && (t + 1 < |fl| ==> bp + blocks[bp].size != fl[t + 1])
    ensures Gap(fl, blocks, bp, t)
  {
  }

  /** The block before bp absorbs it. */
  lemma MergeDown(fl: seq<nat>, blocks: map<nat, Block>, bp: nat, t: nat)
    requires BlocksOk(blocks) && Homeless(fl, blocks, bp, t) && Gap(fl, blocks, bp, t)
    requires t >= 1 && fl[t] in blocks && fl[t] + blocks[fl[t]].size == bp
    ensures var blocks' := Merged(blocks, fl[t], bp); Listed(fl, blocks') && Separated(fl, blocks')
  {
    var blocks' := Merged(blocks, fl[t], bp);
    hide In;
  }

  lemma InsertLen(fl: seq<nat>, k: nat, x: nat)
    requires k <= |fl|
    ensures |Insert(fl, k, x)| == |fl| + 1
  {
  }

  lemma PlacedPair(fl: seq<nat>, blocks: map<nat, Block>, bp: nat, t: nat, i: nat, j: nat)
    requires Homeless(fl, blocks, bp, t) && Gap(fl, blocks, bp, t) && 1 <= i < j <= |fl|
    requires t >= 1 ==> fl[t] in blocks && fl[t] + blocks[fl[t]].size < bp
    ensures var fl' := Insert(fl, t + 1, bp);
            |fl'| == |fl| + 1 && fl'[i] in blocks && fl'[i] + blocks[fl'[i]].size < fl'[j]
  {
    InsertAt(fl, t + 1, bp, i);
    InsertAt(fl, t + 1, bp, j);
    hide Insert, In;
    if i == t + 1 {
      assert j - 1 > t && fl[t + 1] <= fl[j - 1];
    } else if i < t && j == t + 1 {
      assert fl[i] + blocks[fl[i]].size < fl[t];
    }
  }

  lemma PlacedListed(fl: seq<nat>, blocks: map<nat, Block>, bp: nat, t: nat)
    requires Homeless(fl, blocks, bp, t)
    ensures Listed(Insert(fl, t + 1, bp), blocks)
  {
    var fl' := Insert(fl, t + 1, bp);
    InsertAt(fl, t + 1, bp, 0);
    hide Separated, Increasing, Insert, In;
    forall i | 1 <= i < |fl'| ensures fl'[i] in blocks && blocks[fl'[i]].free {
      InsertAt(fl, t + 1, bp, i);
    }
    forall a: nat | a in blocks && blocks[a].free ensures In(fl', a) {
      InInsert(fl, t + 1, bp, a);
    }
  }

  /** bp gets a place of its own. */
  lemma Placed(fl: seq<nat>, blocks: map<nat, Block>, bp: nat, t: nat)
    requires BlocksOk(blocks) && Homeless(fl, blocks, bp, t) && Gap(fl, blocks, bp, t)
    requires t >= 1 ==> fl[t] in blocks && fl[t] + blocks[fl[t]].size != bp
    ensures Listed(Insert(fl, t + 1, bp), blocks) && Separated(Insert(fl, t + 1, bp), blocks)
  {
    assert t >= 1 ==> fl[t] + blocks[fl[t]].size < bp by { hide Separated, In; }
    hide BlocksOk, Homeless, Insert, In, Gap;
    PlacedListed(fl, blocks, bp, t);
    var fl' := Insert(fl, t + 1, bp);
    forall i, j | 1 <= i < j < |fl'| ensures fl'[i] in blocks && fl'[i] + blocks[fl'[i]].size < fl'[j] {
      InsertLen(fl, t + 1, bp);
      PlacedPair(fl, blocks, bp, t, i, j);
    }
    assert Separated(fl', blocks);
  }

  // ---- the state of the allocator

  ghost predicate Below(blocks: map<nat, Block>, brk: nat) {
    forall b: nat :: b in blocks ==> b + blocks[b].size <= brk
  }

  ghost predicate HeapOk(next: map<nat, nat>, size: map<nat, nat>, freep: nat, brk: nat, blocks: map<nat, Block>,
                         core: set<nat>,
                         fl: seq<nat>) {
    && BlocksOk(blocks) && Tiles(blocks, core) && SizesOk(size, blocks)
    && Chain(fl, next) && Increasing(fl) && Listed(fl, blocks) && Separated(fl, blocks)
    && freep in fl && brk > BASE && Below(blocks, brk)
  }

  /** Steps from position k around the cycle of n to position t. */
  function Dist(k: nat, t: nat, n: nat): (d: nat)
    requires k < n && t < n
  {
    if k <= t then t - k else n - k + t
  }

  /** The place of an address in an increasing list. */
  lemma {:induction false} PlaceOf(fl: seq<nat>, a: nat) returns (t: nat)
    requires Increasing(fl) && |fl| >= 1 && fl[0] < a
    ensures t < |fl| && fl[t] < a && (t + 1 < |fl| ==> a <= fl[t + 1])
  {
    t := |fl| - 1;
    while t > 0 && fl[t] >= a
      invariant 0 <= t < |fl| && (t + 1 < |fl| ==> a <= fl[t + 1])
    {
      t := t - 1;
    }
  }

  function Units(nbytes: nat): (n: nat) { (nbytes + 15) / 16 + 1 }

  /** The position after k on the cycle. */
  function Succ(k: nat, n: nat): (m: nat)
    requires k < n
    ensures m < n
  {
    if k + 1 < n then k + 1 else 0
  }

  /** The blocks between freep and position m are too small. */
  ghost predicate Tried(fl: seq<nat>, size: map<nat, nat>, f: nat, m: nat, n: nat)
    requires f < |fl| && m < |fl|
  {
    forall i: nat :: i < |fl| && Dist(i, f, |fl|) > Dist(m, f, |fl|) ==> fl[i] in size && size[fl[i]] < n
  }

  lemma NoneYet(fl: seq<nat>, size: map<nat, nat>, f: nat, n: nat)
    requires f < |fl|
    ensures Tried(fl, size, f, Succ(f, |fl|), n)
  {
  }

  /** No free block has n units. */
  ghost predicate AllSmaller(blocks: map<nat, Block>, n: nat) {
    forall a: nat :: a in blocks && blocks[a].free ==> blocks[a].size < n
  }

  /** Near freep there is a free block of n units. */
  ghost predicate Fits(next: map<nat, nat>, size: map<nat, nat>, freep: nat, n: nat) {
    && freep in size && freep in next
    && (size[freep] >= n || (next[freep] in size && size[next[freep]] >= n))
  }

  lemma CoreListed(blocks: map<nat, Block>, fl: seq<nat>, a: nat, n: nat)
    requires Listed(fl, blocks) && Separated(fl, blocks) && a !in blocks
    ensures Listed(fl, blocks[a := Block(n, false)]) && Separated(fl, blocks[a := Block(n, false)])
  {
    hide In;
  }

  /** The blocks handed out, with their sizes. */
  ghost function Live(blocks: map<nat, Block>): (live: map<nat, nat>) {
    map a: nat | a in blocks && !blocks[a].free :: blocks[a].size
  }

  lemma CoreAdded(next: map<nat, nat>, size: map<nat, nat>, freep: nat, brk: nat, blocks: map<nat, Block>,
                  core: set<nat>,
                  fl: seq<nat>, n: nat)
    requires HeapOk(next, size, freep, brk, blocks, core, fl) && n >= 1
    ensures HeapOk(next, size[brk := n], freep, brk + n, blocks[brk := Block(n, false)], core + Range(brk, n), fl)
    ensures brk !in blocks && Live(blocks[brk := Block(n, false)]) - {brk} == Live(blocks)
  {
    hide Tiles, Separated, Increasing, Chain, In, Range;
    AddOk(blocks, core, brk, n);
    CoreListed(blocks, fl, brk, n);
    assert Live(blocks[brk := Block(n, false)]) - {brk} == Live(blocks);
  }

  /** free between its two halves: bp belongs after position t of fl, which next links. */
  datatype Place = Place(bp: nat, t: nat, fl: seq<nat>, next: map<nat, nat>, blocks: map<nat, Block>)

  lemma NotListed(fl: seq<nat>, blocks: map<nat, Block>, bp: nat)
    requires Listed(fl, blocks) && bp in blocks && !blocks[bp].free && |fl| >= 1 && fl[0] == BASE && bp > BASE
    ensures bp !in fl
  {
  }

  ghost predicate PlaceOk(size: map<nat, nat>, brk: nat, core: set<nat>, pl: Place, live: map<nat, nat>) {
    && BlocksOk(pl.blocks) && Tiles(pl.blocks, core) && SizesOk(size, pl.blocks)
    && Chain(pl.fl, pl.next) && Homeless(pl.fl, pl.blocks, pl.bp, pl.t)
    && brk > BASE && Below(pl.blocks, brk) && Live(pl.blocks) == live
  }

  /** bp has absorbed the block after it. */
  ghost function PlaceUp(pl: Place): (r: Place)
    requires pl.t + 1 < |pl.fl| && pl.fl[pl.t + 1] in pl.next && pl.bp in pl.blocks && pl.fl[pl.t + 1] in pl.blocks
  {
    var q := pl.fl[pl.t + 1];
    pl.(fl := Remove(pl.fl, pl.t + 1), next := pl.next[pl.fl[pl.t] := pl.next[q]],
        blocks := Merged(pl.blocks, pl.bp, q))
  }

  lemma AboveBase(blocks: map<nat, Block>, a: nat)
    requires BlocksOk(blocks) && a in blocks
    ensures a > BASE && blocks[a].size >= 1
  {
  }

  lemma RetagRest(size: map<nat, nat>, blocks: map<nat, Block>, brk: nat, a: nat, free: bool)
    requires SizesOk(size, blocks) && Below(blocks, brk) && a in blocks && blocks[a].free != free
    ensures var blocks' := blocks[a := blocks[a].(free := free)];
            && SizesOk(size, blocks') && Below(blocks', brk) && a in size && size[a] == blocks[a].size
            && Live(blocks') == if free then Live(blocks) - {a} else Live(blocks)[a := blocks[a].size]
  {
  }

  lemma FreeStart(next: map<nat, nat>, size: map<nat, nat>, freep: nat, brk: nat, blocks: map<nat, Block>,
                  core: set<nat>, fl: seq<nat>,
                  pl: Place)
    requires HeapOk(next, size, freep, brk, blocks, core, fl) && pl.bp in blocks && !blocks[pl.bp].free
    requires pl == Place(pl.bp, pl.t, fl, next, blocks[pl.bp := blocks[pl.bp].(free := true)])
    requires pl.t < |fl| && fl[pl.t] < pl.bp && (pl.t + 1 < |fl| ==> pl.bp < fl[pl.t + 1])
    ensures PlaceOk(size, brk, core, pl, Live(blocks) - {pl.bp})
    ensures fl[pl.t] in next && next[fl[pl.t]] == After(fl, pl.t) && pl.bp in size && size[pl.bp] == blocks[pl.bp].size
  {
    hide Tiles, Separated, Listed, Homeless, In, Chain, Increasing, SizesOk, Below, BlocksOk, Live;
    ChainHead(fl, next);
    AboveBase(blocks, pl.bp);
    Retag(blocks, core, pl.bp, true);
    RetagRest(size, blocks, brk, pl.bp, true);
    Released(fl, blocks, pl.bp, pl.t);
    ChainNext(fl, next, pl.t);
  }

  /** Sizes in memory are the sizes of the blocks, also at base. */
  lemma PlaceSizes(size: map<nat, nat>, brk: nat, core: set<nat>, pl: Place, live: map<nat, nat>)
    requires PlaceOk(size, brk, core, pl, live)
    ensures pl.t < |pl.fl| && pl.bp in pl.blocks && pl.bp in size && size[pl.bp] == pl.blocks[pl.bp].size
    ensures pl.fl[pl.t] in size && pl.fl[pl.t] != pl.bp && pl.bp > BASE
    ensures if pl.t == 0 then pl.fl[pl.t] == BASE && size[BASE] == 0
            else pl.fl[pl.t] in pl.blocks && size[pl.fl[pl.t]] == pl.blocks[pl.fl[pl.t]].size
  {
    hide Tiles, Separated, In;
  }

  lemma UpLinks(fl: seq<nat>, next: map<nat, nat>, t: nat)
    requires Chain(fl, next) && Increasing(fl) && t + 1 < |fl|
    ensures fl[t + 1] in next && fl[t + 1] != fl[t]
    ensures var fl', next' := Remove(fl, t + 1), next[fl[t] := next[fl[t + 1]]];
            Chain(fl', next') && t < |fl'| && fl'[t] == fl[t] && After(fl', t) == next[fl[t + 1]]
  {
    ChainRemove(fl, next, t);
    RemoveAt(fl, t + 1, t);
    hide Remove;
    ChainNext(Remove(fl, t + 1), next[fl[t] := next[fl[t + 1]]], t);
  }

  lemma UpFacts(size: map<nat, nat>, brk: nat, core: set<nat>, pl: Place, live: map<nat, nat>)
    requires PlaceOk(size, brk, core, pl, live) && pl.t < |pl.fl| && pl.bp in size
    requires pl.bp + size[pl.bp] == After(pl.fl, pl.t)
    ensures pl.t + 1 < |pl.fl| && pl.fl[pl.t + 1] == pl.bp + pl.blocks[pl.bp].size && Increasing(pl.fl)
    ensures pl.fl[pl.t + 1] in pl.blocks && pl.blocks[pl.fl[pl.t + 1]].free && pl.blocks[pl.bp].free
    ensures pl.fl[pl.t + 1] in size && pl.fl[pl.t + 1] in pl.next && pl.fl[pl.t + 1] != pl.bp
  {
    hide Tiles, Separated, In, Live;
  }

  lemma MergeSizes(size: map<nat, nat>, blocks: map<nat, Block>, brk: nat, a: nat, b: nat)
    requires SizesOk(size, blocks) && BlocksOk(blocks) && Below(blocks, brk) && a in blocks && b in blocks
             && a + blocks[a].size == b
    requires blocks[a].free && blocks[b].free
    ensures a in size && b in size && SizesOk(size[a := size[a] + size[b]], Merged(blocks, a, b))
    ensures Below(Merged(blocks, a, b), brk) && Live(Merged(blocks, a, b)) == Live(blocks)
  {
  }

  lemma FreeUp(size: map<nat, nat>, brk: nat, core: set<nat>, pl: Place, live: map<nat, nat>)
    requires PlaceOk(size, brk, core, pl, live) && pl.t < |pl.fl| && pl.bp in size
    requires pl.bp + size[pl.bp] == After(pl.fl, pl.t)
    ensures pl.t + 1 < |pl.fl| && pl.bp in pl.blocks && pl.fl[pl.t + 1] in pl.blocks
    ensures pl.fl[pl.t + 1] in pl.next && pl.fl[pl.t + 1] in size && pl.fl[pl.t + 1] != pl.bp
            && pl.fl[pl.t + 1] != pl.fl[pl.t]
    ensures PlaceOk(size[pl.bp := size[pl.bp] + size[pl.fl[pl.t + 1]]], brk, core, PlaceUp(pl), live)
    ensures Gap(PlaceUp(pl).fl, PlaceUp(pl).blocks, pl.bp, pl.t)
    ensures pl.t < |PlaceUp(pl).fl| && PlaceUp(pl).fl[pl.t] == pl.fl[pl.t]
            && After(PlaceUp(pl).fl, pl.t) == pl.next[pl.fl[pl.t + 1]]
  {
    hide Tiles, BlocksOk, Homeless, Gap, Merged, Remove, Chain, SizesOk, Below, Live;
    PlaceSizes(size, brk, core, pl, live);
    UpFacts(size, brk, core, pl, live);
    var q := pl.fl[pl.t + 1];
    MergeUp(pl.fl, pl.blocks, pl.bp, pl.t);
    Merge(pl.blocks, core, pl.bp, q);
    MergeSizes(size, pl.blocks, brk, pl.bp, q);
    UpLinks(pl.fl, pl.next, pl.t);
  }

  lemma FreeNoUp(size: map<nat, nat>, brk: nat, core: set<nat>, pl: Place, live: map<nat, nat>)
    requires PlaceOk(size, brk, core, pl, live) && pl.t < |pl.fl| && pl.bp in size
    requires pl.bp + size[pl.bp] != After(pl.fl, pl.t)
    ensures pl.bp in pl.blocks && Gap(pl.fl, pl.blocks, pl.bp, pl.t)
  {
    PlaceSizes(size, brk, core, pl, live);
    hide Tiles, Separated, In, Live;
    NoMergeUp(pl.fl, pl.blocks, pl.bp, pl.t);
  }

  lemma DownFacts(size: map<nat, nat>, brk: nat, core: set<nat>, pl: Place, live: map<nat, nat>)
    requires PlaceOk(size, brk, core, pl, live) && pl.t < |pl.fl|
    ensures Increasing(pl.fl) && pl.bp !in pl.fl && pl.fl[pl.t] in pl.fl && pl.blocks[pl.bp].free && pl.fl[pl.t] != NULL
    ensures pl.t >= 1 ==> pl.blocks[pl.fl[pl.t]].free
  {
    hide Tiles, Separated, In, Live;
  }

  lemma FreeDown(size: map<nat, nat>, brk: nat, core: set<nat>, pl: Place, live: map<nat, nat>)
    requires PlaceOk(size, brk, core, pl, live) && pl.bp in pl.blocks && Gap(pl.fl, pl.blocks, pl.bp, pl.t)
    requires pl.t < |pl.fl| && pl.fl[pl.t] in size && pl.bp in size && pl.fl[pl.t] + size[pl.fl[pl.t]] == pl.bp
    ensures var p, x := pl.fl[pl.t], After(pl.fl, pl.t);
            && p in pl.blocks && Live(Merged(pl.blocks, p, pl.bp)) == live && p != NULL
            && HeapOk(pl.next[pl.bp := x][p := x], size[p := size[p] + size[pl.bp]], p, brk,
                      Merged(pl.blocks, p, pl.bp), core, pl.fl)
  {
    hide Tiles, BlocksOk, Homeless, Gap, Merged, Separated, Chain, SizesOk, Live, Listed, Below, Increasing;
    PlaceSizes(size, brk, core, pl, live);
    DownFacts(size, brk, core, pl, live);
    var p, x := pl.fl[pl.t], After(pl.fl, pl.t);
    MergeDown(pl.fl, pl.blocks, pl.bp, pl.t);
    Merge(pl.blocks, core, p, pl.bp);
    MergeSizes(size, pl.blocks, brk, p, pl.bp);
    ChainFrame(pl.fl, pl.next, pl.bp, x);
    ChainNext(pl.fl, pl.next, pl.t);
    assert pl.next[pl.bp := x][p := x] == pl.next[pl.bp := x];
  }

  lemma InFacts(fl: seq<nat>, blocks: map<nat, Block>, bp: nat, t: nat)
    requires Homeless(fl, blocks, bp, t)
    ensures fl[t] < bp && (t + 1 < |fl| ==> bp < fl[t + 1]) && fl[t] in Insert(fl, t + 1, bp)
  {
    hide Separated, In;
    assert Insert(fl, t + 1, bp)[t] == fl[t];
  }

  lemma FreeIn(size: map<nat, nat>, brk: nat, core: set<nat>, pl: Place, live: map<nat, nat>)
    requires PlaceOk(size, brk, core, pl, live) && pl.bp in pl.blocks && Gap(pl.fl, pl.blocks, pl.bp, pl.t)
    requires pl.t < |pl.fl| && pl.fl[pl.t] in size && pl.bp in size && pl.fl[pl.t] + size[pl.fl[pl.t]] != pl.bp
    ensures var p, x := pl.fl[pl.t], After(pl.fl, pl.t);
            && Live(pl.blocks) == live && p != NULL
            && HeapOk(pl.next[pl.bp := x][p := pl.bp], size, p, brk, pl.blocks, core, Insert(pl.fl, pl.t + 1, pl.bp))
  {
    hide Tiles, BlocksOk, Homeless, Gap, Separated, In, Chain, SizesOk, Live, Listed, Insert, Below, Increasing;
    PlaceSizes(size, brk, core, pl, live);
    DownFacts(size, brk, core, pl, live);
    InFacts(pl.fl, pl.blocks, pl.bp, pl.t);
    Placed(pl.fl, pl.blocks, pl.bp, pl.t);
    ChainInsert(pl.fl, pl.next, pl.t, pl.bp);
  }

  // ---- malloc

  lemma AboveAll(next: map<nat, nat>, size: map<nat, nat>, freep: nat, brk: nat, blocks: map<nat, Block>,
                 core: set<nat>, fl: seq<nat>)
    requires HeapOk(next, size, freep, brk, blocks, core, fl)
    ensures brk > BASE
  {
  }

  lemma FirstUse(next: map<nat, nat>, size: map<nat, nat>, brk: nat)
    requires brk > BASE
    ensures HeapOk(next[BASE := BASE], size[BASE := 0], BASE, brk, map[], {}, [BASE])
  {
    var none: map<nat, Block> := map[];
    assert forall a: nat, u: nat :: !Covers(none, a, u);
  }

  /** A field of the header at u is the same, or there is none. */
  ghost predicate Same(m: map<nat, nat>, m': map<nat, nat>, u: nat) {
    (u in m <==> u in m') && (u in m ==> m'[u] == m[u])
  }

  /** No header inside the given blocks was written, their own included. */
  ghost predicate Kept(next: map<nat, nat>, size: map<nat, nat>, next': map<nat, nat>, size': map<nat, nat>,
                       live: map<nat, nat>) {
    forall a: nat, u: nat :: a in live && Within(a, u, live[a]) ==> Same(next, next', u) && Same(size, size', u)
  }

  lemma NoneLive(next: map<nat, nat>, size: map<nat, nat>, next': map<nat, nat>, size': map<nat, nat>, blocks: map<nat,
                 Block>)
    requires blocks == map[]
    ensures Kept(next, size, next', size', Live(blocks))
  {
  }

  /** Where freep is on the list. */
  lemma Index(next: map<nat, nat>, size: map<nat, nat>, freep: nat, brk: nat, blocks: map<nat, Block>, core: set<nat>,
              fl: seq<nat>)
    returns (f: nat)
    requires HeapOk(next, size, freep, brk, blocks, core, fl)
    ensures f < |fl| && fl[f] == freep
  {
    f :| 0 <= f < |fl| && fl[f] == freep;
  }

  lemma NextOf(next: map<nat, nat>, size: map<nat, nat>, freep: nat, brk: nat, blocks: map<nat, Block>, core: set<nat>,
               fl: seq<nat>,
               k: nat)
    requires HeapOk(next, size, freep, brk, blocks, core, fl) && k < |fl|
    ensures fl[k] in next && next[fl[k]] == fl[Succ(k, |fl|)] && fl[k] in size && fl[Succ(k, |fl|)] in size
            && fl[k] != NULL
    ensures freep in size && fl[0] == BASE
    ensures forall i, j :: 0 <= i < j < |fl| ==> fl[i] != fl[j]
  {
    ChainNext(fl, next, k);
    hide Tiles, Separated, Chain;
    ChainHead(fl, next);
    assert forall i :: 1 <= i < |fl| ==> fl[i] in size;
  }

  lemma OneCloser(size: map<nat, nat>, fl: seq<nat>, f: nat, k: nat, n: nat)
    requires f < |fl| && k < |fl| && fl[Succ(k, |fl|)] != fl[f]
    requires fl[Succ(k, |fl|)] in size && size[fl[Succ(k, |fl|)]] < n
    ensures var m := Succ(k, |fl|);
            && Dist(Succ(m, |fl|), f, |fl|) < Dist(m, f, |fl|)
            && (Tried(fl, size, f, m, n) ==> Tried(fl, size, f, Succ(m, |fl|), n))
  {
    var m := Succ(k, |fl|);
    assert Dist(Succ(m, |fl|), f, |fl|) == Dist(m, f, |fl|) - 1;
    forall i: nat | i < |fl| && Dist(i, f, |fl|) == Dist(m, f, |fl|) ensures i == m { }
  }

  lemma AllTried(next: map<nat, nat>, size: map<nat, nat>, freep: nat, brk: nat, blocks: map<nat, Block>,
                 core: set<nat>, fl: seq<nat>,
                 f: nat, m: nat, n: nat)
    requires HeapOk(next, size, freep, brk, blocks, core, fl) && f < |fl| && fl[f] == freep && m < |fl|
             && fl[m] == freep
    requires Tried(fl, size, f, m, n) && freep in size && size[freep] < n
    ensures AllSmaller(blocks, n)
  {
    hide Tiles, Separated, Chain;
    assert m == f;
    forall a: nat | a in blocks && blocks[a].free ensures blocks[a].size < n {
      assert In(fl, a);
      var i :| 0 <= i < |fl| && fl[i] == a;
      if i != f { assert Dist(i, f, |fl|) > Dist(m, f, |fl|); }
    }
  }

  lemma NotBase(next: map<nat, nat>, size: map<nat, nat>, freep: nat, brk: nat, blocks: map<nat, Block>, core: set<nat>,
                fl: seq<nat>,
                k: nat, n: nat)
    requires HeapOk(next, size, freep, brk, blocks, core, fl) && k < |fl|
    requires fl[Succ(k, |fl|)] in size && size[fl[Succ(k, |fl|)]] >= n >= 1
    ensures Succ(k, |fl|) == k + 1 < |fl| && fl[k + 1] in blocks && blocks[fl[k + 1]].free
            && size[fl[k + 1]] == blocks[fl[k + 1]].size
  {
    hide Tiles, Separated, In;
    ChainHead(fl, next);
  }

  lemma SomeFits(next: map<nat, nat>, size: map<nat, nat>, freep: nat, brk: nat, blocks: map<nat, Block>,
                 core: set<nat>,
                 fl: seq<nat>, k: nat, n: nat)
    requires HeapOk(next, size, freep, brk, blocks, core, fl) && k < |fl|
    requires fl[Succ(k, |fl|)] in size && size[fl[Succ(k, |fl|)]] >= n >= 1
    ensures !AllSmaller(blocks, n)
  {
    hide HeapOk;
    NotBase(next, size, freep, brk, blocks, core, fl, k, n);
  }

  lemma WholePair(fl: seq<nat>, blocks: map<nat, Block>, k: nat, i: nat, j: nat)
    requires Separated(fl, blocks) && k + 1 < |fl| && fl[k + 1] in blocks && 1 <= i < j < |fl| - 1
    ensures var fl', blocks' := Remove(fl, k + 1), blocks[fl[k + 1] := blocks[fl[k + 1]].(free := false)];
            |fl'| == |fl| - 1 && fl'[i] in blocks' && fl'[i] + blocks'[fl'[i]].size < fl'[j]
  {
    RemoveAt(fl, k + 1, i);
    RemoveAt(fl, k + 1, j);
    hide Remove;
  }

  lemma WholeListed(fl: seq<nat>, blocks: map<nat, Block>, k: nat)
    requires Listed(fl, blocks) && Separated(fl, blocks) && Increasing(fl) && k + 1 < |fl| && fl[k + 1] in blocks
    ensures var blocks' := blocks[fl[k + 1] := blocks[fl[k + 1]].(free := false)];
            Listed(Remove(fl, k + 1), blocks') && Separated(Remove(fl, k + 1), blocks')
  {
    var p := fl[k + 1];
    var fl', blocks' := Remove(fl, k + 1), blocks[p := blocks[p].(free := false)];
    RemoveAt(fl, k + 1, k);
    hide Remove, In;
    forall i, j | 1 <= i < j < |fl'| ensures fl'[i] in blocks' && fl'[i] + blocks'[fl'[i]].size < fl'[j] {
      hide Listed;
      WholePair(fl, blocks, k, i, j);
    }
    assert Separated(fl', blocks');
    hide Separated;
    forall i | 1 <= i < |fl'| ensures fl'[i] in blocks' && blocks'[fl'[i]].free { RemoveAt(fl, k + 1, i); }
    forall a: nat | a in blocks' && blocks'[a].free ensures In(fl', a) { InRemove(fl, k + 1, a); }
  }

  /** The whole block after position k is handed out. */
  lemma TakeWhole(next: map<nat, nat>, size: map<nat, nat>, freep: nat, brk: nat, blocks: map<nat, Block>,
                  core: set<nat>, fl: seq<nat>,
                  k: nat)
    requires HeapOk(next, size, freep, brk, blocks, core, fl) && k + 1 < |fl| && fl[k + 1] in blocks
             && blocks[fl[k + 1]].free
    ensures fl[k] in next && fl[k + 1] in next
    ensures var p := fl[k + 1]; var blocks' := blocks[p := blocks[p].(free := false)];
            && HeapOk(next[fl[k] := next[p]], size, fl[k], brk, blocks', core, Remove(fl, k + 1))
            && p !in Live(blocks) && Live(blocks') == Live(blocks)[p := blocks[p].size]
  {
    hide Tiles, Separated, In, BlocksOk, SizesOk, Below, Listed, Remove;
    var p := fl[k + 1];
    ChainRemove(fl, next, k);
    Retag(blocks, core, p, false);
    RetagRest(size, blocks, brk, p, false);
    WholeListed(fl, blocks, k);
    RemoveAt(fl, k + 1, k);
  }

  lemma PartRest(size: map<nat, nat>, blocks: map<nat, Block>, brk: nat, p: nat, n: nat)
    requires SizesOk(size, blocks) && Below(blocks, brk) && BlocksOk(blocks) && p in blocks && blocks[p].free
             && 1 <= n < blocks[p].size
    requires p + blocks[p].size - n !in blocks
    ensures var q := p + blocks[p].size - n;
            && SizesOk(size[p := blocks[p].size - n][q := n], Split(blocks, p, n)) && Below(Split(blocks, p, n), brk)
            && q !in Live(blocks) && Live(Split(blocks, p, n)) == Live(blocks)[q := n]
  {
  }

  lemma PartListed(fl: seq<nat>, blocks: map<nat, Block>, p: nat, n: nat)
    requires Listed(fl, blocks) && Separated(fl, blocks) && p in blocks && blocks[p].free && n < blocks[p].size
    requires p + blocks[p].size - n !in blocks
    ensures Listed(fl, Split(blocks, p, n)) && Separated(fl, Split(blocks, p, n))
  {
    hide In;
  }

  /** The end of the block after position k is handed out. */
  lemma TakePart(next: map<nat, nat>, size: map<nat, nat>, freep: nat, brk: nat, blocks: map<nat, Block>,
                 core: set<nat>, fl: seq<nat>,
                 k: nat, n: nat)
    requires HeapOk(next, size, freep, brk, blocks, core, fl) && k + 1 < |fl| && fl[k + 1] in blocks
             && blocks[fl[k + 1]].free
    requires 1 <= n < blocks[fl[k + 1]].size
    ensures var p := fl[k + 1]; var q := p + blocks[p].size - n;
            && HeapOk(next, size[p := blocks[p].size - n][q := n], fl[k], brk, Split(blocks, p, n), core, fl)
            && q !in Live(blocks) && Live(Split(blocks, p, n)) == Live(blocks)[q := n]
  {
    hide Tiles, In, Chain, Separated, Listed, Increasing;
    var p := fl[k + 1];
    SplitOk(blocks, core, p, n);
    PartRest(size, blocks, brk, p, n);
    PartListed(fl, blocks, p, n);
  }

  // ---- conservation

  ghost predicate CoveredBy(blocks: map<nat, Block>, u: nat, free: bool) {
    exists a: nat :: Covers(blocks, a, u) && blocks[a].free == free
  }

  /** The units of the free blocks, or of the blocks handed out. */
  ghost function UnitsOf(blocks: map<nat, Block>, core: set<nat>, free: bool): (s: set<nat>) {
    set u | u in core && CoveredBy(blocks, u, free)
  }

  lemma OneBlock(blocks: map<nat, Block>, a: nat, b: nat, u: nat)
    requires BlocksOk(blocks) && Covers(blocks, a, u) && Covers(blocks, b, u)
    ensures a == b
  {
  }

  /** No unit is lost or shared: those obtained from sbrk are the free ones and the live ones. */
  lemma Conservation(next: map<nat, nat>, size: map<nat, nat>, freep: nat, brk: nat, blocks: map<nat, Block>,
                     core: set<nat>, fl: seq<nat>)
    requires HeapOk(next, size, freep, brk, blocks, core, fl)
    ensures UnitsOf(blocks, core, true) !! UnitsOf(blocks, core, false)
    ensures core == UnitsOf(blocks, core, true) + UnitsOf(blocks, core, false)
    ensures |core| == |UnitsOf(blocks, core, true)| + |UnitsOf(blocks, core, false)|
    ensures forall a: nat, u: nat :: Covers(blocks, a, u) ==> u in UnitsOf(blocks, core, blocks[a].free)
  {
    hide Chain, Listed, Separated, SizesOk, Increasing, Below;
    var f, l := UnitsOf(blocks, core, true), UnitsOf(blocks, core, false);
    forall u: nat ensures !(u in f && u in l) {
      if u in f && u in l {
        var a: nat :| Covers(blocks, a, u) && blocks[a].free;
        var b: nat :| Covers(blocks, b, u) && !blocks[b].free;
        OneBlock(blocks, a, b, u);
      }
    }
    forall u | u in core ensures u in f || u in l {
      var a: nat :| Covers(blocks, a, u);
      assert CoveredBy(blocks, u, blocks[a].free);
    }
    assert core == f + l;
    forall a: nat, u: nat | Covers(blocks, a, u) ensures u in UnitsOf(blocks, core, blocks[a].free) {
      assert CoveredBy(blocks, u, blocks[a].free);
    }
  }

  // ---- which headers are written

  /** u is in none of the given blocks. */
  ghost predicate Outside(live: map<nat, nat>, u: nat) { forall a: nat :: a in live ==> !Within(a, u, live[a]) }

  lemma KeptSelf(next: map<nat, nat>, size: map<nat, nat>, live: map<nat, nat>)
    ensures Kept(next, size, next, size, live)
  {
  }

  lemma KeptTrans(next: map<nat, nat>, size: map<nat, nat>, next1: map<nat, nat>, size1: map<nat, nat>,
                  next2: map<nat, nat>, size2: map<nat, nat>, live: map<nat, nat>)
    requires Kept(next, size, next1, size1, live) && Kept(next1, size1, next2, size2, live)
    ensures Kept(next, size, next2, size2, live)
  {
    hide Within;
    forall a: nat, u: nat | a in live && Within(a, u, live[a]) ensures Same(next, next2, u) && Same(size, size2, u) {
      assert Same(next, next1, u) && Same(next1, next2, u) && Same(size, size1, u) && Same(size1, size2, u);
    }
  }

  /** Writes to three headers outside the blocks. */
  lemma KeptWrites(next: map<nat, nat>, size: map<nat, nat>, next': map<nat, nat>, size': map<nat, nat>, live: map<nat,
                   nat>,
                   x: nat, y: nat, z: nat)
    requires Outside(live, x) && Outside(live, y) && Outside(live, z)
    requires forall u: nat :: u != x && u != y && u != z ==> Same(next, next', u) && Same(size, size', u)
    ensures Kept(next, size, next', size', live)
  {
    hide Within, Same;
  }

  /** A write to one header outside the blocks. */
  lemma KeptWrite(next: map<nat, nat>, size: map<nat, nat>, next': map<nat, nat>, size': map<nat, nat>, live: map<nat,
                  nat>, a: nat)
    requires Outside(live, a) && a in next' && next' == next[a := next'[a]]
    requires size' == size || (a in size' && size' == size[a := size'[a]])
    ensures Kept(next, size, next', size', live)
  {
    hide Outside, Kept;
    KeptWrites(next, size, next', size', live, a, a, a);
  }

  /** A free block lies outside the live ones, and so does base. */
  lemma FreeOutside(blocks: map<nat, Block>, a: nat, u: nat)
    requires BlocksOk(blocks) && a in blocks && blocks[a].free && Within(a, u, blocks[a].size)
    ensures Outside(Live(blocks), u)
  {
    forall b: nat | b in Live(blocks) ensures !Within(b, u, Live(blocks)[b]) {
      assert b != a && b in blocks;
    }
  }

  lemma ListOutside(fl: seq<nat>, blocks: map<nat, Block>, i: nat)
    requires BlocksOk(blocks) && Listed(fl, blocks) && i < |fl| && fl[0] == BASE
    ensures Outside(Live(blocks), fl[i])
  {
    hide In;
    if i == 0 {
      assert forall b: nat :: b in blocks ==> b > BASE;
    } else {
      AboveBase(blocks, fl[i]);
      FreeOutside(blocks, fl[i], fl[i]);
    }
  }

  /** The other live blocks do not reach into this one. */
  lemma OwnOutside(blocks: map<nat, Block>, a: nat)
    requires BlocksOk(blocks) && a in blocks
    ensures Outside(Live(blocks) - {a}, a)
  {
    forall b: nat | b in Live(blocks) - {a} ensures !Within(b, a, (Live(blocks) - {a})[b]) {
      assert b in blocks && a in blocks && b != a;
    }
  }

  lemma EndOutside(blocks: map<nat, Block>, brk: nat)
    requires Below(blocks, brk)
    ensures Outside(Live(blocks), brk)
  {
  }

  lemma FewerOutside(live: map<nat, nat>, a: nat, u: nat)
    requires Outside(live, u)
    ensures Outside(live - {a}, u)
  {
  }

  lemma FreeFrame(next: map<nat, nat>, size: map<nat, nat>, freep: nat, brk: nat, blocks: map<nat, Block>,
                  core: set<nat>,
                  fl: seq<nat>, bp: nat, t: nat)
    requires HeapOk(next, size, freep, brk, blocks, core, fl) && bp in blocks && t < |fl|
    ensures Outside(Live(blocks) - {bp}, bp) && Outside(Live(blocks) - {bp}, fl[t])
  {
    hide Tiles, SizesOk, Increasing, Listed, Separated, Below, BlocksOk, Outside, Live;
    ListOutside(fl, blocks, t);
    FewerOutside(Live(blocks), bp, fl[t]);
    OwnOutside(blocks, bp);
  }

  lemma TakeFrame(next: map<nat, nat>, size: map<nat, nat>, freep: nat, brk: nat, blocks: map<nat, Block>,
                  core: set<nat>,
                  fl: seq<nat>, k: nat, n: nat)
    requires HeapOk(next, size, freep, brk, blocks, core, fl) && k + 1 < |fl| && fl[k + 1] in blocks
             && blocks[fl[k + 1]].free
    requires 1 <= n <= blocks[fl[k + 1]].size
    ensures Outside(Live(blocks), fl[k]) && Outside(Live(blocks), fl[k + 1])
    ensures Outside(Live(blocks), fl[k + 1] + blocks[fl[k + 1]].size - n)
  {
    ChainHead(fl, next);
    hide Tiles, SizesOk, Increasing, Listed, Separated, Below, BlocksOk, Outside, Live, Chain;
    ListOutside(fl, blocks, k);
    ListOutside(fl, blocks, k + 1);
    FreeOutside(blocks, fl[k + 1], fl[k + 1] + blocks[fl[k + 1]].size - n);
  }

  lemma CoreFrame(next: map<nat, nat>, size: map<nat, nat>, freep: nat, brk: nat, blocks: map<nat, Block>,
                  core: set<nat>,
                  fl: seq<nat>, n: nat)
    requires HeapOk(next, size, freep, brk, blocks, core, fl)
    ensures Kept(next, size, next, size[brk := n], Live(blocks))
  {
    EndOutside(blocks, brk);
    hide HeapOk, Outside, Kept, Live;
    KeptWrites(next, size, next, size[brk := n], Live(blocks), brk, brk, brk);
  }

  // ---- the argument of sbrk

  /** A size_t passed as an int. */
  function ToInt(x: nat): (n: int) {
    var m := x % 0x1_0000_0000;
    if m < 0x8000_0000 then m else m - 0x1_0000_0000
  }

  function CoreUnits(nunits: nat): (n: nat) { if nunits < MIN_CORE then MIN_CORE else nunits }

  /** morecore asks sbrk for as much as it then puts on the list exactly for the requests below the
      bound. Above it the product is cut to an int; for 0xffff_fff0 bytes sbrk is asked for nothing,
      and 2^28 units go on the list. */
  lemma SbrkExact(nbytes: nat)
    requires nbytes < 0x1_0000_0000
    ensures ToInt(CoreUnits(Units(nbytes)) * 16) == CoreUnits(Units(nbytes)) * 16 <==> nbytes <= 0x7fff_ffe0
    ensures nbytes == 0xffff_fff0 ==> Units(nbytes) == 0x1000_0000 && ToInt(CoreUnits(Units(nbytes)) * 16) == 0
  {
    var q, r := (nbytes + 15) / 16, (nbytes + 15) % 16;
    assert nbytes + 15 == 16 * q + r;
  }

  // ---- the heap

  class Heap {
    var next: map<nat, nat>       // s.ptr of each header
    var size: map<nat, nat>       // s.size of each header
    var freep: nat
    var brk: nat                  // the end of the process's memory
    var limit: nat                // where sbrk starts to fail

    ghost var blocks: map<nat, Block>
    ghost var core: set<nat>      // the units obtained from sbrk
    ghost var fl: seq<nat>        // the free list from base on

    ghost predicate Valid()
      reads this
    {
      if freep == NULL then blocks == map[] && core == {} && fl == [] && brk > BASE
      else HeapOk(next, size, freep, brk, blocks, core, fl)
    }

    constructor (end: nat, max: nat)
      requires end > BASE
      ensures Valid() && freep == NULL
    {
      next, size, freep, brk, limit := map[], map[], NULL, end, max;
      blocks, core, fl := map[], {}, [];
    }

    /** The search of free: the list position after which bp belongs. */
    method FindPlace(bp: nat) returns (p: nat, ghost t: nat)
      requires Valid() && freep != NULL && bp in blocks && !blocks[bp].free
      ensures t < |fl| && p == fl[t] && fl[t] < bp && (t + 1 < |fl| ==> bp < fl[t + 1])
      ensures p in next && p < bp && (next[p] != BASE ==> bp < next[p])
    {
      hide Tiles, SizesOk, Separated;
      t := PlaceOf(fl, bp);
      NotListed(fl, blocks, bp);
      ghost var k :| 0 <= k < |fl| && fl[k] == freep;
      p := freep;
      while !(bp > p && bp < next[p])
        invariant 0 <= k < |fl| && p == fl[k]
        decreases Dist(k, t, |fl|)
      {
        ChainNext(fl, next, k);
        if p >= next[p] && (bp > p || bp < next[p]) { break; }
        assert k != t;
        p := next[p];
        k := if k + 1 < |fl| then k + 1 else 0;
      }
      ChainNext(fl, next, k);
      assert k == t;
    }

    /** free: the block goes on the list, joined with the free blocks it touches. */
    method Free(ap: nat)
      requires Valid() && freep != NULL && ap >= 1 && ap - 1 in blocks && !blocks[ap - 1].free
      modifies `next, `size, `freep, `blocks, `fl
      ensures Valid() && freep != NULL && Live(blocks) == Live(old(blocks)) - {ap - 1}
      ensures Fits(next, size, freep, old(blocks)[ap - 1].size)
      ensures Kept(old(next), old(size), next, size, Live(old(blocks)) - {ap - 1})
    {
      hide HeapOk, PlaceOk, Gap, Merged, Remove, Insert, Outside, Kept, Live;
      var bp := ap - 1;
      var p;
      ghost var t;
      p, t := FindPlace(bp);
      ghost var live := Live(blocks) - {bp};
      ghost var place := Place(bp, t, fl, next, blocks[bp := blocks[bp].(free := true)]);
      FreeStart(next, size, freep, brk, blocks, core, fl, place);
      FreeFrame(next, size, freep, brk, blocks, core, fl, bp, t);
      var succ := next[p];
      if bp + size[bp] == succ {
        FreeUp(size, brk, core, place, live);
        place := PlaceUp(place);
        size := size[bp := size[bp] + size[succ]];
        next := next[bp := next[succ]];
      } else {
        FreeNoUp(size, brk, core, place, live);
        next := next[bp := succ];
      }
      KeptWrite(old(next), old(size), next, size, live, bp);
      ghost var next1, size1 := next, size;
      PlaceSizes(size, brk, core, place, live);
      ghost var x := After(place.fl, t);
      assert size[bp] >= old(blocks)[bp].size;
      if p + size[p] == bp {
        FreeDown(size, brk, core, place, live);
        assert next[p := next[bp]] == place.next[bp := x][p := x];
        size := size[p := size[p] + size[bp]];
        next := next[p := next[bp]];
        blocks := Merged(place.blocks, p, bp);
        fl := place.fl;
      } else {
        FreeIn(size, brk, core, place, live);
        assert next[p := bp] == place.next[bp := x][p := bp];
        next := next[p := bp];
        blocks := place.blocks;
        fl := Insert(place.fl, t + 1, bp);
      }
      KeptWrite(next1, size1, next, size, live, p);
      KeptTrans(old(next), old(size), next1, size1, next, size, live);
      freep := p;
    }

    /** sbrk by a number of bytes that makes whole units: the old end of memory, or NULL when there is
        no more. */
    method Sbrk(bytes: nat) returns (p: nat)
      requires brk > BASE && bytes % 16 == 0
      modifies `brk
      ensures p == NULL <==> old(brk) + bytes / 16 > limit
      ensures p == NULL ==> brk == old(brk)
      ensures p != NULL ==> p == old(brk) && brk == old(brk) + bytes / 16
    {
      if brk + bytes / 16 > limit { return NULL; }
      p := brk;
      brk := brk + bytes / 16;
    }

    /** morecore: fresh memory, freed onto the list; the list then has a block of nu units at freep or
        right after it. */
    method Morecore(nu: nat) returns (p: nat)
      requires Valid() && freep != NULL && ToInt(CoreUnits(nu) * 16) == CoreUnits(nu) * 16
      modifies `next, `size, `freep, `brk, `blocks, `core, `fl
      ensures Valid() && freep != NULL && Live(blocks) == Live(old(blocks))
      ensures Kept(old(next), old(size), next, size, Live(old(blocks)))
      ensures p == NULL ==> fl == old(fl) && blocks == old(blocks) && core == old(core) && size == old(size)
      ensures p == NULL <==> old(brk) + CoreUnits(nu) > limit
      ensures p != NULL ==> p == freep && Fits(next, size, freep, nu)
      ensures p != NULL ==> core == old(core) + Range(old(brk), CoreUnits(nu))
    {
      hide HeapOk, Live, Range, Kept;
      var n := nu;
      if n < MIN_CORE { n := MIN_CORE; }
      AboveAll(next, size, freep, brk, blocks, core, fl);
      KeptSelf(next, size, Live(blocks));
      p := Sbrk(ToInt(n * 16));
      if p == NULL { return; }
      CoreFrame(next, size, freep, old(brk), blocks, core, fl, n);
      CoreAdded(next, size, freep, old(brk), blocks, core, fl, n);
      size := size[p := n];
      blocks := blocks[p := Block(n, false)];
      core := core + Range(p, n);
      ghost var size1 := size;
      Free(p + 1);
      KeptTrans(old(next), old(size), old(next), size1, next, size, Live(old(blocks)));
      p := freep;
    }

    /** The beginning of malloc: an empty list at its first call. */
    method Prepare()
      requires Valid()
      modifies `next, `size, `freep, `fl
      ensures Valid() && freep != NULL && Kept(old(next), old(size), next, size, Live(blocks))
      ensures old(freep) != NULL ==> next == old(next) && size == old(size) && freep == old(freep) && fl == old(fl)
    {
      hide HeapOk, Live, Kept;
      KeptSelf(next, size, Live(blocks));
      if freep == NULL {
        FirstUse(next, size, brk);
        NoneLive(next, size, next[BASE := BASE], size[BASE := 0], blocks);
        next := next[BASE := BASE];
        freep := BASE;
        size := size[BASE := 0];
        fl := [BASE];
      }
    }

    /** malloc: a block of enough units that was free, or NULL when no free block is large enough and
        sbrk has failed. cut says that sbrk would be asked for less than morecore then puts on the list;
        that happens exactly for requests above the bound that no free block meets, and there the
        model stops. */
    method Malloc(nbytes: nat) returns (r: nat, cut: bool)
      requires Valid() && nbytes < 0x1_0000_0000
      modifies `next, `size, `freep, `brk, `blocks, `core, `fl
      ensures Valid() && freep != NULL
      ensures cut <==> nbytes > 0x7fff_ffe0 && AllSmaller(old(blocks), Units(nbytes))
      ensures cut ==> r == NULL
      ensures r == NULL <==>
                AllSmaller(old(blocks), Units(nbytes)) && (cut || old(brk) + CoreUnits(Units(nbytes)) > limit)
      ensures r == NULL ==> Live(blocks) == Live(old(blocks)) && core == old(core)
      ensures r == NULL ==> AllSmaller(blocks, Units(nbytes))
      ensures r != NULL ==> r >= 1 && r - 1 !in Live(old(blocks))
      ensures r != NULL ==> Live(blocks) == Live(old(blocks))[r - 1 := Units(nbytes)]
      ensures old(core) <= core && nbytes <= (Units(nbytes) - 1) * 16 < nbytes + 16
      ensures Kept(old(next), old(size), next, size, Live(old(blocks)))
    {
      hide HeapOk, Live, Dist, Range, Kept, AllSmaller, ToInt, Tried;
      SbrkExact(nbytes);
      cut := false;
      var nunits := (nbytes + 16 - 1) / 16 + 1;
      Prepare();
      var prevp := freep;
      ghost var f := Index(next, size, freep, brk, blocks, core, fl);
      ghost var k := f;
      ghost var grown := false;
      ghost var live := Live(blocks);
      NextOf(next, size, freep, brk, blocks, core, fl, k);
      var p := next[prevp];
      NoneYet(fl, size, f, nunits);
      while true
        invariant HeapOk(next, size, freep, brk, blocks, core, fl) && freep != NULL && Live(blocks) == live
        invariant old(core) <= core && (!grown ==> core == old(core))
        invariant Kept(old(next), old(size), next, size, live)
        invariant !grown ==> blocks == old(blocks) && brk == old(brk)
        invariant grown ==> nbytes <= 0x7fff_ffe0 && old(brk) + CoreUnits(nunits) <= limit
        invariant 0 <= f < |fl| && fl[f] == freep && 0 <= k < |fl| && fl[k] == prevp && p == fl[Succ(k, |fl|)]
                  && freep in size && p in size
        invariant !grown ==> Tried(fl, size, f, Succ(k, |fl|), nunits)
        invariant grown ==> size[freep] >= nunits || size[p] >= nunits
        decreases !grown, Dist(Succ(k, |fl|), f, |fl|)
      {
        NextOf(next, size, freep, brk, blocks, core, fl, Succ(k, |fl|));
        if size[p] >= nunits {
          ghost var next1, size1 := next, size;
          SomeFits(next, size, freep, brk, blocks, core, fl, k, nunits);
          r := Take(prevp, p, k, nunits);
          KeptTrans(old(next), old(size), next1, size1, next, size, live);
          return;
        }
        if p == freep {
          assert !grown;
          AllTried(next, size, freep, brk, blocks, core, fl, f, Succ(k, |fl|), nunits);
          if ToInt(CoreUnits(nunits) * 16) != CoreUnits(nunits) * 16 { return NULL, true; }
          ghost var next1, size1 := next, size;
          p := Morecore(nunits);
          KeptTrans(old(next), old(size), next1, size1, next, size, live);
          if p == NULL { return NULL, false; }
          grown := true;
          f := Index(next, size, freep, brk, blocks, core, fl);
          k := f;
          NextOf(next, size, freep, brk, blocks, core, fl, k);
        } else {
          OneCloser(size, fl, f, k, nunits);
          k := Succ(k, |fl|);
          NextOf(next, size, freep, brk, blocks, core, fl, k);
        }
        prevp := p;
        p := next[p];
      }
    }

    /** Hand out nunits of the free block p, which follows prevp on the list. */
    method Take(prevp: nat, p: nat, ghost k: nat, nunits: nat) returns (r: nat)
      requires HeapOk(next, size, freep, brk, blocks, core, fl)
      requires k < |fl| && fl[k] == prevp && p == fl[Succ(k, |fl|)] && p in size && size[p] >= nunits >= 1
      modifies `next, `size, `freep, `blocks, `fl
      ensures Valid() && freep != NULL && r >= 1
      ensures r - 1 !in Live(old(blocks)) && Live(blocks) == Live(old(blocks))[r - 1 := nunits]
      ensures Kept(old(next), old(size), next, size, Live(old(blocks)))
    {
      hide HeapOk, Live, Split, Remove, Kept, Outside;
      NextOf(next, size, freep, brk, blocks, core, fl, k);
      NextOf(next, size, freep, brk, blocks, core, fl, Succ(k, |fl|));
      NotBase(next, size, freep, brk, blocks, core, fl, k, nunits);
      TakeFrame(next, size, freep, brk, blocks, core, fl, k, nunits);
      var q := p;
      if size[p] == nunits {
        TakeWhole(next, size, freep, brk, blocks, core, fl, k);
        next := next[prevp := next[p]];
        blocks := blocks[p := blocks[p].(free := false)];
        fl := Remove(fl, k + 1);
      } else {
        TakePart(next, size, freep, brk, blocks, core, fl, k, nunits);
        blocks := Split(blocks, p, nunits);
        size := size[p := size[p] - nunits];
        q := p + size[p];
        size := size[q := nunits];
      }
      KeptWrites(old(next), old(size), next, size, Live(old(blocks)), prevp, p, q);
      freep := prevp;
      r := q + 1;
    }
  }
}
