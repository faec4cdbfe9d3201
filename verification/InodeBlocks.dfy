/** balloc, bfree, bmap and itrunc (kernel/fs.c): every block has one owner, and none is lost. */
module InodeBlocks {
  import opened BlockMap

  /** addrs: NDIRECT block numbers and the number of the indirect block; 0 is none. */
  datatype Inode = Inode(addrs: seq<nat>, size: nat)

  /** What a block is used for. */
  datatype Use = Direct(ino: nat, i: nat) | Indirect(ino: nat) | Entry(ino: nat, j: nat)

  const ZERO_BYTES: seq<bv8> := seq(BSIZE, _ => 0)
  const NO_ADDRS: seq<nat> := seq(NDIRECT + 1, _ => 0)
  const IPB := 16              // inodes per block
  const ZERO_WORDS: seq<nat> := seq(NINDIRECT, _ => 0)

  /** Every block, as bytes and as an array of block numbers. */
  ghost predicate DiskOk(data: map<nat, seq<bv8>>, table: map<nat, seq<nat>>, size: nat) {
    forall b: nat :: b < size ==> b in data && |data[b]| == BSIZE && b in table && |table[b]| == NINDIRECT
  }

  ghost predicate InodesOk(inodes: seq<Inode>) { forall i :: 0 <= i < |inodes| ==> |inodes[i].addrs| == NDIRECT + 1 }

  /** The block at a place of the inode table, 0 if there is none. */
  function Target(inodes: seq<Inode>, table: map<nat, seq<nat>>, u: Use): (b: nat) {
    if u.ino >= |inodes| || |inodes[u.ino].addrs| != NDIRECT + 1 then 0
    else
      var addrs := inodes[u.ino].addrs;
      match u
      case Direct(ino, i) => if i < NDIRECT then addrs[i] else 0
      case Indirect(ino) => addrs[NDIRECT]
      case Entry(ino, j) =>
        if addrs[NDIRECT] != 0 && addrs[NDIRECT] in table
            && j < |table[addrs[NDIRECT]]| then table[addrs[NDIRECT]][j] else 0
  }

  /** owner says of each block in use where it is used, so no block is used twice. */
  ghost predicate OwnOk(inodes: seq<Inode>, table: map<nat, seq<nat>>, owner: map<nat, Use>) {
    && (forall b: nat :: b in owner ==> b != 0 && Target(inodes, table, owner[b]) == b)
    && (forall u: Use :: Target(inodes, table, u) != 0 ==>
          Target(inodes, table, u) in owner && owner[Target(inodes, table, u)] == u)
  }

  /** The bitmap marks exactly the blocks in use and the reserved ones. */
  ghost predicate UsedOk(bitmap: seq<seq<bv8>>, size: nat, owner: map<nat, Use>, reserved: set<nat>) {
    && BitmapOk(bitmap, size) && 0 in reserved && owner.Keys !! reserved
    && (forall b :: b in owner ==> b < size)
    && (forall b: nat :: b < size ==> (Used(bitmap, size, b) <==> b in owner || b in reserved))
  }

  /** The place of block bn of a file. */
  function Place(ino: nat, bn: nat): (u: Use) {
    if bn < NDIRECT then Direct(ino, bn) else Entry(ino, bn - NDIRECT)
  }

  /** Byte x of a file; what is not mapped reads as zero. */
  ghost function ByteAt(inodes: seq<Inode>, table: map<nat, seq<nat>>, data: map<nat, seq<bv8>>, ino: nat,
                        x: nat): (v: bv8) {
    var b := Target(inodes, table, Place(ino, x / BSIZE));
    if b != 0 && b in data && |data[b]| == BSIZE then data[b][x % BSIZE] else 0
  }

  // ---- how ownership changes

  /** Block b is now used at u, and nothing else changed. */
  ghost predicate Moved(inodes: seq<Inode>, table: map<nat, seq<nat>>, inodes': seq<Inode>, table': map<nat, seq<nat>>,
                        u: Use, b: nat) {
    forall v: Use :: Target(inodes', table', v) == if v == u then b else Target(inodes, table, v)
  }

  lemma OwnAdd(inodes: seq<Inode>, table: map<nat, seq<nat>>, owner: map<nat, Use>, inodes': seq<Inode>,
               table': map<nat, seq<nat>>,
               u: Use, b: nat)
    requires OwnOk(inodes, table, owner) && Moved(inodes, table, inodes', table', u, b)
    requires b != 0 && b !in owner && Target(inodes, table, u) == 0
    ensures OwnOk(inodes', table', owner[b := u])
  {
    hide Target;
    var owner' := owner[b := u];
    forall v: Use | Target(inodes', table', v) != 0
      ensures Target(inodes', table', v) in owner' && owner'[Target(inodes', table', v)] == v { }
    forall c: nat | c in owner' ensures c != 0 && Target(inodes', table', owner'[c]) == c {
      if c != b { assert Target(inodes, table, owner[c]) == c; }
    }
  }

  lemma OwnDrop(inodes: seq<Inode>, table: map<nat, seq<nat>>, owner: map<nat, Use>, inodes': seq<Inode>,
                table': map<nat, seq<nat>>,
                u: Use)
    requires OwnOk(inodes, table, owner) && Moved(inodes, table, inodes', table', u, 0)
    ensures OwnOk(inodes', table', owner - {Target(inodes, table, u)})
  {
    hide Target;
    var b: nat := Target(inodes, table, u);
    forall v: Use | Target(inodes', table', v) != 0
      ensures Target(inodes', table', v) in owner - {b} && (owner - {b})[Target(inodes', table', v)] == v {
      assert owner[Target(inodes, table, v)] == v;
    }
    forall c: nat | c in owner - {b} ensures c != 0 && Target(inodes', table', (owner - {b})[c]) == c {
      assert Target(inodes, table, owner[c]) == c;
    }
  }

  lemma UsedAdd(bitmap: seq<seq<bv8>>, size: nat, owner: map<nat, Use>, reserved: set<nat>, u: Use, b: nat)
    requires UsedOk(bitmap, size, owner, reserved) && b < size && !Used(bitmap, size, b)
    ensures UsedOk(Mark(bitmap, size, b, true), size, owner[b := u], reserved) && b != 0 && b !in owner
  {
    hide Used, Mark, BitmapOk;
    Marked(bitmap, size, b, true, b);
    forall c: nat | c < size
      ensures Used(Mark(bitmap, size, b, true), size, c) <==> c in owner[b := u] || c in reserved
    {
      Marked(bitmap, size, b, true, c);
    }
  }

  lemma UsedDrop(bitmap: seq<seq<bv8>>, size: nat, owner: map<nat, Use>, reserved: set<nat>, b: nat)
    requires UsedOk(bitmap, size, owner, reserved) && b in owner
    ensures b < size && Used(bitmap, size, b) && UsedOk(Mark(bitmap, size, b, false), size, owner - {b}, reserved)
  {
    hide Used, Mark, BitmapOk;
    Marked(bitmap, size, b, false, b);
    forall c: nat | c < size
      ensures Used(Mark(bitmap, size, b, false), size, c) <==> c in owner - {b} || c in reserved
    {
      Marked(bitmap, size, b, false, c);
    }
  }

  /** Giving a file a fresh zeroed block changes no byte of any file. */
  lemma BytesKept(inodes: seq<Inode>, table: map<nat, seq<nat>>, data: map<nat, seq<bv8>>, owner: map<nat, Use>,
                  inodes': seq<Inode>, table': map<nat, seq<nat>>, u: Use, b: nat, ino: nat, x: nat)
    requires OwnOk(inodes, table, owner) && Moved(inodes, table, inodes', table', u, b)
    requires b != 0 && b !in owner && Target(inodes, table, u) == 0
    ensures ByteAt(inodes', table', data[b := ZERO_BYTES], ino, x) == ByteAt(inodes, table, data, ino, x)
  {
    hide Target, Place;
    var v := Place(ino, x / BSIZE);
    if v != u && Target(inodes, table, v) != 0 {
      assert Target(inodes, table, v) in owner;
    }
  }

  function SetWord(a: seq<nat>, j: nat, w: nat): (r: seq<nat>)
    requires j < |a|
  {
    a[j := w]
  }

  ghost predicate Full(bitmap: seq<seq<bv8>>, size: nat) {
    BitmapOk(bitmap, size) && forall c: nat :: c < size ==> Used(bitmap, size, c)
  }

  /** The block that holds the bit of block b. */
  function BBlock(bmapstart: nat, b: nat): (k: nat) { b / BPB + bmapstart }

  /** The block that holds inode ino. */
  function IBlock(inodestart: nat, ino: nat): (k: nat) { ino / IPB + inodestart }

  // ---- what has to be logged

  /** The blocks of the disk that are not inode blocks. */
  datatype Disk = Disk(bitmap: seq<seq<bv8>>, data: map<nat, seq<bv8>>, table: map<nat, seq<nat>>)

  ghost predicate BitmapCovered(bmapstart: nat, bitmap: seq<seq<bv8>>, bitmap': seq<seq<bv8>>, logged: set<nat>) {
    && |bitmap'| == |bitmap|
    && forall k :: 0 <= k < |bitmap| && bitmap'[k] != bitmap[k] ==> bmapstart + k in logged
  }

  ghost predicate MapCovered<T(!new)>(m: map<nat, T>, m': map<nat, T>, logged: set<nat>) {
    forall b :: b in m' && !(b in m && m[b] == m'[b]) ==> b in logged
  }

  /** Every bitmap, data and indirect block whose contents changed was given to log_write. */
  ghost predicate Covered(bmapstart: nat, a: Disk, b: Disk, logged: set<nat>) {
    && BitmapCovered(bmapstart, a.bitmap, b.bitmap, logged)
    && MapCovered(a.data, b.data, logged) && MapCovered(a.table, b.table, logged)
  }

  /** Inode block k holds IPB inodes. */
  predicate Holds(k: nat, i: nat) { k * IPB <= i < k * IPB + IPB }

  /** Every inode block with an inode that changed was given to log_write. */
  ghost predicate InodesCovered(inodestart: nat, inodes: seq<Inode>, inodes': seq<Inode>, logged: set<nat>) {
    && |inodes'| == |inodes|
    && forall k: nat, i: nat :: Holds(k, i) && i < |inodes| && inodes'[i] != inodes[i] ==> inodestart + k in logged
  }

  /** It is the block that IBLOCK names. */
  lemma HeldIn(inodestart: nat, k: nat, i: nat)
    requires Holds(k, i)
    ensures IBlock(inodestart, i) == inodestart + k
  {
  }

  /** A change of one inode. */
  lemma InodeCovered(inodestart: nat, inodes: seq<Inode>, inodes': seq<Inode>, ino: nat, logged: set<nat>)
    requires |inodes'| == |inodes| && IBlock(inodestart, ino) in logged
    requires forall i :: 0 <= i < |inodes| && i != ino ==> inodes'[i] == inodes[i]
    ensures InodesCovered(inodestart, inodes, inodes', logged)
  {
    hide IBlock, Holds;
    forall k: nat, i: nat | Holds(k, i) && i < |inodes| && inodes'[i] != inodes[i] ensures inodestart + k in logged {
      HeldIn(inodestart, k, i);
    }
  }

  lemma CoveredSelf(bmapstart: nat, a: Disk, logged: set<nat>)
    ensures Covered(bmapstart, a, a, logged)
  {
  }

  lemma CoveredTrans(bmapstart: nat, a: Disk, b: Disk, c: Disk, logged: set<nat>, logged': set<nat>)
    requires Covered(bmapstart, a, b, logged) && Covered(bmapstart, b, c, logged') && logged <= logged'
    ensures Covered(bmapstart, a, c, logged')
  {
  }

  lemma CoveredMore(bmapstart: nat, a: Disk, b: Disk, logged: set<nat>, logged': set<nat>)
    requires Covered(bmapstart, a, b, logged) && logged <= logged'
    ensures Covered(bmapstart, a, b, logged')
  {
  }

  lemma InodesSame(inodestart: nat, a: seq<Inode>, logged: set<nat>)
    ensures InodesCovered(inodestart, a, a, logged)
  {
  }

  lemma InodesCoveredTrans(inodestart: nat, a: seq<Inode>, b: seq<Inode>, c: seq<Inode>, logged: set<nat>,
                           logged': set<nat>)
    requires InodesCovered(inodestart, a, b, logged) && InodesCovered(inodestart, b, c, logged') && logged <= logged'
    ensures InodesCovered(inodestart, a, c, logged')
  {
    hide IBlock;
  }

  lemma InodesMore(inodestart: nat, a: seq<Inode>, b: seq<Inode>, logged: set<nat>, logged': set<nat>)
    requires InodesCovered(inodestart, a, b, logged) && logged <= logged'
    ensures InodesCovered(inodestart, a, b, logged')
  {
    hide IBlock;
  }

  /** Marking a block touches the bitmap block of its bit only. */
  lemma MarkCovered(bmapstart: nat, bitmap: seq<seq<bv8>>, size: nat, b: nat, on: bool, logged: set<nat>)
    requires BitmapOk(bitmap, size) && b < size && BBlock(bmapstart, b) in logged
    ensures BitmapCovered(bmapstart, bitmap, Mark(bitmap, size, b, on), logged)
  {
    InBitmap(bitmap, size, b);
    hide WithBit;
  }

  /** balloc logs what it changes. */
  lemma AllocCovered(bmapstart: nat, a: Disk, size: nat, b: nat, logged: set<nat>)
    requires BitmapOk(a.bitmap, size) && b < size && BBlock(bmapstart, b) in logged && b in logged
    ensures Covered(bmapstart, a, Disk(Mark(a.bitmap, size, b, true), a.data[b := ZERO_BYTES],
                                       a.table[b := ZERO_WORDS]), logged)
  {
    MarkCovered(bmapstart, a.bitmap, size, b, true, logged);
    hide Mark, BitmapOk, BBlock, BitmapCovered;
  }

  /** bfree logs what it changes. */
  lemma FreeCovered(bmapstart: nat, a: Disk, size: nat, b: nat, logged: set<nat>)
    requires BitmapOk(a.bitmap, size) && b < size && BBlock(bmapstart, b) in logged
    ensures Covered(bmapstart, a, Disk(Mark(a.bitmap, size, b, false), a.data, a.table), logged)
  {
    MarkCovered(bmapstart, a.bitmap, size, b, false, logged);
    hide Mark, BitmapOk, BBlock, BitmapCovered;
  }

  lemma FreeNext(bmapstart: nat, a: Disk, b: Disk, size: nat, c: nat, logged: set<nat>, logged': set<nat>)
    requires BitmapOk(b.bitmap, size) && c < size && Covered(bmapstart, a, b, logged)
    requires logged <= logged' && BBlock(bmapstart, c) in logged'
    ensures Covered(bmapstart, a, Disk(Mark(b.bitmap, size, c, false), b.data, b.table), logged')
  {
    hide Mark, BitmapOk, BBlock, Covered;
    FreeCovered(bmapstart, b, size, c, logged');
    CoveredTrans(bmapstart, a, b, Disk(Mark(b.bitmap, size, c, false), b.data, b.table), logged, logged');
  }

  /** A further change, of one block that is logged. */
  lemma WordCovered(bmapstart: nat, a: Disk, b: Disk, c: nat, words: seq<nat>, logged: set<nat>, logged': set<nat>)
    requires Covered(bmapstart, a, b, logged) && logged + {c} <= logged'
    ensures Covered(bmapstart, a, Disk(b.bitmap, b.data, b.table[c := words]), logged')
  {
  }

  // ---- places of blocks

  /** A place in the inode itself. */
  function SlotUse(ino: nat, i: nat): (u: Use) { if i < NDIRECT then Direct(ino, i) else Indirect(ino) }

  lemma DiskZero(data: map<nat, seq<bv8>>, table: map<nat, seq<nat>>, size: nat, b: nat)
    requires DiskOk(data, table, size)
    ensures DiskOk(data[b := ZERO_BYTES], table[b := ZERO_WORDS], size)
  {
  }

  lemma DiskSet(data: map<nat, seq<bv8>>, table: map<nat, seq<nat>>, size: nat, b: nat, j: nat, w: nat)
    requires DiskOk(data, table, size) && b < size && j < NINDIRECT
    ensures |table[b]| == NINDIRECT && DiskOk(data, table[b := SetWord(table[b], j, w)], size)
  {
  }

  /** Without an indirect block there are no entries. */
  lemma NoIndirect(inodes: seq<Inode>, table: map<nat, seq<nat>>, ino: nat, j: nat)
    ensures Target(inodes, table, Indirect(ino)) == 0 ==> Target(inodes, table, Entry(ino, j)) == 0
  {
  }

  /** Every byte of every file is what it was. */
  ghost predicate SameBytes(inodes: seq<Inode>, table: map<nat, seq<nat>>, data: map<nat, seq<bv8>>,
                            inodes': seq<Inode>, table': map<nat, seq<nat>>, data': map<nat, seq<bv8>>) {
    forall ino: nat, x: nat :: ByteAt(inodes', table', data', ino, x) == ByteAt(inodes, table, data, ino, x)
  }

  /** What was mapped is mapped to the same block. */
  ghost predicate Grown(inodes: seq<Inode>, table: map<nat, seq<nat>>, inodes': seq<Inode>, table': map<nat,
                        seq<nat>>) {
    forall v: Use :: Target(inodes, table, v) != 0 ==> Target(inodes', table', v) == Target(inodes, table, v)
  }

  ghost predicate SameSizes(inodes: seq<Inode>, inodes': seq<Inode>) {
    |inodes'| == |inodes| && forall i :: 0 <= i < |inodes| ==> inodes'[i].size == inodes[i].size
  }

  /** Blocks were added, and nothing else. */
  ghost predicate Extended(inodes: seq<Inode>, table: map<nat, seq<nat>>, data: map<nat, seq<bv8>>,
                           inodes': seq<Inode>, table': map<nat, seq<nat>>, data': map<nat, seq<bv8>>) {
    SameBytes(inodes, table, data, inodes', table', data') && Grown(inodes, table, inodes', table')
      && SameSizes(inodes, inodes')
  }

  lemma ExtendedSelf(inodes: seq<Inode>, table: map<nat, seq<nat>>, data: map<nat, seq<bv8>>)
    ensures Extended(inodes, table, data, inodes, table, data)
  {
  }

  lemma ExtendedTrans(inodes: seq<Inode>, table: map<nat, seq<nat>>, data: map<nat, seq<bv8>>,
                      inodes1: seq<Inode>, table1: map<nat, seq<nat>>, data1: map<nat, seq<bv8>>,
                      inodes2: seq<Inode>, table2: map<nat, seq<nat>>, data2: map<nat, seq<bv8>>)
    requires Extended(inodes, table, data, inodes1, table1, data1)
             && Extended(inodes1, table1, data1, inodes2, table2, data2)
    ensures Extended(inodes, table, data, inodes2, table2, data2)
  {
    hide ByteAt, Target;
  }

  /** A place that has just got its block. */
  ghost predicate Fresh(inodes: seq<Inode>, table: map<nat, seq<nat>>, inodes': seq<Inode>, table': map<nat, seq<nat>>,
                        u: Use) {
    Target(inodes, table, u) == 0 && Target(inodes', table', u) != 0
  }

  /** The blocks bmap gives to log_write. */
  ghost function Touched(bmapstart: nat, inodes: seq<Inode>, table: map<nat, seq<nat>>, inodes': seq<Inode>,
                         table': map<nat, seq<nat>>, ino: nat, bn: nat): (s: set<nat>) {
    var u, i := Place(ino, bn), Indirect(ino);
    var a, ind := Target(inodes', table', u), Target(inodes', table', i);
    (if Fresh(inodes, table, inodes', table', u)
     then {a, BBlock(bmapstart, a)} + (if bn >= NDIRECT then {ind} else {})
     else {})
    + (if bn >= NDIRECT && Fresh(inodes, table, inodes', table', i) then {ind, BBlock(bmapstart, ind)} else {})
  }

  /** The places that a write to blocks lo to hi of a file may map. */
  predicate Reached(ino: nat, lo: nat, hi: nat, u: Use) {
    && u.ino == ino
    && match u
       case Direct(_, i) => lo <= i <= hi
       case Indirect(_) => true
       case Entry(_, j) => lo <= j + NDIRECT <= hi
  }

  /** No other place has changed. */
  ghost predicate OnlyIn(inodes: seq<Inode>, table: map<nat, seq<nat>>, inodes': seq<Inode>, table': map<nat, seq<nat>>,
                         ino: nat, lo: nat, hi: nat) {
    forall u: Use :: !Reached(ino, lo, hi, u) ==> Target(inodes', table', u) == Target(inodes, table, u)
  }

  lemma OnlyInSelf(inodes: seq<Inode>, table: map<nat, seq<nat>>, ino: nat, lo: nat, hi: nat)
    ensures OnlyIn(inodes, table, inodes, table, ino, lo, hi)
  {
    hide Target;
  }

  lemma OnlyInTrans(inodes: seq<Inode>, table: map<nat, seq<nat>>, inodes1: seq<Inode>, table1: map<nat, seq<nat>>,
                    inodes2: seq<Inode>, table2: map<nat, seq<nat>>, ino: nat, lo: nat, hi: nat, bn: nat)
    requires OnlyIn(inodes, table, inodes1, table1, ino, lo, hi) && lo <= bn <= hi
    requires OnlyIn(inodes1, table1, inodes2, table2, ino, bn, bn)
    ensures OnlyIn(inodes, table, inodes2, table2, ino, lo, hi)
  {
    hide Target;
  }

  lemma MovedIn(inodes: seq<Inode>, table: map<nat, seq<nat>>, inodes': seq<Inode>, table': map<nat, seq<nat>>,
                u: Use, b: nat, ino: nat, bn: nat)
    requires Moved(inodes, table, inodes', table', u, b) && Reached(ino, bn, bn, u)
    ensures OnlyIn(inodes, table, inodes', table', ino, bn, bn)
  {
    hide Target;
  }

  lemma InodeAt(inodes: seq<Inode>, ino: nat)
    requires InodesOk(inodes) && ino < |inodes|
    ensures |inodes[ino].addrs| == NDIRECT + 1
  {
  }

  /** A block nobody owns is nobody's indirect block. */
  lemma NotIndirect(inodes: seq<Inode>, table: map<nat, seq<nat>>, owner: map<nat, Use>, b: nat, ino: nat)
    requires OwnOk(inodes, table, owner) && b != 0 && b !in owner
    ensures ino < |inodes| && |inodes[ino].addrs| == NDIRECT + 1 ==> inodes[ino].addrs[NDIRECT] != b
  {
    assert Target(inodes, table, Indirect(ino)) != b;
  }

  /** A block number stored in an inode. */
  lemma SlotMoved(inodes: seq<Inode>, table: map<nat, seq<nat>>, owner: map<nat, Use>, size: nat, reserved: set<nat>,
                  bitmap: seq<seq<bv8>>, ino: nat, i: nat, b: nat)
    requires InodesOk(inodes) && OwnOk(inodes, table, owner) && UsedOk(bitmap, size, owner, reserved) && b < size
             && !Used(bitmap, size, b)
    requires ino < |inodes| && i <= NDIRECT && |inodes[ino].addrs| == NDIRECT + 1 && inodes[ino].addrs[i] == 0
    ensures var inodes' := inodes[ino := inodes[ino].(addrs := inodes[ino].addrs[i := b])];
            && Moved(inodes, table, inodes', table[b := ZERO_WORDS], SlotUse(ino, i), b)
            && InodesOk(inodes') && SameSizes(inodes, inodes')
  {
    var inodes', table' := inodes[ino := inodes[ino].(addrs := inodes[ino].addrs[i := b])], table[b := ZERO_WORDS];
    var u := SlotUse(ino, i);
    UsedAdd(bitmap, size, owner, reserved, u, b);
    forall v: Use ensures Target(inodes', table', v) == if v == u then b else Target(inodes, table, v) {
      NotIndirect(inodes, table, owner, b, v.ino);
    }
  }

  /** Two inodes have two indirect blocks. */
  lemma OtherIndirect(inodes: seq<Inode>, table: map<nat, seq<nat>>, owner: map<nat, Use>, ino: nat, jno: nat)
    requires OwnOk(inodes, table, owner) && ino != jno && Target(inodes, table, Indirect(ino)) != 0
    ensures Target(inodes, table, Indirect(jno)) != Target(inodes, table, Indirect(ino))
  {
    hide Target;
    assert owner[Target(inodes, table, Indirect(ino))] == Indirect(ino);
  }

  /** A block number stored in an indirect block. */
  lemma EntryMoved(inodes: seq<Inode>, table: map<nat, seq<nat>>, owner: map<nat, Use>, size: nat, reserved: set<nat>,
                   bitmap: seq<seq<bv8>>, ino: nat, j: nat, b: nat)
    requires InodesOk(inodes) && OwnOk(inodes, table, owner) && UsedOk(bitmap, size, owner, reserved) && b < size
             && !Used(bitmap, size, b)
    requires ino < |inodes| && |inodes[ino].addrs| == NDIRECT + 1 && j < NINDIRECT
    requires var ind := inodes[ino].addrs[NDIRECT];
             ind != 0 && ind in table && |table[ind]| == NINDIRECT
             && table[ind][j] == 0
    ensures var ind := inodes[ino].addrs[NDIRECT];
            && ind != b
            && Moved(inodes, table, inodes, table[b := ZERO_WORDS][ind := SetWord(table[ind], j, b)], Entry(ino, j), b)
  {
    var ind := inodes[ino].addrs[NDIRECT];
    var u, table' := Entry(ino, j), table[b := ZERO_WORDS][ind := SetWord(table[ind], j, b)];
    UsedAdd(bitmap, size, owner, reserved, u, b);
    NotIndirect(inodes, table, owner, b, ino);
    forall v: Use ensures Target(inodes, table', v) == if v == u then b else Target(inodes, table, v) {
      NotIndirect(inodes, table, owner, b, v.ino);
      if v.Entry? && v.ino != ino { OtherIndirect(inodes, table, owner, ino, v.ino); }
    }
  }

  /** A fresh block gets its place. */
  lemma Attach(inodes: seq<Inode>, table: map<nat, seq<nat>>, data: map<nat, seq<bv8>>, bitmap: seq<seq<bv8>>,
               size: nat, owner: map<nat, Use>, reserved: set<nat>, inodes': seq<Inode>, table': map<nat, seq<nat>>,
               u: Use, b: nat)
    requires DiskOk(data, table, size) && OwnOk(inodes, table, owner) && UsedOk(bitmap, size, owner, reserved)
    requires b < size && !Used(bitmap, size, b) && Moved(inodes, table, inodes', table', u, b)
             && Target(inodes, table, u) == 0
    requires SameSizes(inodes, inodes') && DiskOk(data[b := ZERO_BYTES], table', size)
    ensures OwnOk(inodes', table', owner[b := u]) && UsedOk(Mark(bitmap, size, b, true), size, owner[b := u], reserved)
    ensures Extended(inodes, table, data, inodes', table', data[b := ZERO_BYTES]) && b != 0
    ensures Target(inodes', table', u) == b
  {
    hide Target, Used, BitmapOk, Mark, ByteAt;
    UsedAdd(bitmap, size, owner, reserved, u, b);
    OwnAdd(inodes, table, owner, inodes', table', u, b);
    forall ino: nat, x: nat
      ensures ByteAt(inodes', table', data[b := ZERO_BYTES], ino, x) == ByteAt(inodes, table, data, ino, x) {
      BytesKept(inodes, table, data, owner, inodes', table', u, b, ino, x);
    }
  }

  lemma IndirectIn(inodes: seq<Inode>, table: map<nat, seq<nat>>, data: map<nat, seq<bv8>>, owner: map<nat, Use>,
                   bitmap: seq<seq<bv8>>, size: nat, reserved: set<nat>, ino: nat)
    requires DiskOk(data, table, size) && OwnOk(inodes, table, owner) && UsedOk(bitmap, size, owner, reserved)
    requires ino < |inodes| && |inodes[ino].addrs| == NDIRECT + 1 && inodes[ino].addrs[NDIRECT] != 0
    ensures var ind := inodes[ino].addrs[NDIRECT]; ind < size && ind in table && |table[ind]| == NINDIRECT
  {
    hide Used, BitmapOk;
    assert Target(inodes, table, Indirect(ino)) == inodes[ino].addrs[NDIRECT];
  }

  lemma DirectTouched(bmapstart: nat, inodes: seq<Inode>, table: map<nat, seq<nat>>, inodes': seq<Inode>,
                      table': map<nat, seq<nat>>,
                      ino: nat, bn: nat)
    requires bn < NDIRECT
    ensures Fresh(inodes, table, inodes', table', Direct(ino, bn)) ==>
              var a := Target(inodes', table', Direct(ino, bn));
              {BBlock(bmapstart, a), a} <= Touched(bmapstart, inodes, table, inodes', table', ino, bn)
  {
    hide Target, BBlock;
  }

  lemma Locate(k: nat, bi: nat)
    requires bi < BPB
    ensures BitBlock(k * BPB + bi) == k && BitIndex(k * BPB + bi) == bi && k * BPB / BPB == k
            && (k * BPB + bi) / BPB == k
  {
  }

  lemma ZeroIsUsed(bitmap: seq<seq<bv8>>, size: nat, owner: map<nat, Use>, reserved: set<nat>)
    requires UsedOk(bitmap, size, owner, reserved)
    ensures 0 < size ==> Used(bitmap, size, 0)
  {
  }

  lemma EntryTouched(bmapstart: nat, inodes: seq<Inode>, table: map<nat, seq<nat>>, inodes': seq<Inode>,
                     table': map<nat, seq<nat>>,
                     ino: nat, bn: nat)
    requires bn >= NDIRECT
    ensures var a, ind := Target(inodes', table', Place(ino, bn)), Target(inodes', table', Indirect(ino));
            && (Fresh(inodes, table, inodes', table', Place(ino, bn)) ==>
                  {BBlock(bmapstart, a), a, ind} <= Touched(bmapstart, inodes, table, inodes', table', ino, bn))
            && (Fresh(inodes, table, inodes', table', Indirect(ino)) ==>
                  {BBlock(bmapstart, ind), ind} <= Touched(bmapstart, inodes, table, inodes', table', ino, bn))
  {
    hide Target, BBlock;
  }

  /** Blocks left their owner, all of them from one inode. */
  ghost predicate OnlyLost(owner: map<nat, Use>, owner': map<nat, Use>, ino: nat) {
    && (forall b :: b in owner' ==> b in owner && owner'[b] == owner[b])
    && (forall b :: b in owner && owner[b].ino != ino ==> b in owner')
  }

  lemma OwnedAt(inodes: seq<Inode>, table: map<nat, seq<nat>>, owner: map<nat, Use>, u: Use)
    requires OwnOk(inodes, table, owner) && Target(inodes, table, u) != 0
    ensures Target(inodes, table, u) in owner && owner[Target(inodes, table, u)] == u
  {
    hide Target;
  }

  lemma BitsOk(bitmap: seq<seq<bv8>>, size: nat, owner: map<nat, Use>, reserved: set<nat>)
    requires UsedOk(bitmap, size, owner, reserved)
    ensures BitmapOk(bitmap, size)
  {
  }

  lemma SlotIs(inodes: seq<Inode>, table: map<nat, seq<nat>>, ino: nat, i: nat)
    requires ino < |inodes| && |inodes[ino].addrs| == NDIRECT + 1 && i <= NDIRECT
    ensures Target(inodes, table, SlotUse(ino, i)) == inodes[ino].addrs[i]
  {
  }

  lemma SlotCleared(inodes: seq<Inode>, table: map<nat, seq<nat>>, ino: nat, i: nat)
    requires ino < |inodes| && |inodes[ino].addrs| == NDIRECT + 1 && i < NDIRECT
    ensures Moved(inodes, table, inodes[ino := inodes[ino].(addrs := inodes[ino].addrs[i := 0])], table, Direct(ino, i),
                  0)
  {
  }

  /** The table with the first j entries of block ind cleared: what the owners see while itrunc works
      through the entries, which it does not clear itself. */
  ghost function Cleared(table: map<nat, seq<nat>>, ind: nat, j: nat): (r: map<nat, seq<nat>>) {
    if ind in table && |table[ind]| == NINDIRECT && j <= NINDIRECT
    then table[ind := seq(j, _ => 0) + table[ind][j..]]
    else table
  }

  lemma NothingCleared(table: map<nat, seq<nat>>, ind: nat)
    ensures Cleared(table, ind, 0) == table
  {
    if ind in table && |table[ind]| == NINDIRECT {
      var none: seq<nat> := seq(0, _ => 0);
      assert none + table[ind][0..] == table[ind];
    }
  }

  lemma EntryIs(inodes: seq<Inode>, table: map<nat, seq<nat>>, ino: nat, ind: nat, j: nat)
    requires ino < |inodes| && |inodes[ino].addrs| == NDIRECT + 1 && inodes[ino].addrs[NDIRECT] == ind != 0
    requires ind in table && |table[ind]| == NINDIRECT && j < NINDIRECT
    ensures Target(inodes, Cleared(table, ind, j), Entry(ino, j)) == table[ind][j]
  {
  }

  lemma EntryCleared(inodes: seq<Inode>, table: map<nat, seq<nat>>, owner: map<nat, Use>, ino: nat, ind: nat, j: nat)
    requires ino < |inodes| && |inodes[ino].addrs| == NDIRECT + 1 && inodes[ino].addrs[NDIRECT] == ind != 0
    requires ind in table && |table[ind]| == NINDIRECT && j < NINDIRECT
    requires OwnOk(inodes, Cleared(table, ind, j), owner)
    ensures Moved(inodes, Cleared(table, ind, j), inodes, Cleared(table, ind, j + 1), Entry(ino, j), 0)
  {
    var before, after := Cleared(table, ind, j), Cleared(table, ind, j + 1);
    forall v: Use ensures Target(inodes, after, v) == if v == Entry(ino, j) then 0 else Target(inodes, before, v) {
      if v.Entry? && v.ino != ino {
        SlotIs(inodes, before, ino, NDIRECT);
        OtherIndirect(inodes, before, owner, ino, v.ino);
      }
    }
  }

  lemma DropNothing(inodes: seq<Inode>, table: map<nat, seq<nat>>, owner: map<nat, Use>)
    requires OwnOk(inodes, table, owner)
    ensures owner - {0} == owner
  {
  }

  lemma IndirectCleared(inodes: seq<Inode>, table: map<nat, seq<nat>>, owner: map<nat, Use>, ino: nat, ind: nat)
    requires ino < |inodes| && |inodes[ino].addrs| == NDIRECT + 1 && inodes[ino].addrs[NDIRECT] == ind != 0
    requires ind in table && |table[ind]| == NINDIRECT && OwnOk(inodes, Cleared(table, ind, NINDIRECT), owner)
    ensures Moved(inodes, Cleared(table, ind, NINDIRECT),
                  inodes[ino := inodes[ino].(addrs := inodes[ino].addrs[NDIRECT := 0])], table,
                  Indirect(ino), 0)
  {
    var before := Cleared(table, ind, NINDIRECT);
    var inodes' := inodes[ino := inodes[ino].(addrs := inodes[ino].addrs[NDIRECT := 0])];
    forall v: Use ensures Target(inodes', table, v) == if v == Indirect(ino) then 0 else Target(inodes, before, v) {
      if v.Entry? && v.ino != ino {
        SlotIs(inodes, before, ino, NDIRECT);
        OtherIndirect(inodes, before, owner, ino, v.ino);
      }
    }
  }

  lemma AllGone(inodes: seq<Inode>, table: map<nat, seq<nat>>, owner: map<nat, Use>, ino: nat)
    requires OwnOk(inodes, table, owner) && ino < |inodes| && inodes[ino].addrs == NO_ADDRS
    ensures forall b :: b in owner ==> owner[b].ino != ino
  {
  }

  /** Sizes are no concern of the block map. */
  lemma SizeFree(inodes: seq<Inode>, table: map<nat, seq<nat>>, owner: map<nat, Use>, ino: nat, size: nat)
    requires OwnOk(inodes, table, owner) && ino < |inodes|
    ensures OwnOk(inodes[ino := inodes[ino].(size := size)], table, owner)
  {
    var inodes' := inodes[ino := inodes[ino].(size := size)];
    assert forall v: Use :: Target(inodes', table, v) == Target(inodes, table, v);
    hide Target;
  }

  // ---- the file system

  class Fs {
    const size: nat              // sb.size
    const bmapstart: nat
    const inodestart: nat
    var bitmap: seq<seq<bv8>>
    var data: map<nat, seq<bv8>>
    var table: map<nat, seq<nat>>
    var inodes: seq<Inode>

    ghost const reserved: set<nat>   // boot block, super block, log, inodes and bitmap
    ghost var owner: map<nat, Use>
    ghost var logged: set<nat>       // the blocks given to log_write in this operation

    ghost predicate Valid()
      reads this
    {
      && DiskOk(data, table, size) && InodesOk(inodes)
      && OwnOk(inodes, table, owner) && UsedOk(bitmap, size, owner, reserved)
    }

    ghost function Blocks(): (d: Disk)
      reads this
    {
      Disk(bitmap, data, table)
    }

    /** A file system as mkfs leaves it, with empty inodes: only the reserved blocks are marked. */
    constructor (blocks: nat, bmap: nat, inode: nat, bits: seq<seq<bv8>>, bytes: map<nat, seq<bv8>>, words: map<nat,
                 seq<nat>>,
                 ninodes: nat, ghost meta: set<nat>)
      requires BitmapOk(bits, blocks) && DiskOk(bytes, words, blocks) && 0 in meta
      requires forall b: nat :: b < blocks ==> (Used(bits, blocks, b) <==> b in meta)
      ensures Valid() && size == blocks && reserved == meta && logged == {} && |inodes| == ninodes
    {
      size, bmapstart, inodestart, bitmap := blocks, bmap, inode, bits;
      data, table := bytes, words;
      inodes := seq(ninodes, _ => Inode(seq(NDIRECT + 1, _ => 0), 0));
      reserved := meta;
      owner, logged := map[], {};
    }

    /** Any consistent file system found on a disk. */
    constructor Mount(blocks: nat, bmap: nat, inode: nat, bits: seq<seq<bv8>>, bytes: map<nat, seq<bv8>>,
                      words: map<nat, seq<nat>>, files: seq<Inode>, ghost meta: set<nat>, ghost owners: map<nat, Use>)
      requires DiskOk(bytes, words, blocks) && InodesOk(files)
      requires OwnOk(files, words, owners) && UsedOk(bits, blocks, owners, meta)
      ensures Valid() && size == blocks && bmapstart == bmap && inodestart == inode && reserved == meta
      ensures bitmap == bits && data == bytes && table == words && inodes == files && owner == owners && logged == {}
    {
      size, bmapstart, inodestart, bitmap := blocks, bmap, inode, bits;
      data, table, inodes := bytes, words, files;
      reserved := meta;
      owner, logged := owners, {};
    }

    /** balloc: the first free block, marked and zeroed, or 0 when all blocks are used. */
    method Balloc() returns (r: nat)
      requires Valid()
      modifies `bitmap, `data, `table, `logged
      ensures r == 0 ==> bitmap == old(bitmap) && data == old(data) && table == old(table) && logged == old(logged)
      ensures r == 0 ==> Full(bitmap, size)
      ensures r != 0 ==> BitmapOk(old(bitmap), size) && r < size && !Used(old(bitmap), size, r)
      ensures r != 0 ==> forall c: nat :: c < r ==> Used(old(bitmap), size, c)
      ensures r != 0 ==> bitmap == Mark(old(bitmap), size, r, true)
      ensures r != 0 ==> data == old(data)[r := ZERO_BYTES] && table == old(table)[r := ZERO_WORDS]
      ensures r != 0 ==> logged == old(logged) + {BBlock(bmapstart, r), r}
    {
      hide OwnOk, BitSet, WithBit, DiskOk;
      var b := 0;
      ghost var k := 0;
      while b < size
        invariant b == k * BPB && k >= 0
        invariant bitmap == old(bitmap) && data == old(data) && table == old(table) && logged == old(logged)
        invariant forall c: nat :: c < b && c < size ==> Used(bitmap, size, c)
      {
        var bi := 0;
        while bi < BPB && b + bi < size
          invariant 0 <= bi <= BPB
          invariant bitmap == old(bitmap) && data == old(data) && table == old(table) && logged == old(logged)
          invariant forall c: nat :: c < b + bi && c < size ==> Used(bitmap, size, c)
        {
          assert BitBlock(b + bi) == k && BitIndex(b + bi) == bi by { Locate(k, bi); }
          InBitmap(bitmap, size, b + bi);
          if !BitSet(bitmap[b / BPB], bi) {
            bitmap := bitmap[b / BPB := WithBit(bitmap[b / BPB], bi, true)];
            logged := logged + {BBlock(bmapstart, b + bi)};
            assert BBlock(bmapstart, b + bi) == b / BPB + bmapstart;
            assert b + bi != 0 by { ZeroIsUsed(old(bitmap), size, owner, reserved); }
            Bzero(b + bi);
            return b + bi;
          }
          bi := bi + 1;
        }
        b := b + BPB;
        k := k + 1;
      }
      r := 0;
    }

    method Bzero(b: nat)
      modifies `data, `table, `logged
      ensures data == old(data)[b := ZERO_BYTES] && table == old(table)[b := ZERO_WORDS] && logged == old(logged) + {b}
    {
      data, table := data[b := ZERO_BYTES], table[b := ZERO_WORDS];
      logged := logged + {b};
    }

    /** bfree; a block that is free already would make it panic. */
    method Bfree(b: nat)
      requires BitmapOk(bitmap, size) && b < size && Used(bitmap, size, b)
      modifies `bitmap, `logged
      ensures bitmap == Mark(old(bitmap), size, b, false) && logged == old(logged) + {BBlock(bmapstart, b)}
    {
      InBitmap(bitmap, size, b);
      var bi := b % BPB;
      bitmap := bitmap[b / BPB := WithBit(bitmap[b / BPB], bi, false)];
      logged := logged + {BBlock(bmapstart, b)};
    }

    /** bmap: the block of a file, allocated if need be; 0 when the disk is full. No byte of any file
        changes, and no block that was mapped moves. */
    method Bmap(ino: nat, bn: nat) returns (addr: nat)
      requires Valid() && ino < |inodes| && bn < MAXFILE
      modifies `bitmap, `data, `table, `inodes, `owner, `logged
      ensures Valid() && Target(inodes, table, Place(ino, bn)) == addr
      ensures Extended(old(inodes), old(table), old(data), inodes, table, data)
      ensures Target(old(inodes), old(table), Place(ino, bn)) != 0 ==>
                inodes == old(inodes) && table == old(table) && data == old(data) && bitmap == old(bitmap)
                  && logged == old(logged)
      ensures addr == 0 ==> Full(bitmap, size)
      ensures logged <= old(logged) + Touched(bmapstart, old(inodes), old(table), inodes, table, ino, bn)
      ensures old(logged) <= logged && Covered(bmapstart, old(Blocks()), Blocks(), logged)
      ensures forall i :: 0 <= i < |inodes| && i != ino ==> inodes[i] == old(inodes)[i]
      ensures OnlyIn(old(inodes), old(table), inodes, table, ino, bn, bn)
    {
      hide OwnOk, UsedOk, DiskOk, InodesOk, Extended, Touched, BBlock, Full, Covered, OnlyIn;
      if bn < NDIRECT {
        addr := MapSlot(ino, bn, bn);
        DirectTouched(bmapstart, old(inodes), old(table), inodes, table, ino, bn);
        return;
      }
      NoIndirect(inodes, table, ino, bn - NDIRECT);
      var ind := MapSlot(ino, NDIRECT, bn);
      if ind == 0 { return 0; }
      ghost var inodes1, table1, data1, blocks1, logged1 := inodes, table, data, Blocks(), logged;
      addr := MapEntry(ino, ind, bn - NDIRECT);
      ExtendedTrans(old(inodes), old(table), old(data), inodes1, table1, data1, inodes, table, data);
      EntryTouched(bmapstart, old(inodes), old(table), inodes, table, ino, bn);
      CoveredTrans(bmapstart, old(Blocks()), blocks1, Blocks(), logged1, logged);
      OnlyInTrans(old(inodes), old(table), inodes1, table1, inodes, table, ino, bn, bn, bn);
    }

    /** bmap on a block number in the inode: a direct block, or the indirect block. */
    method MapSlot(ino: nat, i: nat, ghost bn: nat) returns (addr: nat)
      requires Valid() && ino < |inodes| && i <= NDIRECT && (i < NDIRECT ==> bn == i)
      modifies `bitmap, `data, `table, `inodes, `owner, `logged
      ensures addr == 0 ==> Full(bitmap, size)
      ensures Valid() && Target(inodes, table, SlotUse(ino, i)) == addr
              && Extended(old(inodes), old(table), old(data), inodes, table, data)
      ensures var was := Target(old(inodes), old(table), SlotUse(ino, i));
              if was != 0 || addr == 0 then
                inodes == old(inodes) && table == old(table) && data == old(data) && bitmap == old(bitmap)
                  && logged == old(logged)
              else logged == old(logged) + {BBlock(bmapstart, addr), addr}
      ensures Covered(bmapstart, old(Blocks()), Blocks(), logged)
      ensures forall k :: 0 <= k < |inodes| && k != ino ==> inodes[k] == old(inodes)[k]
      ensures OnlyIn(old(inodes), old(table), inodes, table, ino, bn, bn)
    {
      hide OwnOk, UsedOk, DiskOk, InodesOk, Extended, Used, BitmapOk, Mark, BBlock, Full, Covered, OnlyIn;
      ExtendedSelf(inodes, table, data);
      OnlyInSelf(inodes, table, ino, bn, bn);
      CoveredSelf(bmapstart, Blocks(), logged);
      InodeAt(inodes, ino);
      addr := inodes[ino].addrs[i];
      if addr == 0 {
        addr := Balloc();
        if addr == 0 { return; }
        ghost var inodes' := inodes[ino := inodes[ino].(addrs := inodes[ino].addrs[i := addr])];
        SlotMoved(inodes, old(table), owner, size, reserved, old(bitmap), ino, i, addr);
        DiskZero(old(data), old(table), size, addr);
        Attach(inodes, old(table), old(data), old(bitmap), size, owner, reserved, inodes', table, SlotUse(ino, i),
               addr);
        AllocCovered(bmapstart, old(Blocks()), size, addr, logged);
        MovedIn(inodes, old(table), inodes', table, SlotUse(ino, i), addr, ino, bn);
        owner := owner[addr := SlotUse(ino, i)];
        inodes := inodes[ino := inodes[ino].(addrs := inodes[ino].addrs[i := addr])];
      }
    }

    /** bmap on entry j of the indirect block. */
    method MapEntry(ino: nat, ind: nat, j: nat) returns (addr: nat)
      requires Valid() && ino < |inodes| && j < NINDIRECT && ind != 0 && Target(inodes, table, Indirect(ino)) == ind
      modifies `bitmap, `data, `table, `owner, `logged
      ensures addr == 0 ==> Full(bitmap, size)
      ensures Valid() && Target(inodes, table, Entry(ino, j)) == addr && Target(inodes, table, Indirect(ino)) == ind
      ensures Extended(inodes, old(table), old(data), inodes, table, data)
      ensures var was := Target(inodes, old(table), Entry(ino, j));
              if was != 0 || addr == 0 then
                table == old(table) && data == old(data) && bitmap == old(bitmap) && logged == old(logged)
              else logged == old(logged) + {BBlock(bmapstart, addr), addr, ind}
      ensures Covered(bmapstart, old(Blocks()), Blocks(), logged)
      ensures OnlyIn(inodes, old(table), inodes, table, ino, j + NDIRECT, j + NDIRECT)
    {
      hide OwnOk, UsedOk, DiskOk, InodesOk, Extended, Used, BitmapOk, Mark, BBlock, Full, Covered, OnlyIn;
      ExtendedSelf(inodes, table, data);
      OnlyInSelf(inodes, table, ino, j + NDIRECT, j + NDIRECT);
      CoveredSelf(bmapstart, Blocks(), logged);
      InodeAt(inodes, ino);
      IndirectIn(inodes, table, data, owner, bitmap, size, reserved, ino);
      addr := table[ind][j];
      if addr == 0 {
        addr := Balloc();
        if addr != 0 {
          EntryMoved(inodes, old(table), owner, size, reserved, old(bitmap), ino, j, addr);
          DiskZero(old(data), old(table), size, addr);
          DiskSet(data, table, size, ind, j, addr);
          ghost var table' := table[ind := SetWord(table[ind], j, addr)];
          Attach(inodes, old(table), old(data), old(bitmap), size, owner, reserved, inodes, table', Entry(ino, j),
                 addr);
          AllocCovered(bmapstart, old(Blocks()), size, addr, logged);
          WordCovered(bmapstart, old(Blocks()), Blocks(), ind, SetWord(table[ind], j, addr), logged, logged + {ind});
          MovedIn(inodes, old(table), inodes, table', Entry(ino, j), addr, ino, j + NDIRECT);
          owner := owner[addr := Entry(ino, j)];
          table := table[ind := SetWord(table[ind], j, addr)];
          logged := logged + {ind};
        }
      }
    }

    /** itrunc: exactly the blocks of the inode become free; bfree never finds one free already. */
    method Itrunc(ino: nat)
      requires Valid() && ino < |inodes|
      modifies `bitmap, `inodes, `owner, `logged
      ensures Valid() && inodes == old(inodes)[ino := Inode(NO_ADDRS, 0)]
      ensures OnlyLost(old(owner), owner, ino) && forall b :: b in owner ==> owner[b].ino != ino
      ensures old(logged) <= logged && Covered(bmapstart, old(Blocks()), Blocks(), logged)
      ensures InodesCovered(inodestart, old(inodes), inodes, logged)
    {
      hide OwnOk, UsedOk, DiskOk, Used, BitmapOk, Mark, Target, Covered, IBlock, InodesCovered;
      CoveredSelf(bmapstart, Blocks(), logged);
      var i := 0;
      while i < NDIRECT
        invariant 0 <= i <= NDIRECT && Valid() && OnlyLost(old(owner), owner, ino)
        invariant |inodes| == |old(inodes)| && forall k :: 0 <= k < |inodes| && k != ino ==> inodes[k] == old(inodes)[k]
        invariant forall k :: 0 <= k < i ==> inodes[ino].addrs[k] == 0
        invariant old(logged) <= logged && Covered(bmapstart, old(Blocks()), Blocks(), logged)
      {
        var addr := inodes[ino].addrs[i];
        if addr != 0 {
          ghost var blocks1, logged1 := Blocks(), logged;
          FreeSlot(ino, i, addr);
          CoveredTrans(bmapstart, old(Blocks()), blocks1, Blocks(), logged1, logged);
        }
        i := i + 1;
      }
      var ind := inodes[ino].addrs[NDIRECT];
      ghost var blocks1, logged1 := Blocks(), logged;
      CoveredSelf(bmapstart, Blocks(), logged);
      if ind != 0 {
        FreeIndirect(ino, ind);
      }
      CoveredTrans(bmapstart, old(Blocks()), blocks1, Blocks(), logged1, logged);
      assert inodes[ino].addrs == NO_ADDRS;
      AllGone(inodes, table, owner, ino);
      ghost var inodes1 := inodes;
      inodes := inodes[ino := inodes[ino].(size := 0)];
      assert OwnOk(inodes, table, owner) by { SizeFree(inodes1, table, owner, ino, 0); }
      CoveredMore(bmapstart, old(Blocks()), Blocks(), logged, logged + {IBlock(inodestart, ino)});
      logged := logged + {IBlock(inodestart, ino)};
      InodeCovered(inodestart, old(inodes), inodes, ino, logged);
    }

    /** Free a direct block. */
    method FreeSlot(ino: nat, i: nat, addr: nat)
      requires Valid() && ino < |inodes| && i < NDIRECT && |inodes[ino].addrs| == NDIRECT + 1
               && addr == inodes[ino].addrs[i] != 0
      modifies `bitmap, `inodes, `owner, `logged
      ensures Valid() && inodes == old(inodes)[ino := old(inodes)[ino].(addrs := old(inodes)[ino].addrs[i := 0])]
      ensures OnlyLost(old(owner), owner, ino)
      ensures old(logged) <= logged && Covered(bmapstart, old(Blocks()), Blocks(), logged)
    {
      hide OwnOk, UsedOk, DiskOk, Used, BitmapOk, Mark, Target, Covered, BBlock;
      SlotIs(inodes, table, ino, i);
      OwnedAt(inodes, table, owner, Direct(ino, i));
      UsedDrop(bitmap, size, owner, reserved, addr);
      BitsOk(bitmap, size, owner, reserved);
      Bfree(addr);
      FreeCovered(bmapstart, old(Blocks()), size, addr, logged);
      SlotCleared(inodes, table, ino, i);
      inodes := inodes[ino := inodes[ino].(addrs := inodes[ino].addrs[i := 0])];
      OwnDrop(old(inodes), table, owner, inodes, table, Direct(ino, i));
      owner := owner - {addr};
    }

    /** Free the entries of an indirect block, then the block itself. */
    method FreeIndirect(ino: nat, ind: nat)
      requires Valid() && ino < |inodes| && |inodes[ino].addrs| == NDIRECT + 1 && ind == inodes[ino].addrs[NDIRECT] != 0
      modifies `bitmap, `inodes, `owner, `logged
      ensures Valid() && inodes == old(inodes)[ino := old(inodes)[ino].(addrs := old(inodes)[ino].addrs[NDIRECT := 0])]
      ensures OnlyLost(old(owner), owner, ino)
      ensures old(logged) <= logged && Covered(bmapstart, old(Blocks()), Blocks(), logged)
    {
      hide OwnOk, UsedOk, DiskOk, Used, BitmapOk, Mark, Target, Cleared, Covered, BBlock;
      CoveredSelf(bmapstart, Blocks(), logged);
      IndirectIn(inodes, table, data, owner, bitmap, size, reserved, ino);
      ghost var seen := table;
      NothingCleared(table, ind);
      var j := 0;
      while j < NINDIRECT
        invariant 0 <= j <= NINDIRECT && inodes == old(inodes) && OnlyLost(old(owner), owner, ino)
        invariant OwnOk(inodes, seen, owner) && UsedOk(bitmap, size, owner, reserved) && seen == Cleared(table, ind, j)
        invariant old(logged) <= logged && Covered(bmapstart, old(Blocks()), Blocks(), logged)
      {
        var a := table[ind][j];
        EntryIs(inodes, table, ino, ind, j);
        EntryCleared(inodes, table, owner, ino, ind, j);
        if a != 0 {
          OwnedAt(inodes, seen, owner, Entry(ino, j));
          UsedDrop(bitmap, size, owner, reserved, a);
          BitsOk(bitmap, size, owner, reserved);
          ghost var blocks1, logged1 := Blocks(), logged;
          Bfree(a);
          FreeNext(bmapstart, old(Blocks()), blocks1, size, a, logged1, logged);
        }
        OwnDrop(inodes, seen, owner, inodes, Cleared(table, ind, j + 1), Entry(ino, j));
        DropNothing(inodes, seen, owner);
        owner := if a != 0 then owner - {a} else owner;
        seen := Cleared(table, ind, j + 1);
        j := j + 1;
      }
      SlotIs(inodes, seen, ino, NDIRECT);
      OwnedAt(inodes, seen, owner, Indirect(ino));
      UsedDrop(bitmap, size, owner, reserved, ind);
      BitsOk(bitmap, size, owner, reserved);
      ghost var blocks1, logged1 := Blocks(), logged;
      Bfree(ind);
      FreeNext(bmapstart, old(Blocks()), blocks1, size, ind, logged1, logged);
      IndirectCleared(inodes, table, owner, ino, ind);
      inodes := inodes[ino := inodes[ino].(addrs := inodes[ino].addrs[NDIRECT := 0])];
      OwnDrop(old(inodes), seen, owner, inodes, table, Indirect(ino));
      owner := owner - {ind};
    }
  }

  // ---- no block is shared

  /** Blocks reachable from inodes are pairwise distinct, marked used, and not reserved. */
  lemma OneUse(inodes: seq<Inode>, table: map<nat, seq<nat>>, owner: map<nat, Use>, bitmap: seq<seq<bv8>>, size: nat,
               reserved: set<nat>, u: Use, v: Use)
    requires OwnOk(inodes, table, owner) && UsedOk(bitmap, size, owner, reserved) && Target(inodes, table, u) != 0
    ensures var b := Target(inodes, table, u);
            b < size && BitmapOk(bitmap, size) && Used(bitmap, size, b) && b !in reserved
              && (Target(inodes, table, v) == b ==> v == u)
  {
    hide Target, Used, BitmapOk;
    OwnedAt(inodes, table, owner, u);
    assert Target(inodes, table, v) == Target(inodes, table, u) ==> owner[Target(inodes, table, v)] == v;
  }
}
