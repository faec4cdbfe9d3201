/** A disk on which one chunk of filewrite (kernel/file.c) logs MAXOPBLOCKS blocks, so the bound is reached,
    and on which a write whose source can be read for one byte only reports none and changes one. */
module FullChunk {
  import opened Collections
  import opened BlockMap
  import opened InodeBlocks
  import opened FileData
  import CrashLog

  // ---- the disk: four bitmap blocks with one clear bit each, and a file that ends in its last direct block

  const BLOCKS: nat := 4 * BPB
  const BMAPSTART: nat := 100
  const INODESTART: nat := 200
  const FIRST: nat := 300       // the file's first block, behind the metadata
  const OFF: nat := 11 * BSIZE + 1

  function Bits(): (r: seq<bv8>) { seq(BSIZE - 1, _ => 0xff) + [0x7f] }

  function Bitmap(): (r: seq<seq<bv8>>) { [Bits(), Bits(), Bits(), Bits()] }

  predicate OnDisk(b: nat) { b < BLOCKS }

  /** The same contents in every block. */
  function Fill<T>(x: T): (r: map<nat, T>) { map b: nat | b < BLOCKS && OnDisk(b) :: x }

  function Bytes(): (r: map<nat, seq<bv8>>) { Fill(seq(BSIZE, _ => 0)) }

  function Words(): (r: map<nat, seq<nat>>) { Fill(seq(NINDIRECT, _ => 0)) }

  function Inodes(): (r: seq<Inode>) { [Inode([300, 301, 302, 303, 304, 305, 306, 307, 308, 309, 310, 311, 0], OFF)] }

  function Source(): (r: seq<bv8>) { seq(CHUNK, _ => 1) }

  predicate LastBit(b: nat) { b % BPB == BPB - 1 }

  predicate InFirst(b: nat) { FIRST <= b < FIRST + NDIRECT }

  ghost function Owners(): (r: map<nat, Use>) {
    map b: nat | FIRST <= b < FIRST + NDIRECT && InFirst(b) :: Direct(0, b - FIRST)
  }

  /** Everything that is neither free nor the file's. */
  ghost function Meta(): (r: set<nat>) { set b: nat | b < BLOCKS && !LastBit(b) && !InFirst(b) }

  lemma AllOnes(k: nat)
    requires k < 8
    ensures Has(0xff, k) && (Has(0x7f, k) <==> k != 7)
  {
  }

  lemma LastIs(b: nat)
    ensures LastBit(b) <==> ByteOf(BitIndex(b)) == BSIZE - 1 && BitOf(BitIndex(b)) == 7
  {
  }

  /** The last bit of each bitmap block is clear, and no other. */
  lemma UsedIs(b: nat)
    requires b < BLOCKS
    ensures BitmapOk(Bitmap(), BLOCKS) && (Used(Bitmap(), BLOCKS, b) <==> !LastBit(b))
  {
    LastIs(b);
    InBitmap(Bitmap(), BLOCKS, b);
    AllOnes(BitOf(BitIndex(b)));
    hide Has, ByteOf, BitOf, BitIndex, LastBit;
    assert Bitmap()[BitBlock(b)][ByteOf(BitIndex(b))] == if ByteOf(BitIndex(b)) == BSIZE - 1 then 0x7f else 0xff;
  }

  lemma TargetIs(u: Use)
    ensures Target(Inodes(), Words(), u) == if u.Direct? && u.ino == 0 && u.i < NDIRECT then u.i + FIRST else 0
  {
  }

  lemma StartOk()
    ensures DiskOk(Bytes(), Words(), BLOCKS) && InodesOk(Inodes()) && OwnOk(Inodes(), Words(), Owners())
    ensures UsedOk(Bitmap(), BLOCKS, Owners(), Meta()) && SizesOk(Inodes(), Words())
  {
    forall u: Use
      ensures Target(Inodes(), Words(), u) == if u.Direct? && u.ino == 0 && u.i < NDIRECT then u.i + FIRST else 0
    {
      TargetIs(u);
    }
    assert OwnOk(Inodes(), Words(), Owners()) by { hide Target; }
    assert SizesOk(Inodes(), Words()) by { hide Target; }
    forall b: nat | b < BLOCKS
      ensures BitmapOk(Bitmap(), BLOCKS) && (Used(Bitmap(), BLOCKS, b) <==> b in Owners() || b in Meta())
    {
      UsedIs(b);
    }
  }

  // ---- the disk after a write

  /** A consistent file system in which the file still has its blocks. */
  ghost predicate Later(g: Files, bitmap: seq<seq<bv8>>, owner: map<nat, Use>) {
    && DiskOk(g.data, g.table, BLOCKS) && OwnOk(g.inodes, g.table, owner) && UsedOk(bitmap, BLOCKS, owner, Meta())
    && Grown(Inodes(), Words(), g.inodes, g.table)
  }

  lemma FileBlock(b: nat)
    requires b < BLOCKS && b !in Meta() && !LastBit(b)
    ensures InFirst(b) && Target(Inodes(), Words(), Direct(0, b - FIRST)) == b
  {
  }

  /** A place that was empty has got one of the four free blocks. */
  lemma NewIsLast(g: Files, bitmap: seq<seq<bv8>>, owner: map<nat, Use>, u: Use)
    requires Later(g, bitmap, owner) && Target(Inodes(), Words(), u) == 0 && Target(g.inodes, g.table, u) != 0
    ensures var t := Target(g.inodes, g.table, u); t < BLOCKS && LastBit(t) && t in owner && owner[t] == u
    ensures BitmapOk(bitmap, BLOCKS) && Used(bitmap, BLOCKS, Target(g.inodes, g.table, u))
  {
    hide Target, LastBit, Meta, Inodes, Words, Used, BitmapOk;
    var t := Target(g.inodes, g.table, u);
    if !LastBit(t) {
      FileBlock(t);
    }
  }

  /** And whoever has one of them has got it now. */
  lemma LastIsNew(g: Files, bitmap: seq<seq<bv8>>, owner: map<nat, Use>, b: nat)
    requires Later(g, bitmap, owner) && b < BLOCKS && LastBit(b) && BitmapOk(bitmap, BLOCKS) && Used(bitmap, BLOCKS, b)
    ensures b in owner && Target(g.inodes, g.table, owner[b]) == b && Target(Inodes(), Words(), owner[b]) == 0 && b != 0
  {
    assert b !in Meta() && b >= FIRST + NDIRECT;
    assert b in owner && Target(g.inodes, g.table, owner[b]) == b by { hide Target, LastBit, Meta, Used; }
    TargetIs(owner[b]);
    hide Target, OwnOk, UsedOk, DiskOk;
  }

  /** The places that the chunk can fill. */
  predicate IsNew(u: Use) { u == Indirect(0) || u == Entry(0, 0) || u == Entry(0, 1) || u == Entry(0, 2) }

  lemma DirectOnly(g: Files, u: Use)
    requires u.Direct? && Target(g.inodes, g.table, u) != 0
    ensures u.i < NDIRECT
  {
  }

  lemma NewPlace(g: Files, u: Use)
    requires OnlyIn(Inodes(), Words(), g.inodes, g.table, 0, 11, 14)
    requires Target(Inodes(), Words(), u) == 0 && Target(g.inodes, g.table, u) != 0
    ensures IsNew(u)
  {
    TargetIs(u);
    if u.Direct? { DirectOnly(g, u); }
    hide Target;
  }

  function Free(k: nat): (b: nat) { k * BPB + BPB - 1 }

  lemma FreeIs(k: nat)
    requires k < 4
    ensures Free(k) < BLOCKS && LastBit(Free(k)) && BitBlock(Free(k)) == k
  {
  }

  lemma LastIsFree(b: nat)
    requires b < BLOCKS && LastBit(b)
    ensures b == Free(0) || b == Free(1) || b == Free(2) || b == Free(3)
  {
  }

  lemma OwnerIs(g: Files, bitmap: seq<seq<bv8>>, owner: map<nat, Use>, b: nat)
    requires Later(g, bitmap, owner) && OnlyIn(Inodes(), Words(), g.inodes, g.table, 0, 11, 14)
    requires b < BLOCKS && LastBit(b) && BitmapOk(bitmap, BLOCKS) && Used(bitmap, BLOCKS, b)
    ensures b != 0 && b in owner && IsNew(owner[b]) && Target(g.inodes, g.table, owner[b]) == b
  {
    hide Target, Later, OnlyIn, LastBit, Used, BitmapOk;
    LastIsNew(g, bitmap, owner, b);
    NewPlace(g, owner[b]);
  }

  /** The disk does not fill up before the chunk is written: four blocks for three places. */
  lemma NotFull(g: Files, bitmap: seq<seq<bv8>>, owner: map<nat, Use>, u: Use)
    requires Later(g, bitmap, owner) && OnlyIn(Inodes(), Words(), g.inodes, g.table, 0, 11, 14)
    requires IsNew(u) && Target(g.inodes, g.table, u) == 0
    ensures !Full(bitmap, BLOCKS)
  {
    hide Target, Later, OnlyIn, LastBit, Used, BitmapOk, Free;
    if Full(bitmap, BLOCKS) {
      FreeIs(0);
      FreeIs(1);
      FreeIs(2);
      FreeIs(3);
      OwnerIs(g, bitmap, owner, Free(0));
      OwnerIs(g, bitmap, owner, Free(1));
      OwnerIs(g, bitmap, owner, Free(2));
      OwnerIs(g, bitmap, owner, Free(3));
    }
  }

  // ---- the ten blocks

  ghost predicate Logged(g: Files, bitmap: seq<seq<bv8>>, logged: set<nat>) {
    && Covered(BMAPSTART, Disk(Bitmap(), Bytes(), Words()), Disk(bitmap, g.data, g.table), logged)
    && InodesCovered(INODESTART, Inodes(), g.inodes, logged)
  }

  lemma IsLogged(g: Files, bitmap: seq<seq<bv8>>, logged: set<nat>)
    requires Covered(BMAPSTART, Disk(Bitmap(), Bytes(), Words()), Disk(bitmap, g.data, g.table), logged)
    requires InodesCovered(INODESTART, Inodes(), g.inodes, logged)
    ensures Logged(g, bitmap, logged)
  {
  }

  /** The chunk is in the file. */
  ghost predicate Done(g: Files) {
    && Written(Files(Inodes(), Words(), Bytes()), g, 0, OFF, Source())
    && |g.inodes| == 1 && g.inodes[0].size == OFF + CHUNK && SizesOk(g.inodes, g.table)
  }

  lemma AllMapped(g: Files, u: Use)
    requires Done(g) && IsNew(u)
    ensures Target(g.inodes, g.table, u) != 0
  {
    assert MappedAt(g.inodes, g.table, 0, 12) && MappedAt(g.inodes, g.table, 0, 13)
           && MappedAt(g.inodes, g.table, 0, 14);
    NoIndirect(g.inodes, g.table, 0, 0);
    hide Written, SizesOk, Target;
  }

  /** A bitmap block changes when its free block is taken. */
  lemma BitmapLogged(g: Files, bitmap: seq<seq<bv8>>, logged: set<nat>, k: nat)
    requires Logged(g, bitmap, logged) && k < 4 && Free(k) < BLOCKS
    requires BitmapOk(bitmap, BLOCKS) && Used(bitmap, BLOCKS, Free(k))
    ensures BMAPSTART + k in logged
  {
    FreeIs(k);
    UsedIs(Free(k));
    hide BitSet, LastBit, Free, Bits, MapCovered, InodesCovered, Bytes, Words;
  }

  /** A block that holds a byte of the chunk, and held zeros before. */
  lemma DataLogged(g: Files, bitmap: seq<seq<bv8>>, owner: map<nat, Use>, logged: set<nat>, x: nat)
    requires Later(g, bitmap, owner) && Logged(g, bitmap, logged) && Done(g) && OFF <= x < OFF + CHUNK
    requires Target(g.inodes, g.table, Place(0, Bn(x))) != 0
    ensures Target(g.inodes, g.table, Place(0, Bn(x))) in logged
  {
    var t := Target(g.inodes, g.table, Place(0, Bn(x)));
    InDisk(g, bitmap, BLOCKS, owner, Meta(), Place(0, Bn(x)));
    assert Byte(g, 0, x) == 1 by { hide Byte; }
    ByteIs(g, 0, x);
    hide Target, Place, Byte, Bn, Lo, OwnOk, UsedOk, Written, SizesOk, BitmapCovered, InodesCovered, Grown;
    assert Bytes()[t][Lo(x)] == 0;
  }

  lemma IndirectLogged(g: Files, bitmap: seq<seq<bv8>>, owner: map<nat, Use>, logged: set<nat>)
    requires Later(g, bitmap, owner) && Logged(g, bitmap, logged) && Target(g.inodes, g.table, Entry(0, 0)) != 0
    ensures Target(g.inodes, g.table, Indirect(0)) in logged
  {
    var t := Target(g.inodes, g.table, Indirect(0));
    NoIndirect(g.inodes, g.table, 0, 0);
    assert t in g.table && g.table[t] != [] && g.table[t][0] != 0;
    InDisk(g, bitmap, BLOCKS, owner, Meta(), Indirect(0));
    hide Target, OwnOk, UsedOk, DiskOk, BitmapCovered, InodesCovered, Grown, Bytes;
    assert t in Words() && Words()[t][0] == 0;
  }

  ghost function Frees(): (s: set<nat>) { {Free(0), Free(1), Free(2), Free(3)} }

  lemma NewIs(g: Files, bitmap: seq<seq<bv8>>, owner: map<nat, Use>, u: Use)
    requires Later(g, bitmap, owner) && Done(g) && IsNew(u)
    ensures var t := Target(g.inodes, g.table, u);
            && t != 0 && t < BLOCKS && t in owner && owner[t] == u && BitmapOk(bitmap, BLOCKS)
               && Used(bitmap, BLOCKS, t)
            && t in Frees()
  {
    AllMapped(g, u);
    TargetIs(u);
    hide Target, Later, Done, LastBit, Used, BitmapOk;
    NewIsLast(g, bitmap, owner, u);
    LastIsFree(Target(g.inodes, g.table, u));
  }

  lemma Four(a: nat, b: nat, c: nat, d: nat, s: set<nat>, x: nat)
    requires a in s && b in s && c in s && d in s && |s| == 4 && x in s
    requires a != b && a != c && a != d && b != c && b != d && c != d
    ensures x == a || x == b || x == c || x == d
  {
    if !(x == a || x == b || x == c || x == d) {
      SubsetSize({a, b, c, d, x}, s);
    }
  }

  lemma FreesAre(k: nat)
    requires k < 4
    ensures Free(k) in Frees() && |Frees()| == 4
  {
    assert Frees() == {8191, 16383, 24575, 32767};
  }

  /** The four new blocks are the four that were free. */
  lemma TakesAll(g: Files, bitmap: seq<seq<bv8>>, owner: map<nat, Use>, k: nat)
    requires Later(g, bitmap, owner) && Done(g) && k < 4
    ensures Free(k) < BLOCKS && BitmapOk(bitmap, BLOCKS) && Used(bitmap, BLOCKS, Free(k))
    ensures exists u :: IsNew(u) && Target(g.inodes, g.table, u) == Free(k)
  {
    FreeIs(k);
    hide Target, Later, Done, LastBit, Used, BitmapOk, Free, Frees;
    NewIs(g, bitmap, owner, Indirect(0));
    NewIs(g, bitmap, owner, Entry(0, 0));
    NewIs(g, bitmap, owner, Entry(0, 1));
    NewIs(g, bitmap, owner, Entry(0, 2));
    var a, b := Target(g.inodes, g.table, Indirect(0)), Target(g.inodes, g.table, Entry(0, 0));
    var c, d := Target(g.inodes, g.table, Entry(0, 1)), Target(g.inodes, g.table, Entry(0, 2));
    assert a != b && a != c && a != d && b != c && b != d && c != d;
    FreesAre(k);
    Four(a, b, c, d, Frees(), Free(k));
    var u := if Free(k) == a then Indirect(0) else if Free(k) == b then Entry(0, 0)
             else if Free(k) == c then Entry(0, 1) else Entry(0, 2);
    assert IsNew(u) && Target(g.inodes, g.table, u) == Free(k);
  }

  lemma PlaceAt(j: nat)
    requires j < 3
    ensures var x := (j + NDIRECT) * BSIZE; OFF <= x < OFF + CHUNK && Place(0, Bn(x)) == Entry(0, j)
  {
    Within(j + NDIRECT, 0);
  }

  /** Every new block is logged. */
  lemma NewLogged(g: Files, bitmap: seq<seq<bv8>>, owner: map<nat, Use>, logged: set<nat>, u: Use)
    requires Later(g, bitmap, owner) && Logged(g, bitmap, logged) && Done(g) && IsNew(u)
    ensures Target(g.inodes, g.table, u) in logged
  {
    AllMapped(g, u);
    AllMapped(g, Entry(0, 0));
    hide Target, Later, Done, Logged;
    if u == Indirect(0) {
      IndirectLogged(g, bitmap, owner, logged);
    } else {
      PlaceAt(u.j);
      hide Bn, Place;
      DataLogged(g, bitmap, owner, logged, (u.j + NDIRECT) * BSIZE);
    }
  }

  lemma LastLogged(g: Files, bitmap: seq<seq<bv8>>, owner: map<nat, Use>, logged: set<nat>)
    requires Later(g, bitmap, owner) && Logged(g, bitmap, logged) && Done(g)
    ensures FIRST + 11 in logged && INODESTART in logged
  {
    assert Holds(0, 0);
    assert INODESTART in logged by { hide Covered; }
    TargetIs(Direct(0, 11));
    assert Target(g.inodes, g.table, Direct(0, 11)) == FIRST + 11 by { hide Target; }
    Within(11, 1);
    hide Target, Later, Done, Logged;
    DataLogged(g, bitmap, owner, logged, OFF);
  }

  /** Bitmap, inode, data and indirect blocks. */
  ghost function Ten(): (s: set<nat>) {
    {BMAPSTART, BMAPSTART + 1, BMAPSTART + 2, BMAPSTART + 3, INODESTART, FIRST + 11, Free(0), Free(1), Free(2), Free(3)}
  }

  lemma TenLogged(g: Files, bitmap: seq<seq<bv8>>, owner: map<nat, Use>, logged: set<nat>)
    requires Later(g, bitmap, owner) && Logged(g, bitmap, logged) && Done(g)
    ensures Ten() <= logged
  {
    hide Target, Later, Done, Logged, LastBit, Used, BitmapOk, Free;
    LastLogged(g, bitmap, owner, logged);
    forall k: nat | k < 4 ensures Free(k) in logged && BMAPSTART + k in logged {
      TakesAll(g, bitmap, owner, k);
      BitmapLogged(g, bitmap, logged, k);
      var u :| IsNew(u) && Target(g.inodes, g.table, u) == Free(k);
      NewLogged(g, bitmap, owner, logged, u);
    }
    assert Free(0) in logged && Free(1) in logged && Free(2) in logged && Free(3) in logged;
  }

  lemma TenIs()
    ensures |Ten()| == 10
  {
    assert Ten() == {100, 101, 102, 103, 200, 311, 8191, 16383, 24575, 32767};
  }

  lemma OneFile()
    ensures |Inodes()| == 1
  {
  }

  function Start(): (f: Files) { Files(Inodes(), Words(), Bytes()) }

  lemma BlocksOf(r: nat)
    requires r < CHUNK
    ensures Bn(OFF) == 11 <= Bn(OFF + r) <= 14 == Bn(OFF + CHUNK)
    ensures Place(0, 11) == Direct(0, 11)
    ensures Bn(OFF + r) != 11 ==> IsNew(Place(0, Bn(OFF + r)))
  {
  }

  lemma MappedStays(g: Files, u: Use)
    requires Grown(Inodes(), Words(), g.inodes, g.table)
    ensures Target(Inodes(), Words(), u) != 0 ==> Target(g.inodes, g.table, u) != 0
  {
    hide Target;
  }

  /** The whole chunk is written. */
  lemma Complete(g: Files, bitmap: seq<seq<bv8>>, owner: map<nat, Use>, r: int, failed: bool)
    requires DiskOk(g.data, g.table, BLOCKS) && OwnOk(g.inodes, g.table, owner) && UsedOk(bitmap, BLOCKS, owner, Meta())
    requires SizesOk(g.inodes, g.table)
    requires WriteResult(Start(), g, Full(bitmap, BLOCKS), 0, Source(), OFF, CHUNK, r, failed)
    requires r >= 0 ==> Allocated(Start(), g, 0, OFF, CHUNK, r, failed)
    ensures Later(g, bitmap, owner) && Done(g) && !failed
  {
    hide DiskOk, OwnOk, UsedOk, SizesOk, Target, Place, Bn, Lo, Written, Full, Grown, OnlyIn, Words, Bytes, IsNew;
    BlocksOf(0);
    assert !failed && r >= 0;
    if r < CHUNK {
      BlocksOf(r);
      TargetIs(Direct(0, 11));
      MappedStays(g, Direct(0, 11));
      NotFull(g, bitmap, owner, Place(0, Bn(OFF + r)));
    }
    assert Source()[..CHUNK] == Source();
  }

  /** No more than ten. */
  lemma AllTen(logged: set<nat>)
    requires Ten() <= logged && |logged| <= 10
    ensures logged == Ten() && |logged| == 10
  {
    TenIs();
    hide Ten;
    forall x | x in logged ensures x in Ten() {
      if x !in Ten() { SubsetSize(Ten() + {x}, logged); }
    }
    SubsetSize(Ten(), logged);
  }

  /** One chunk at an unaligned end of file: it needs three data blocks, the indirect block and a bit in
      each bitmap block, and logs them with the block it starts in and the inode. */
  method TenBlocks() returns (fs: Fs)
    ensures Good(fs) && Later(Now(fs), fs.bitmap, fs.owner) && Done(Now(fs)) && Logged(Now(fs), fs.bitmap, fs.logged)
    ensures fs.logged == Ten() && |fs.logged| == CrashLog.MAXOPBLOCKS
  {
    hide Target, OwnOk, UsedOk, DiskOk, InodesOk, SizesOk, Covered, InodesCovered, Written, Full, Grown, OnlyIn, Later,
         Done, Logged, Bytes, Words, Meta, Owners, Bits, Ten, Lo, WriteResult, Allocated, TornBlock, Inodes, Source;
    StartOk();
    OneFile();
    fs := new Fs.Mount(BLOCKS, BMAPSTART, INODESTART, Bitmap(), Bytes(), Words(), Inodes(), Meta(), Owners());
    var r, failed := WriteChunk(fs, 0, Source(), OFF, CHUNK);
    Complete(Now(fs), fs.bitmap, fs.owner, r, failed);
    NotTorn(Now(fs), 0, OFF + r, fs.logged);
    assert Logged(Now(fs), fs.bitmap, fs.logged) by { IsLogged(Now(fs), fs.bitmap, fs.logged); }
    TenLogged(Now(fs), fs.bitmap, fs.owner, fs.logged);
    TenIs();
    AllTen(fs.logged);
  }

  // ---- a torn write

  lemma NotSafe()
    ensures |Start().inodes| == 1 && Whole(0, 1) == 0 && !CopiesSafely(Start(), 0, [1], 0, BSIZE)
    ensures |Content(Start(), 0)| == OFF && Content(Start(), 0)[0] == 0
  {
    TargetIs(Direct(0, 0));
    var src: seq<bv8> := [1];
    assert src[0] != Byte(Start(), 0, 0 + 0);
  }

  lemma TornEnd(g: Files, full: bool, r: int, failed: bool)
    requires |Start().inodes| == 1 && WriteResult(Start(), g, full, 0, [1], 0, BSIZE, r, failed)
    requires (r >= 0 ==> Allocated(Start(), g, 0, 0, BSIZE, r, failed)) && SizesOk(Start().inodes, Start().table)
    ensures |g.inodes| == 1 && r == 0 && failed
    ensures var was, now := Content(Start(), 0), Content(g, 0);
            |now| == |was| > 0 && was[0] == 0 && now[0] == 1 && now != Promised(was, 0, [])
  {
    hide Written, SizesOk, Allocated, Start, CopiesSafely, Content, Promised, Whole, Lo;
    NotSafe();
    var src: seq<bv8> := [1];
    assert src[..0] == [];
    ContentWritten(Start(), g, full, 0, src, 0, BSIZE, r, failed);
    EndsAt(Start(), g, full, 0, src, 0, BSIZE, r, failed);
    ContentBytes(Start(), g, full, 0, src, 0, BSIZE, r, failed);
  }

  /** writei of a block from an address one byte below a page that cannot be read: it reports no byte, and
      yet the first byte of the file has changed. */
  method TornWrite() returns (fs: Fs, r: int, failed: bool)
    ensures Good(fs) && r == 0 && failed && |fs.inodes| == 1 && |Start().inodes| == 1
    ensures WriteResult(Start(), Now(fs), Full(fs.bitmap, fs.size), 0, [1], 0, BSIZE, r, failed)
    ensures Allocated(Start(), Now(fs), 0, 0, BSIZE, r, failed) && !CopiesSafely(Start(), 0, [1], 0, BSIZE)
    ensures var was, now := Content(Start(), 0), Content(Now(fs), 0);
            |now| == |was| > 0 && was[0] == 0 && now[0] == 1 && now != Promised(was, 0, [])
  {
    hide Target, OwnOk, UsedOk, DiskOk, InodesOk, SizesOk, Covered, InodesCovered, Written, Full, Grown, OnlyIn,
         Bytes, Words, Meta, Owners, Bits, Lo, Allocated, TornBlock, Inodes, CopiesSafely, Content, Promised, Whole,
         WriteResult;
    StartOk();
    OneFile();
    NotSafe();
    fs := new Fs.Mount(BLOCKS, BMAPSTART, INODESTART, Bitmap(), Bytes(), Words(), Inodes(), Meta(), Owners());
    var src: seq<bv8> := [1];
    r, failed := Writei(fs, 0, src, 0, BSIZE);
    TornEnd(Now(fs), Full(fs.bitmap, fs.size), r, failed);
  }
}
