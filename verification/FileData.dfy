/** readi and writei (kernel/fs.c) and filewrite (kernel/file.c): a file is one sequence of bytes. */
module FileData {
  import opened Collections
  import opened BlockMap
  import opened InodeBlocks
  import CrashLog

  const TWO32: nat := 0x1_0000_0000

  const MAXBYTES: nat := MAXFILE * BSIZE

  /** filewrite's chunk: room for the inode, the indirect block and two blocks of slop. */
  const CHUNK: nat := ((CrashLog.MAXOPBLOCKS - 1 - 1 - 2) / 2) * BSIZE

  /** Every block below the size of a file is mapped. */
  ghost predicate MappedAt(inodes: seq<Inode>, table: map<nat, seq<nat>>, ino: nat, bn: nat) {
    ino < |inodes| && bn * BSIZE < inodes[ino].size ==> Target(inodes, table, Place(ino, bn)) != 0
  }

  ghost predicate SizesOk(inodes: seq<Inode>, table: map<nat, seq<nat>>) {
    && (forall i :: 0 <= i < |inodes| ==> inodes[i].size <= MAXBYTES)
    && forall ino: nat, bn: nat :: MappedAt(inodes, table, ino, bn)
  }

  ghost predicate Good(fs: Fs)
    reads fs
  {
    fs.Valid() && SizesOk(fs.inodes, fs.table)
  }

  /** What the contents of files depend on. */
  datatype Files = Files(inodes: seq<Inode>, table: map<nat, seq<nat>>, data: map<nat, seq<bv8>>)

  ghost function Now(fs: Fs): (f: Files)
    reads fs
  {
    Files(fs.inodes, fs.table, fs.data)
  }

  ghost function Byte(f: Files, ino: nat, x: nat): (v: bv8) { ByteAt(f.inodes, f.table, f.data, ino, x) }

  /** The contents of a file. */
  ghost function Content(f: Files, ino: nat): (s: seq<bv8>)
    requires ino < |f.inodes|
    ensures |s| == f.inodes[ino].size && forall x :: 0 <= x < |s| ==> s[x] == Byte(f, ino, x)
  {
    seq(f.inodes[ino].size, x requires 0 <= x => Byte(f, ino, x))
  }

  // ---- offsets

  function Bn(off: nat): (bn: nat) { off / BSIZE }

  function Lo(off: nat): (lo: nat) ensures lo < BSIZE { off % BSIZE }

  lemma OffIs(off: nat)
    ensures off == Bn(off) * BSIZE + Lo(off)
  {
  }

  lemma Within(bn: nat, lo: nat)
    requires lo < BSIZE
    ensures Bn(bn * BSIZE + lo) == bn && Lo(bn * BSIZE + lo) == lo
  {
  }

  /** Offsets in the m bytes from off that stay in one block. */
  lemma InBlock(off: nat, m: nat, x: nat)
    requires off <= x < off + m && m <= BSIZE - Lo(off)
    ensures Bn(x) == Bn(off) && Lo(x) == Lo(off) + (x - off)
  {
    OffIs(off);
    Within(Bn(off), Lo(off) + (x - off));
    hide Bn, Lo;
  }

  function Min(a: nat, b: nat): (m: nat) { if a < b then a else b }

  function Max(a: nat, b: nat): (m: nat) { if a < b then b else a }

  // ---- reading

  lemma ByteIs(f: Files, ino: nat, x: nat)
    ensures var b := Target(f.inodes, f.table, Place(ino, Bn(x)));
            Byte(f, ino, x) == if b != 0 && b in f.data && |f.data[b]| == BSIZE then f.data[b][Lo(x)] else 0
  {
  }

  lemma InDisk(f: Files, bitmap: seq<seq<bv8>>, size: nat, owner: map<nat, Use>, reserved: set<nat>, u: Use)
    requires DiskOk(f.data, f.table, size) && OwnOk(f.inodes, f.table, owner) && UsedOk(bitmap, size, owner, reserved)
    requires Target(f.inodes, f.table, u) != 0
    ensures var b := Target(f.inodes, f.table, u); b < size && b in f.data && |f.data[b]| == BSIZE
  {
    OneUse(f.inodes, f.table, owner, bitmap, size, reserved, u, u);
    hide Target, OwnOk, UsedOk;
  }

  /** A mapped block holds the bytes of the file. */
  lemma BlockBytes(fs: Fs, ino: nat, off: nat, m: nat)
    requires fs.Valid() && Target(fs.inodes, fs.table, Place(ino, Bn(off))) != 0 && m <= BSIZE - Lo(off)
    ensures var b := Target(fs.inodes, fs.table, Place(ino, Bn(off)));
            && b in fs.data && |fs.data[b]| == BSIZE
            && var piece := fs.data[b][Lo(off)..Lo(off) + m];
               forall k :: 0 <= k < m ==> piece[k] == Byte(Now(fs), ino, off + k)
  {
    var u := Place(ino, Bn(off));
    var b := Target(fs.inodes, fs.table, u);
    InDisk(Now(fs), fs.bitmap, fs.size, fs.owner, fs.reserved, u);
    hide OwnOk, UsedOk, DiskOk, InodesOk, Target, Place, Bn, Lo, Byte;
    var piece := fs.data[b][Lo(off)..Lo(off) + m];
    forall k | 0 <= k < m ensures piece[k] == Byte(Now(fs), ino, off + k) {
      InBlock(off, m, off + k);
      ByteIs(Now(fs), ino, off + k);
    }
  }

  /** A byte below the size lies in a mapped block. */
  lemma Below(inodes: seq<Inode>, table: map<nat, seq<nat>>, ino: nat, off: nat)
    requires SizesOk(inodes, table) && ino < |inodes| && off < inodes[ino].size
    ensures Bn(off) < MAXFILE && Target(inodes, table, Place(ino, Bn(off))) != 0
  {
    OffIs(off);
    assert MappedAt(inodes, table, ino, Bn(off));
  }

  /** How many bytes readi means to copy. */
  function ReadLength(size: nat, off: nat, n: nat): (k: nat) {
    if off > size || off + n >= TWO32 then 0 else Min(n, size - off)
  }

  /** readi: the bytes of the file from off on, as many as asked for and as there are. room is how much
      of the destination can be written; -1 exactly when that is too little. It is called outside
      transactions, and indeed changes nothing. */
  method Readi(fs: Fs, ino: nat, off0: nat, n0: nat, room: nat) returns (r: int, dst: seq<bv8>)
    requires Good(fs) && ino < |fs.inodes| && off0 < TWO32 && n0 < TWO32
    modifies fs`bitmap, fs`data, fs`table, fs`inodes, fs`owner, fs`logged
    ensures Good(fs) && Now(fs) == old(Now(fs)) && fs.bitmap == old(fs.bitmap) && fs.logged == old(fs.logged)
    ensures r == var want := ReadLength(fs.inodes[ino].size, off0, n0); if room < want then -1 else want
    ensures r >= 0 ==> |dst| == r
    ensures |dst| <= room && (dst != [] ==> off0 + |dst| <= fs.inodes[ino].size)
    ensures dst != [] ==> dst == Content(Now(fs), ino)[off0..off0 + |dst|]
  {
    hide Bn, Lo, Content, Place, Target, Byte, OwnOk, UsedOk, DiskOk, InodesOk, SizesOk, Extended, Covered;
    var off, n, tot := off0, n0, 0;
    r, dst := 0, [];
    if off > fs.inodes[ino].size || (off + n) % TWO32 < off { return; }
    if off + n > fs.inodes[ino].size {
      n := fs.inodes[ino].size - off;
    }
    while tot < n
      invariant 0 <= tot <= n && off == off0 + tot && ino < |fs.inodes| && off0 + n <= fs.inodes[ino].size
      invariant |dst| == tot <= room
      invariant Good(fs) && Now(fs) == old(Now(fs)) && fs.bitmap == old(fs.bitmap) && fs.logged == old(fs.logged)
      invariant forall k :: 0 <= k < tot ==> dst[k] == Byte(Now(fs), ino, off0 + k)
      decreases n - tot
    {
      Below(fs.inodes, fs.table, ino, off);
      var addr := fs.Bmap(ino, Bn(off));
      if addr == 0 { break; }
      var m := Min(n - tot, BSIZE - Lo(off));
      if tot + m > room { return -1, dst; }
      BlockBytes(fs, ino, off, m);
      var piece := fs.data[addr][Lo(off)..Lo(off) + m];
      dst := dst + piece;
      forall k | 0 <= k < tot + m ensures dst[k] == Byte(Now(fs), ino, off0 + k) {
        if k >= tot { assert dst[k] == piece[k - tot]; }
      }
      tot, off := tot + m, off + m;
    }
    r := tot;
  }

  // ---- storing bytes

  /** Exactly the bytes of file ino from off on changed, to the given ones. */
  ghost predicate Written(f: Files, g: Files, ino: nat, off: nat, bytes: seq<bv8>) {
    forall i: nat, x: nat :: Byte(g, i, x) ==
      if i == ino && off <= x < off + |bytes| then bytes[x - off] else Byte(f, i, x)
  }

  /** What a write of k bytes leaves in the file: the first k bytes of src, or, if a copy failed behind
      them, all of src, which is what copyin could read. */
  function Stores(src: seq<bv8>, k: nat, failed: bool): (bytes: seq<bv8>)
    requires k <= |src|
  {
    if failed then src else src[..k]
  }

  ghost predicate Copied(f: Files, g: Files, ino: nat, off: nat, src: seq<bv8>, k: int, failed: bool) {
    0 <= k <= |src| && Written(f, g, ino, off, Stores(src, k, failed))
  }

  lemma WrittenTrans(f: Files, g: Files, h: Files, ino: nat, off: nat, p: seq<bv8>, q: seq<bv8>)
    requires Written(f, g, ino, off, p) && Written(g, h, ino, off + |p|, q)
    ensures Written(f, h, ino, off, p + q)
  {
    hide Byte;
  }

  lemma WrittenSelf(f: Files, ino: nat, off: nat)
    ensures Written(f, f, ino, off, [])
  {
    hide Byte;
  }

  /** Replace the bytes of a block from lo on. */
  function Splice(block: seq<bv8>, lo: nat, piece: seq<bv8>): (r: seq<bv8>)
    requires |block| == BSIZE && lo + |piece| <= BSIZE
    ensures |r| == BSIZE
    ensures forall k :: 0 <= k < BSIZE ==> r[k] == if lo <= k < lo + |piece| then piece[k - lo] else block[k]
  {
    block[..lo] + piece + block[lo + |piece|..]
  }

  lemma SamePlace(i: nat, bn: nat, j: nat, bm: nat)
    requires Place(i, bn) == Place(j, bm)
    ensures i == j && bn == bm
  {
  }

  /** The files after bytes were stored in block b. */
  function Stored(f: Files, b: nat, off: nat, piece: seq<bv8>): (g: Files)
    requires b in f.data && |f.data[b]| == BSIZE && |piece| <= BSIZE - Lo(off)
  {
    f.(data := f.data[b := Splice(f.data[b], Lo(off), piece)])
  }

  /** Storing bytes in the block of a file changes those bytes of that file only. */
  lemma StoreByte(f: Files, owner: map<nat, Use>, ino: nat, off: nat, piece: seq<bv8>, i: nat, x: nat)
    requires OwnOk(f.inodes, f.table, owner) && |piece| <= BSIZE - Lo(off)
    requires var b := Target(f.inodes, f.table, Place(ino, Bn(off))); b != 0 && b in f.data && |f.data[b]| == BSIZE
    ensures var b := Target(f.inodes, f.table, Place(ino, Bn(off)));
            Byte(Stored(f, b, off, piece), i, x) ==
            if i == ino && off <= x < off + |piece| then piece[x - off] else Byte(f, i, x)
  {
    var u := Place(ino, Bn(off));
    var b := Target(f.inodes, f.table, u);
    ByteIs(f, i, x);
    ByteIs(Stored(f, b, off, piece), i, x);
    OwnedAt(f.inodes, f.table, owner, u);
    if i == ino && off <= x < off + |piece| {
      InBlock(off, |piece|, x);
    }
    if Target(f.inodes, f.table, Place(i, Bn(x))) == b {
      OwnedAt(f.inodes, f.table, owner, Place(i, Bn(x)));
      SamePlace(ino, Bn(off), i, Bn(x));
      OffIs(off);
      OffIs(x);
    }
    hide Bn, Lo, Place, Target, Byte, OwnOk;
  }

  lemma StoreWritten(f: Files, owner: map<nat, Use>, ino: nat, off: nat, piece: seq<bv8>)
    requires OwnOk(f.inodes, f.table, owner) && |piece| <= BSIZE - Lo(off)
    requires var b := Target(f.inodes, f.table, Place(ino, Bn(off))); b != 0 && b in f.data && |f.data[b]| == BSIZE
    ensures Written(f, Stored(f, Target(f.inodes, f.table, Place(ino, Bn(off))), off, piece), ino, off, piece)
  {
    hide Bn, Lo, Place, Target, Byte, OwnOk, Stored;
    var b := Target(f.inodes, f.table, Place(ino, Bn(off)));
    forall i: nat, x: nat
      ensures Byte(Stored(f, b, off, piece), i, x) ==
              if i == ino && off <= x < off + |piece| then piece[x - off] else Byte(f, i, x)
    {
      StoreByte(f, owner, ino, off, piece, i, x);
    }
  }

  lemma ExtendedWritten(f: Files, g: Files, ino: nat, off: nat)
    requires Extended(f.inodes, f.table, f.data, g.inodes, g.table, g.data)
    ensures Written(f, g, ino, off, [])
  {
    hide ByteAt, Grown, SameSizes;
  }

  lemma DiskStore(data: map<nat, seq<bv8>>, table: map<nat, seq<nat>>, size: nat, b: nat, block: seq<bv8>)
    requires DiskOk(data, table, size) && |block| == BSIZE
    ensures DiskOk(data[b := block], table, size)
  {
  }

  /** A change of one block's bytes. */
  lemma ByteCovered(bmapstart: nat, a: Disk, b: Disk, c: nat, bytes: seq<bv8>, logged: set<nat>, logged': set<nat>)
    requires Covered(bmapstart, a, b, logged) && logged + {c} <= logged'
    ensures Covered(bmapstart, a, Disk(b.bitmap, b.data[c := bytes], b.table), logged')
  {
  }

  // ---- one turn of writei's loop

  /** The indirect block of a file and the bitmap block of its bit. */
  ghost function IndirectSet(bmapstart: nat, inodes: seq<Inode>, table: map<nat, seq<nat>>, ino: nat): (s: set<nat>) {
    var ind := Target(inodes, table, Indirect(ino));
    if ind == 0 then {} else {ind, BBlock(bmapstart, ind)}
  }

  /** What one turn of writei's loop gives to log_write, besides what belongs to the indirect block:
      the data block, and its bitmap block if it is new. */
  ghost function BlockSet(bmapstart: nat, inodes: seq<Inode>, table: map<nat, seq<nat>>,
                          inodes': seq<Inode>, table': map<nat, seq<nat>>, ino: nat, bn: nat): (s: set<nat>) {
    var b := Target(inodes', table', Place(ino, bn));
    if b == 0 then {}
    else if Fresh(inodes, table, inodes', table', Place(ino, bn)) then {b, BBlock(bmapstart, b)}
    else {b}
  }

  lemma TouchedIn(bmapstart: nat, inodes: seq<Inode>, table: map<nat, seq<nat>>,
                  inodes': seq<Inode>, table': map<nat, seq<nat>>, ino: nat, bn: nat)
    ensures Touched(bmapstart, inodes, table, inodes', table', ino, bn) <=
            BlockSet(bmapstart, inodes, table, inodes', table', ino, bn) + IndirectSet(bmapstart, inodes', table', ino)
  {
    hide BBlock;
  }

  /** The block of a failed copy: its bytes changed in the cache and are in no transaction. */
  ghost function TornBlock(f: Files, ino: nat, off: int, torn: bool): (s: set<nat>) {
    if torn && off >= 0 then {Target(f.inodes, f.table, Place(ino, Bn(off)))} else {}
  }

  lemma NotTorn(f: Files, ino: nat, off: int, logged: set<nat>)
    ensures TornBlock(f, ino, off, false) == {} && logged + TornBlock(f, ino, off, false) == logged
  {
  }

  /** A moment of a write: the files, the other blocks of the disk and what is logged. */
  datatype Moment = Moment(files: Files, disk: Disk, logged: set<nat>)

  ghost function Here(fs: Fs): (s: Moment)
    reads fs
  {
    Moment(Now(fs), fs.Blocks(), fs.logged)
  }

  /** What one turn of writei's loop does from g to h: the block is mapped if the disk is not full, and
      then exactly the bytes of the file from off on change, to the piece. Everything that changed is
      logged, but for the block of a failed copy, and only what belongs to this block is. */
  ghost predicate Turned(bmapstart: nat, g: Moment, h: Moment, ino: nat, off: nat, piece: seq<bv8>, mapped: bool,
                         copied: bool) {
    && SameSizes(g.files.inodes, h.files.inodes)
    && Grown(g.files.inodes, g.files.table, h.files.inodes, h.files.table)
    && (mapped <==> Target(h.files.inodes, h.files.table, Place(ino, Bn(off))) != 0)
    && Written(g.files, h.files, ino, off, if mapped then piece else [])
    && g.logged <= h.logged
    && h.logged <= g.logged + IndirectSet(bmapstart, h.files.inodes, h.files.table, ino)
                   + BlockSet(bmapstart, g.files.inodes, g.files.table, h.files.inodes, h.files.table, ino, Bn(off))
    && Covered(bmapstart, g.disk, h.disk, h.logged + TornBlock(h.files, ino, off, mapped && !copied && piece != []))
    && (forall i :: 0 <= i < |h.files.inodes| && i != ino ==> h.files.inodes[i] == g.files.inodes[i])
    && OnlyIn(g.files.inodes, g.files.table, h.files.inodes, h.files.table, ino, Bn(off), Bn(off))
  }

  /** One turn of writei's loop: map the block, let either_copyin store the bytes, log it. If the copy
      fails, piece is what it could read, and the block is not logged for it. */
  method WriteBlock(fs: Fs, ino: nat, off: nat, piece: seq<bv8>, copied: bool) returns (mapped: bool)
    requires fs.Valid() && ino < |fs.inodes| && Bn(off) < MAXFILE && |piece| <= BSIZE - Lo(off)
    modifies fs`bitmap, fs`data, fs`table, fs`inodes, fs`owner, fs`logged
    ensures fs.Valid() && |fs.inodes| == |old(fs.inodes)| && (!mapped ==> Full(fs.bitmap, fs.size))
    ensures Turned(fs.bmapstart, old(Here(fs)), Here(fs), ino, off, piece, mapped, copied)
  {
    hide Bn, Lo, Place, Target, Byte, OwnOk, UsedOk, DiskOk, InodesOk, Touched, IndirectSet, BBlock, Full, Grown, Fresh,
         Covered, Written, SameBytes, OnlyIn;
    var addr := fs.Bmap(ino, Bn(off));
    TouchedIn(fs.bmapstart, old(fs.inodes), old(fs.table), fs.inodes, fs.table, ino, Bn(off));
    ExtendedWritten(old(Now(fs)), Now(fs), ino, off);
    if addr == 0 {
      CoveredMore(fs.bmapstart, old(fs.Blocks()), fs.Blocks(), fs.logged, fs.logged + {});
      return false;
    }
    InDisk(Now(fs), fs.bitmap, fs.size, fs.owner, fs.reserved, Place(ino, Bn(off)));
    ghost var files := Now(fs);
    StoreWritten(files, fs.owner, ino, off, piece);
    DiskStore(fs.data, fs.table, fs.size, addr, Splice(fs.data[addr], Lo(off), piece));
    ByteCovered(fs.bmapstart, old(fs.Blocks()), fs.Blocks(), addr, Splice(fs.data[addr], Lo(off), piece), fs.logged,
                fs.logged + {addr});
    fs.data := fs.data[addr := Splice(fs.data[addr], Lo(off), piece)];
    assert Now(fs) == Stored(files, addr, off, piece);
    WrittenTrans(old(Now(fs)), files, Now(fs), ino, off, [], piece);
    assert [] + piece == piece;
    if copied {
      fs.logged := fs.logged + {addr};
      assert fs.logged + {} == fs.logged;
    } else if piece == [] {
      assert Splice(files.data[addr], Lo(off), piece) == files.data[addr];
      assert fs.data == files.data;
      assert fs.logged + {} == fs.logged;
    }
    mapped := true;
  }

  // ---- counting logged blocks

  /** The blocks that n bytes from off touch. */
  function Spans(off: nat, n: nat): (k: nat) {
    if n == 0 then 0 else (off + n - 1) / BSIZE - off / BSIZE + 1
  }

  /** How many blocks a write may give to log_write: the data blocks, a bitmap block for each of them
      that can be new, the indirect block with its bitmap block, and the inode. A write that starts
      inside a block starts in a mapped one. */
  function LogBound(off: nat, n: nat): (k: int) {
    Spans(off, n) + (if off % BSIZE != 0 && n > 0 then Spans(off, n) - 1 else Spans(off, n)) + 3
  }

  lemma DivAdd(q: nat, x: nat)
    ensures (BSIZE * q + x) / BSIZE == q + x / BSIZE
  {
  }

  lemma SpanOf(q: nat, r: nat, n: nat)
    requires r < BSIZE && n > 0
    ensures Spans(BSIZE * q + r, n) == (r + n - 1) / BSIZE + 1
  {
    DivAdd(q, r + n - 1);
    DivAdd(q, r);
  }

  /** A chunk of filewrite fits a transaction. */
  lemma ChunkFits(off: nat, n: nat)
    requires n <= CHUNK
    ensures LogBound(off, n) <= CrashLog.MAXOPBLOCKS
  {
    var q, r := off / BSIZE, off % BSIZE;
    assert off == BSIZE * q + r;
    if n > 0 {
      SpanOf(q, r, n);
    }
  }

  /** The blocks logged so far: it data blocks, some of them new, and those of the indirect block. */
  ghost predicate Logged(logged0: set<nat>, logged: set<nat>, d: set<nat>, b: set<nat>, ind: set<nat>, it: nat,
                         grew: nat) {
    logged <= logged0 + d + b + ind && |d| <= it && |b| <= grew && |ind| <= 2
  }

  lemma UnionSize(a: set<nat>, b: set<nat>)
    ensures |a + b| <= |a| + |b|
  {
    assert a + b == a + (b - a);
    SubsetSize(b - a, b);
  }

  lemma LoggedCount(logged0: set<nat>, logged: set<nat>, d: set<nat>, b: set<nat>, ind: set<nat>, it: nat, grew: nat)
    requires Logged(logged0, logged, d, b, ind, it, grew)
    ensures |logged| <= |logged0| + it + grew + 2
  {
    SubsetSize(logged, logged0 + d + b + ind);
    UnionSize(logged0, d);
    UnionSize(logged0 + d, b);
    UnionSize(logged0 + d + b, ind);
  }

  /** Another turn of the loop. */
  lemma LoggedNext(bmapstart: nat, logged0: set<nat>, logged: set<nat>, logged': set<nat>, d: set<nat>, b: set<nat>,
                   it: nat, grew: nat, inodes: seq<Inode>, table: map<nat, seq<nat>>,
                   inodes': seq<Inode>, table': map<nat, seq<nat>>, ino: nat, bn: nat)
    returns (d': set<nat>, b': set<nat>, grew': nat)
    requires Logged(logged0, logged, d, b, IndirectSet(bmapstart, inodes, table, ino), it, grew)
    requires Grown(inodes, table, inodes', table')
    requires logged' <= logged + IndirectSet(bmapstart, inodes', table', ino)
                        + BlockSet(bmapstart, inodes, table, inodes', table', ino, bn)
    ensures Logged(logged0, logged', d', b', IndirectSet(bmapstart, inodes', table', ino), it + 1, grew')
    ensures grew' == if Fresh(inodes, table, inodes', table', Place(ino, bn)) then grew + 1 else grew
  {
    hide Place, BBlock, Target;
    assert IndirectSet(bmapstart, inodes, table, ino) <= IndirectSet(bmapstart, inodes', table', ino);
    var a := Target(inodes', table', Place(ino, bn));
    d' := d + {a};
    b' := if Fresh(inodes, table, inodes', table', Place(ino, bn)) then b + {BBlock(bmapstart, a)} else b;
    grew' := if Fresh(inodes, table, inodes', table', Place(ino, bn)) then grew + 1 else grew;
    assert BlockSet(bmapstart, inodes, table, inodes', table', ino, bn) <= d' + b';
  }

  lemma LoggedStop(bmapstart: nat, logged0: set<nat>, logged: set<nat>, logged': set<nat>, d: set<nat>, b: set<nat>,
                   it: nat, grew: nat, inodes: seq<Inode>, table: map<nat, seq<nat>>,
                   inodes': seq<Inode>, table': map<nat, seq<nat>>, ino: nat, bn: nat)
    requires Logged(logged0, logged, d, b, IndirectSet(bmapstart, inodes, table, ino), it, grew)
    requires Grown(inodes, table, inodes', table') && Target(inodes', table', Place(ino, bn)) == 0
    requires logged' <= logged + IndirectSet(bmapstart, inodes', table', ino)
                        + BlockSet(bmapstart, inodes, table, inodes', table', ino, bn)
    ensures Logged(logged0, logged', d, b, IndirectSet(bmapstart, inodes', table', ino), it, grew)
  {
    hide Place, BBlock, Target;
    assert IndirectSet(bmapstart, inodes, table, ino) <= IndirectSet(bmapstart, inodes', table', ino);
  }

  // ---- writei

  predicate StartsBefore(bn: nat, off: nat) { bn * BSIZE < off }

  /** All blocks of the file that start before off are mapped. */
  ghost predicate MappedTo(inodes: seq<Inode>, table: map<nat, seq<nat>>, ino: nat, off: nat) {
    forall bn: nat :: StartsBefore(bn, off) ==> Target(inodes, table, Place(ino, bn)) != 0
  }

  lemma MappedStart(inodes: seq<Inode>, table: map<nat, seq<nat>>, ino: nat, off: nat)
    requires SizesOk(inodes, table) && ino < |inodes| && off <= inodes[ino].size
    ensures MappedTo(inodes, table, ino, off)
  {
    hide Target, Place;
    forall bn: nat | StartsBefore(bn, off) ensures Target(inodes, table, Place(ino, bn)) != 0 {
      assert MappedAt(inodes, table, ino, bn);
    }
  }

  lemma MappedNext(inodes: seq<Inode>, table: map<nat, seq<nat>>, inodes': seq<Inode>, table': map<nat, seq<nat>>,
                   ino: nat, off: nat, m: nat)
    requires MappedTo(inodes, table, ino, off) && Grown(inodes, table, inodes', table')
    requires Target(inodes', table', Place(ino, Bn(off))) != 0 && m <= BSIZE - Lo(off)
    ensures MappedTo(inodes', table', ino, off + m)
  {
    OffIs(off);
    hide Target, Place, Bn, Lo;
    forall bn: nat | StartsBefore(bn, off + m) ensures Target(inodes', table', Place(ino, bn)) != 0 {
      if bn != Bn(off) { assert StartsBefore(bn, off); }
    }
  }

  lemma MappedKeep(inodes: seq<Inode>, table: map<nat, seq<nat>>, inodes': seq<Inode>, table': map<nat, seq<nat>>,
                   ino: nat, off: nat)
    requires MappedTo(inodes, table, ino, off) && Grown(inodes, table, inodes', table')
    ensures MappedTo(inodes', table', ino, off)
  {
    hide Target, Place;
  }

  /** An unaligned write starts in a mapped block. */
  lemma FirstMapped(inodes: seq<Inode>, table: map<nat, seq<nat>>, ino: nat, off: nat)
    requires MappedTo(inodes, table, ino, off) && Lo(off) != 0
    ensures Target(inodes, table, Place(ino, Bn(off))) != 0
  {
    OffIs(off);
    assert StartsBefore(Bn(off), off);
  }

  lemma GrownTrans(inodes0: seq<Inode>, table0: map<nat, seq<nat>>, inodes1: seq<Inode>, table1: map<nat, seq<nat>>,
                   inodes2: seq<Inode>, table2: map<nat, seq<nat>>)
    requires Grown(inodes0, table0, inodes1, table1) && Grown(inodes1, table1, inodes2, table2)
    requires SameSizes(inodes0, inodes1) && SameSizes(inodes1, inodes2)
    ensures Grown(inodes0, table0, inodes2, table2) && SameSizes(inodes0, inodes2) && |inodes2| == |inodes0|
  {
    hide Target;
  }

  /** The loop counter against the blocks of the write. */
  ghost predicate Turns(off0: nat, n: nat, tot: nat, it: nat, grew: nat) {
    && tot <= n && (it == 0 <==> tot == 0) && it <= Spans(off0, n)
    && (it > 0 && tot < n ==> off0 + tot == (Bn(off0) + it) * BSIZE)
    && grew <= it && (it > 0 && Lo(off0) != 0 ==> grew < it)
  }

  lemma Monotone(a: nat, b: nat)
    requires a <= b
    ensures Bn(a) <= Bn(b)
  {
  }

  lemma SpansIs(off: nat, n: nat)
    requires n > 0
    ensures Spans(off, n) == Bn(off + n - 1) - Bn(off) + 1
  {
  }

  lemma NextTurn(off0: nat, n: nat, tot: nat, it: nat, grew: nat, m: nat, grew': nat)
    requires Turns(off0, n, tot, it, grew) && tot < n && m == Min(n - tot, BSIZE - Lo(off0 + tot))
    requires grew' == grew || (grew' == grew + 1 && (it == 0 ==> Lo(off0) == 0))
    ensures Turns(off0, n, tot + m, it + 1, grew') && m > 0 && (tot + m < n ==> Lo(off0 + tot + m) == 0)
  {
    OffIs(off0);
    OffIs(off0 + tot);
    if it > 0 { Within(Bn(off0) + it, 0); }
    OffIs(off0 + n - 1);
    assert Bn(off0 + tot) == Bn(off0) + it;
    assert Bn(off0 + tot) <= Bn(off0 + n - 1) by { Monotone(off0 + tot, off0 + n - 1); }
    Within(Bn(off0 + tot) + 1, 0);
    hide Bn, Lo;
    SpansIs(off0, n);
  }

  lemma TurnsStart(off0: nat, n: nat)
    ensures LogBound(off0, n) >= 3 && Turns(off0, n, 0, 0, 0)
  {
    if n > 0 {
      SpansIs(off0, n);
      Monotone(off0, off0 + n - 1);
    }
  }

  lemma TurnsBound(off0: nat, n: nat, tot: nat, it: nat, grew: nat)
    requires Turns(off0, n, tot, it, grew)
    ensures it + grew + 3 <= LogBound(off0, n)
  {
  }

  lemma InFile(off: nat)
    requires off < MAXBYTES
    ensures Bn(off) < MAXFILE
  {
  }

  /** A block can only be new if the write does not start inside it. */
  lemma FreshIs(inodes: seq<Inode>, table: map<nat, seq<nat>>, inodes': seq<Inode>, table': map<nat, seq<nat>>,
                ino: nat,
                off0: nat, off: nat, tot: nat, it: nat, grew: nat, n: nat)
    requires MappedTo(inodes, table, ino, off) && off == off0 + tot && Turns(off0, n, tot, it, grew)
    ensures it == 0 && Fresh(inodes, table, inodes', table', Place(ino, Bn(off))) ==> Lo(off0) == 0
  {
    if Lo(off) != 0 { FirstMapped(inodes, table, ino, off); }
  }

  lemma WriteStart(fs: Fs, ino: nat, off0: nat)
    requires SizesOk(fs.inodes, fs.table) && ino < |fs.inodes| && off0 <= fs.inodes[ino].size
    ensures SameSizes(fs.inodes, fs.inodes) && Grown(fs.inodes, fs.table, fs.inodes, fs.table)
    ensures MappedTo(fs.inodes, fs.table, ino, off0) && Written(Now(fs), Now(fs), ino, off0, [])
    ensures Logged(fs.logged, fs.logged, {}, {}, IndirectSet(fs.bmapstart, fs.inodes, fs.table, ino), 0, 0)
    ensures Covered(fs.bmapstart, fs.Blocks(), fs.Blocks(), fs.logged)
  {
    MappedStart(fs.inodes, fs.table, ino, off0);
    WrittenSelf(Now(fs), ino, off0);
    CoveredSelf(fs.bmapstart, fs.Blocks(), fs.logged);
    hide Target, Place, Written, BBlock, Covered;
  }

  /** The block map does not look at sizes. */
  lemma SizeBlind(inodes: seq<Inode>, table: map<nat, seq<nat>>, ino: nat, size: nat)
    requires ino < |inodes|
    ensures forall v: Use :: Target(inodes[ino := inodes[ino].(size := size)], table, v) == Target(inodes, table, v)
  {
  }

  function Resized(f: Files, ino: nat, size: nat): (g: Files)
    requires ino < |f.inodes|
  {
    f.(inodes := f.inodes[ino := f.inodes[ino].(size := size)])
  }

  lemma EndMapped(f: Files, g: Files, ino: nat, off: nat)
    requires SizesOk(f.inodes, f.table) && ino < |f.inodes| && off <= MAXBYTES
    requires SameSizes(f.inodes, g.inodes) && Grown(f.inodes, f.table, g.inodes, g.table)
             && MappedTo(g.inodes, g.table, ino, off)
    ensures SizesOk(g.inodes, g.table) && SizesOk(Resized(g, ino, off).inodes, g.table)
  {
    var inodes2 := Resized(g, ino, off).inodes;
    SizeBlind(g.inodes, g.table, ino, off);
    hide Target, Place;
    forall i: nat, bn: nat ensures MappedAt(g.inodes, g.table, i, bn) && MappedAt(inodes2, g.table, i, bn) {
      assert MappedAt(f.inodes, f.table, i, bn);
      assert Target(inodes2, g.table, Place(i, bn)) == Target(g.inodes, g.table, Place(i, bn));
      if StartsBefore(bn, off) { assert Target(g.inodes, g.table, Place(ino, bn)) != 0; }
    }
  }

  lemma EndBytes(f: Files, g: Files, ino: nat, off: nat, bytes: seq<bv8>, size: nat)
    requires ino < |g.inodes| && Written(f, g, ino, off, bytes)
    ensures Written(f, Resized(g, ino, size), ino, off, bytes)
  {
    SizeBlind(g.inodes, g.table, ino, size);
    hide Target, Place;
    forall i: nat, x: nat ensures Byte(Resized(g, ino, size), i, x) == Byte(g, i, x) { }
    hide Byte;
  }

  /** What was mapped stays mapped, only blocks of the write and the indirect block are new, and if the
      loop stopped on a full disk and not at a failed copy, the next block is missing. */
  ghost predicate Allocated(f: Files, g: Files, ino: nat, off: nat, n: nat, tot: nat, failed: bool) {
    && Grown(f.inodes, f.table, g.inodes, g.table)
    && OnlyIn(f.inodes, f.table, g.inodes, g.table, ino, Bn(off), Bn(off + n))
    && (tot < n ==> (failed <==> Target(g.inodes, g.table, Place(ino, Bn(off + tot))) != 0))
  }

  lemma EndAllocated(f: Files, g: Files, ino: nat, off: nat, n: nat, tot: nat, failed: bool, size: nat)
    requires ino < |g.inodes| && Allocated(f, g, ino, off, n, tot, failed)
    ensures Allocated(f, Resized(g, ino, size), ino, off, n, tot, failed)
  {
    SizeBlind(g.inodes, g.table, ino, size);
    hide Target, Place, Bn;
  }

  lemma WriteEnd(f: Files, g: Files, owner: map<nat, Use>, ino: nat, off0: nat, tot: nat, bytes: seq<bv8>, torn: bool)
    requires SizesOk(f.inodes, f.table) && ino < |f.inodes| && off0 + tot <= MAXBYTES
    requires SameSizes(f.inodes, g.inodes) && Grown(f.inodes, f.table, g.inodes, g.table)
    requires MappedTo(g.inodes, g.table, ino, off0 + tot)
    requires Written(f, g, ino, off0, bytes) && OwnOk(g.inodes, g.table, owner) && InodesOk(g.inodes)
    ensures SizesOk(g.inodes, g.table)
    ensures var h := Resized(g, ino, off0 + tot);
            && SizesOk(h.inodes, h.table) && OwnOk(h.inodes, h.table, owner) && InodesOk(h.inodes)
            && Written(f, h, ino, off0, bytes)
            && TornBlock(h, ino, off0 + tot, torn) == TornBlock(g, ino, off0 + tot, torn)
  {
    SizeFree(g.inodes, g.table, owner, ino, off0 + tot);
    SizeBlind(g.inodes, g.table, ino, off0 + tot);
    hide Target, Place, OwnOk, Written, MappedTo, Grown, SizesOk, Byte, Bn;
    EndMapped(f, g, ino, off0 + tot);
    EndBytes(f, g, ino, off0, bytes, off0 + tot);
  }

  /** The block maps after some turns of the loop of a write. */
  ghost predicate Extends(f: Files, g: Files, ino: nat, off: nat, n: nat) {
    && SameSizes(f.inodes, g.inodes) && Grown(f.inodes, f.table, g.inodes, g.table)
    && OnlyIn(f.inodes, f.table, g.inodes, g.table, ino, Bn(off), Bn(off + n))
    && forall i :: 0 <= i < |g.inodes| && i != ino ==> g.inodes[i] == f.inodes[i]
  }

  lemma ExtendsSelf(f: Files, ino: nat, off: nat, n: nat)
    ensures Extends(f, f, ino, off, n)
  {
    hide Target, Bn;
  }

  lemma ExtendsNext(f: Files, g: Files, h: Files, ino: nat, off: nat, n: nat, at: nat)
    requires Extends(f, g, ino, off, n) && off <= at < off + n
    requires SameSizes(g.inodes, h.inodes) && Grown(g.inodes, g.table, h.inodes, h.table)
    requires OnlyIn(g.inodes, g.table, h.inodes, h.table, ino, Bn(at), Bn(at))
    requires forall i :: 0 <= i < |h.inodes| && i != ino ==> h.inodes[i] == g.inodes[i]
    ensures Extends(f, h, ino, off, n) && |h.inodes| == |f.inodes|
  {
    Monotone(off, at);
    Monotone(at, off + n);
    hide Bn, OnlyIn, Grown;
    OnlyInTrans(f.inodes, f.table, g.inodes, g.table, h.inodes, h.table, ino, Bn(off), Bn(off + n), Bn(at));
    GrownTrans(f.inodes, f.table, g.inodes, g.table, h.inodes, h.table);
  }

  lemma ExtendsIs(f: Files, g: Files, ino: nat, off: nat, n: nat, tot: nat, failed: bool)
    requires Extends(f, g, ino, off, n)
    requires tot < n ==> (failed <==> Target(g.inodes, g.table, Place(ino, Bn(off + tot))) != 0)
    ensures Allocated(f, g, ino, off, n, tot, failed)
    ensures SameSizes(f.inodes, g.inodes) && Grown(f.inodes, f.table, g.inodes, g.table)
    ensures forall i :: 0 <= i < |g.inodes| && i != ino ==> g.inodes[i] == f.inodes[i]
  {
    hide Target, Place, Bn;
  }

  /** The turns of the loop, the bytes they were to copy, how many of them mapped a new block, and the data
      and bitmap blocks they logged. */
  datatype Count = Count(it: nat, to: nat, grew: nat, data: set<nat>, bits: set<nat>)

  /** A failed copy has stored something. */
  predicate Torn(src: seq<bv8>, k: int, failed: bool) { failed && k < |src| }

  /** The loop of writei from s0 to s, with tot bytes copied, ended by a failed copy or not. */
  ghost predicate Writing(bmapstart: nat, s0: Moment, s: Moment, ino: nat, src: seq<bv8>, off: nat, n: nat, tot: nat,
                          failed: bool, c: Count) {
    && tot <= n && (tot < n ==> tot == 0 || Lo(off + tot) == 0)
    && Turns(off, n, c.to, c.it, c.grew) && (!failed ==> c.to == tot)
    && Extends(s0.files, s.files, ino, off, n) && MappedTo(s.files.inodes, s.files.table, ino, off + tot)
    && Copied(s0.files, s.files, ino, off, src, tot, failed)
    && s0.logged <= s.logged
    && Logged(s0.logged, s.logged, c.data, c.bits, IndirectSet(bmapstart, s.files.inodes, s.files.table, ino), c.it,
              c.grew)
    && Covered(bmapstart, s0.disk, s.disk, s.logged + TornBlock(s.files, ino, off + tot, Torn(src, tot, failed)))
  }

  lemma WritingStart(fs: Fs, ino: nat, src: seq<bv8>, off: nat, n: nat)
    requires SizesOk(fs.inodes, fs.table) && ino < |fs.inodes| && off <= fs.inodes[ino].size
    ensures Writing(fs.bmapstart, Here(fs), Here(fs), ino, src, off, n, 0, false, Count(0, 0, 0, {}, {}))
  {
    hide Written, Covered, Logged, MappedTo, Extends, Turns, SizesOk, IndirectSet, Bn, Lo, TornBlock;
    TurnsStart(off, n);
    WriteStart(fs, ino, off);
    ExtendsSelf(Now(fs), ino, off, n);
    NotTorn(Now(fs), ino, off, fs.logged);
    assert src[..0] == [];
  }

  /** The bytes of a turn: copyin stops where the source cannot be read. */
  function Piece(src: seq<bv8>, tot: nat, m: nat): (p: seq<bv8>)
    requires tot <= |src|
    ensures |p| <= m
  {
    if tot + m <= |src| then src[tot..tot + m] else src[tot..]
  }

  lemma NextBytes(f: Files, g: Files, h: Files, ino: nat, off: nat, src: seq<bv8>, tot: nat, m: nat, mapped: bool)
    requires Copied(f, g, ino, off, src, tot, false)
    requires Written(g, h, ino, off + tot, if mapped then Piece(src, tot, m) else [])
    ensures if !mapped then Copied(f, h, ino, off, src, tot, false)
            else if tot + m <= |src| then Copied(f, h, ino, off, src, tot + m, false)
            else Copied(f, h, ino, off, src, tot, true)
  {
    hide Written;
    var p := if mapped then Piece(src, tot, m) else [];
    WrittenTrans(f, g, h, ino, off, src[..tot], p);
    assert src[..tot] + p == if !mapped then src[..tot] else if tot + m <= |src| then src[..tot + m] else src;
  }

  lemma TurnAhead(off: nat, n: nat, tot: nat, it: nat, grew: nat, m: nat)
    requires Turns(off, n, tot, it, grew) && tot < n && m == Min(n - tot, BSIZE - Lo(off + tot))
    ensures m > 0
  {
    hide Turns, Lo;
  }

  /** One more turn. */
  lemma NextWriting(bmapstart: nat, s0: Moment, g: Moment, h: Moment, ino: nat, src: seq<bv8>, off: nat, n: nat,
                    tot: nat, c: Count, m: nat, mapped: bool)
    returns (c': Count)
    requires Writing(bmapstart, s0, g, ino, src, off, n, tot, false, c) && tot < n
    requires m == Min(n - tot, BSIZE - Lo(off + tot)) && tot <= |src|
    requires Turned(bmapstart, g, h, ino, off + tot, Piece(src, tot, m), mapped, tot + m <= |src|)
    ensures m > 0 && (mapped <==> Target(h.files.inodes, h.files.table, Place(ino, Bn(off + tot))) != 0)
    ensures if !mapped then Writing(bmapstart, s0, h, ino, src, off, n, tot, false, c')
            else if tot + m <= |src| then Writing(bmapstart, s0, h, ino, src, off, n, tot + m, false, c')
            else Writing(bmapstart, s0, h, ino, src, off, n, tot, true, c')
  {
    hide Bn, Lo, Place, Target, IndirectSet, BlockSet, Grown, Fresh, Written, MappedTo, Turns, Logged, Covered,
         SameSizes, TornBlock, OnlyIn, Extends, Copied;
    var at := off + tot;
    var f1, f2 := g.files, h.files;
    ExtendsNext(s0.files, f1, f2, ino, off, n, at);
    NextBytes(s0.files, f1, f2, ino, off, src, tot, m, mapped);
    NotTorn(f1, ino, at, g.logged);
    CoveredTrans(bmapstart, s0.disk, g.disk, h.disk, g.logged,
                 h.logged + TornBlock(f2, ino, at, mapped && !(tot + m <= |src|) && Piece(src, tot, m) != []));
    MappedKeep(f1.inodes, f1.table, f2.inodes, f2.table, ino, at);
    if !mapped {
      LoggedStop(bmapstart, s0.logged, g.logged, h.logged, c.data, c.bits, c.it, c.grew, f1.inodes, f1.table,
                 f2.inodes, f2.table, ino, Bn(at));
      c' := c;
      TurnAhead(off, n, tot, c.it, c.grew, m);
    } else {
      var data, bits, grew := LoggedNext(bmapstart, s0.logged, g.logged, h.logged, c.data, c.bits, c.it, c.grew,
                                         f1.inodes, f1.table, f2.inodes, f2.table, ino, Bn(at));
      FreshIs(f1.inodes, f1.table, f2.inodes, f2.table, ino, off, at, tot, c.it, c.grew, n);
      NextTurn(off, n, tot, c.it, c.grew, m, grew);
      c' := Count(c.it + 1, tot + m, grew, data, bits);
      MappedNext(f1.inodes, f1.table, f2.inodes, f2.table, ino, at, m);
      NotTorn(f2, ino, at, h.logged);
      NotTorn(f2, ino, at + m, h.logged);
    }
  }

  lemma WritingEnd(bmapstart: nat, s0: Moment, s: Moment, ino: nat, src: seq<bv8>, off: nat, n: nat, tot: nat,
                   failed: bool, c: Count)
    requires Writing(bmapstart, s0, s, ino, src, off, n, tot, failed, c)
    requires tot < n ==> (failed <==> Target(s.files.inodes, s.files.table, Place(ino, Bn(off + tot))) != 0)
    ensures tot <= n && tot <= |src| && (tot < n ==> tot == 0 || Lo(off + tot) == 0)
    ensures SameSizes(s0.files.inodes, s.files.inodes)
    ensures Grown(s0.files.inodes, s0.files.table, s.files.inodes, s.files.table)
    ensures MappedTo(s.files.inodes, s.files.table, ino, off + tot)
    ensures Copied(s0.files, s.files, ino, off, src, tot, failed)
    ensures s0.logged <= s.logged && |s.logged| <= |s0.logged| + LogBound(off, n) - 1
    ensures Covered(bmapstart, s0.disk, s.disk,
                    s.logged + TornBlock(s.files, ino, off + tot, Torn(src, tot, failed)))
    ensures forall i :: 0 <= i < |s.files.inodes| && i != ino ==> s.files.inodes[i] == s0.files.inodes[i]
    ensures Allocated(s0.files, s.files, ino, off, n, tot, failed)
  {
    hide Bn, Lo, Place, Target, Grown, SameSizes, Written, MappedTo, Covered, TornBlock, OnlyIn, Allocated, Extends,
         Turns, Logged, LogBound, IndirectSet;
    ExtendsIs(s0.files, s.files, ino, off, n, tot, failed);
    TurnsBound(off, n, c.to, c.it, c.grew);
    LoggedCount(s0.logged, s.logged, c.data, c.bits, IndirectSet(bmapstart, s.files.inodes, s.files.table, ino), c.it,
                c.grew);
  }

  /** A copy of the bytes from tot on, up to the end of the block or of the write, cannot be read to its end. */
  predicate Fails(src: seq<bv8>, off: nat, n: nat, tot: nat) {
    tot < n && tot <= |src| < tot + Min(n - tot, BSIZE - Lo(off + tot))
  }

  /** The loop of writei. src is what can be read of the source. */
  method WriteBytes(fs: Fs, ino: nat, src: seq<bv8>, off0: nat, n: nat) returns (tot: nat, failed: bool)
    requires Good(fs) && ino < |fs.inodes| && off0 <= fs.inodes[ino].size && off0 + n <= MAXBYTES
    modifies fs`bitmap, fs`data, fs`table, fs`inodes, fs`owner, fs`logged
    ensures tot <= n && tot <= |src| && (failed ==> Fails(src, off0, n, tot))
    ensures tot < n ==> failed || Full(fs.bitmap, fs.size)
    ensures tot < n ==> tot == 0 || Lo(off0 + tot) == 0
    ensures fs.Valid() && SameSizes(old(fs.inodes), fs.inodes)
    ensures Grown(old(fs.inodes), old(fs.table), fs.inodes, fs.table) && MappedTo(fs.inodes, fs.table, ino, off0 + tot)
    ensures Copied(old(Now(fs)), Now(fs), ino, off0, src, tot, failed)
    ensures old(fs.logged) <= fs.logged && |fs.logged| <= |old(fs.logged)| + LogBound(off0, n) - 1
    ensures Covered(fs.bmapstart, old(fs.Blocks()), fs.Blocks(),
                    fs.logged + TornBlock(Now(fs), ino, off0 + tot, Torn(src, tot, failed)))
    ensures forall i :: 0 <= i < |fs.inodes| && i != ino ==> fs.inodes[i] == old(fs.inodes)[i]
    ensures Allocated(old(Now(fs)), Now(fs), ino, off0, n, tot, failed)
  {
    hide Bn, Lo, Place, Target, OwnOk, UsedOk, DiskOk, InodesOk, SizesOk, IndirectSet, BlockSet, Full, Grown,
         Written, MappedTo, LogBound, Covered, SameSizes, TornBlock, OnlyIn, Allocated, Writing, Copied, Turned;
    tot, failed := 0, false;
    var off := off0;
    ghost var c := Count(0, 0, 0, {}, {});
    ghost var s0 := Here(fs);
    WritingStart(fs, ino, src, off0, n);
    while tot < n
      invariant 0 <= tot <= n && tot <= |src| && off == off0 + tot && !failed
      invariant fs.Valid() && ino < |fs.inodes| == |old(fs.inodes)|
      invariant Writing(fs.bmapstart, s0, Here(fs), ino, src, off0, n, tot, failed, c)
      decreases n - tot
    {
      var m := Min(n - tot, BSIZE - Lo(off));
      var copied := tot + m <= |src|;
      ghost var g := Here(fs);
      InFile(off);
      var mapped := WriteBlock(fs, ino, off, Piece(src, tot, m), copied);
      c := NextWriting(fs.bmapstart, s0, g, Here(fs), ino, src, off0, n, tot, c, m, mapped);
      if !mapped {
        break;
      }
      if !copied {
        failed := true;
        break;
      }
      tot, off := tot + m, off + m;
    }
    WritingEnd(fs.bmapstart, s0, Here(fs), ino, src, off0, n, tot, failed, c);
  }

  /** What writei does with the files: -1 for a hole, a wrap or a file too large. Otherwise the r bytes
      that were copied are in the file and the size covers them; a failed copy also stores behind them
      what it could read. r is less than n only for a failed copy or a full disk, and then ends at a
      block boundary. */
  ghost predicate WriteResult(f: Files, g: Files, full: bool, ino: nat, src: seq<bv8>, off: nat, n: nat, r: int,
                              failed: bool)
    requires ino < |f.inodes|
  {
    && (r == -1 <==> off > f.inodes[ino].size || off + n >= TWO32 || off + n > MAXBYTES)
    && (r == -1 ==> !failed && g == f)
    && (r != -1 ==> r <= n && Copied(f, g, ino, off, src, r, failed))
    && (failed ==> r >= 0 && Fails(src, off, n, r))
    && (0 <= r < n ==> failed || full) && (0 < r < n ==> Lo(off + r) == 0)
    && |g.inodes| == |f.inodes| && (r != -1 ==> g.inodes[ino].size == Max(f.inodes[ino].size, off + r))
    && (forall i :: 0 <= i < |f.inodes| && i != ino ==> g.inodes[i] == f.inodes[i])
  }

  /** writei. Every block below the size stays mapped. Every block that changed is logged, but for the
      one in which a failed copy has stored something. */
  method Writei(fs: Fs, ino: nat, src: seq<bv8>, off0: nat, n: nat) returns (r: int, failed: bool)
    requires Good(fs) && ino < |fs.inodes| && off0 < TWO32 && n < TWO32
    modifies fs`bitmap, fs`data, fs`table, fs`inodes, fs`owner, fs`logged
    ensures Good(fs)
    ensures WriteResult(old(Now(fs)), Now(fs), Full(fs.bitmap, fs.size), ino, src, off0, n, r, failed)
    ensures r == -1 ==> fs.bitmap == old(fs.bitmap) && fs.logged == old(fs.logged)
    ensures old(fs.logged) <= fs.logged && |fs.logged| <= |old(fs.logged)| + LogBound(off0, n)
    ensures Covered(fs.bmapstart, old(fs.Blocks()), fs.Blocks(),
                    fs.logged + TornBlock(Now(fs), ino, off0 + r, Torn(src, r, failed)))
    ensures InodesCovered(fs.inodestart, old(fs.inodes), fs.inodes, fs.logged)
    ensures r >= 0 ==> Allocated(old(Now(fs)), Now(fs), ino, off0, n, r, failed)
  {
    hide Bn, Lo, Place, Target, Byte, OwnOk, UsedOk, DiskOk, InodesOk, SizesOk, Full, Grown, Written,
         MappedTo, Spans, LogBound, Covered, InodesCovered, IBlock, TornBlock, Allocated;
    TurnsStart(off0, n);
    InodesSame(fs.inodestart, fs.inodes, fs.logged);
    CoveredSelf(fs.bmapstart, fs.Blocks(), fs.logged + TornBlock(Now(fs), ino, off0 - 1, false));
    if off0 > fs.inodes[ino].size || (off0 + n) % TWO32 < off0 { return -1, false; }
    if off0 + n > MAXBYTES { return -1, false; }
    var tot;
    tot, failed := WriteBytes(fs, ino, src, off0, n);
    ghost var stray := Torn(src, tot, failed);
    WriteEnd(old(Now(fs)), Now(fs), fs.owner, ino, off0, tot, Stores(src, tot, failed), stray);
    EndAllocated(old(Now(fs)), Now(fs), ino, off0, n, tot, failed, off0 + tot);
    ghost var torns := TornBlock(Now(fs), ino, off0 + tot, stray);
    CoveredMore(fs.bmapstart, old(fs.Blocks()), fs.Blocks(), fs.logged + torns,
                fs.logged + {IBlock(fs.inodestart, ino)} + torns);
    UnionSize(fs.logged, {IBlock(fs.inodestart, ino)});
    if off0 + tot > fs.inodes[ino].size {
      fs.inodes := fs.inodes[ino := fs.inodes[ino].(size := off0 + tot)];
    }
    fs.logged := fs.logged + {IBlock(fs.inodestart, ino)};
    InodeCovered(fs.inodestart, old(fs.inodes), fs.inodes, ino, fs.logged);
    r := tot;
  }

  /** The contents a write promises: the new bytes in place of the old ones. */
  function Promised(was: seq<bv8>, off: nat, bytes: seq<bv8>): (s: seq<bv8>)
    requires off <= |was|
    ensures |s| == Max(|was|, off + |bytes|)
    ensures forall x :: 0 <= x < |s| ==> s[x] == if off <= x < off + |bytes| then bytes[x - off] else was[x]
  {
    was[..off] + bytes + (if off + |bytes| < |was| then was[off + |bytes|..] else [])
  }

  /** How many bytes are copied when only `have` can be read: up to the last block boundary. */
  function Whole(off: nat, have: nat): (k: nat)
    ensures k <= have
  {
    OffIs(off + have);
    if Bn(off + have) * BSIZE > off then Bn(off + have) * BSIZE - off else 0
  }

  /** The source can be read to its end, or what can be read of it behind the last block boundary is what
      the file has there, as far as the file goes. */
  ghost predicate CopiesSafely(f: Files, ino: nat, src: seq<bv8>, off: nat, n: nat)
    requires ino < |f.inodes|
  {
    |src| >= n
    || forall k :: Whole(off, |src|) <= k < |src| && off + k < f.inodes[ino].size ==> src[k] == Byte(f, ino, off + k)
  }

  /** The piece that starts at a boundary and cannot be read in full is the one that Whole says. */
  lemma WholeIs(off: nat, have: nat, r: nat, m: nat)
    requires r <= have < r + m && m <= BSIZE - Lo(off + r) && (r == 0 || Lo(off + r) == 0)
    ensures r == Whole(off, have)
  {
    InBlock(off + r, m, off + have);
    OffIs(off + r);
    OffIs(off + have);
    hide Bn, Lo;
  }

  /** A copy that does not fail before the boundary is not the end. */
  lemma NotYet(off: nat, have: nat, r: nat)
    requires r <= have && (r == 0 || Lo(off + r) == 0)
    ensures r <= Whole(off, have)
  {
    OffIs(off + have);
    if r > 0 {
      OffIs(off + r);
      Monotone(off + r, off + have);
    }
    hide Bn, Lo;
  }

  /** Where a write ends whose source cannot be read to its end: at the last block boundary, unless the disk
      is full, and then behind the old contents. */
  lemma EndsAt(f: Files, g: Files, full: bool, ino: nat, src: seq<bv8>, off: nat, n: nat, r: nat, failed: bool)
    requires ino < |f.inodes| && WriteResult(f, g, full, ino, src, off, n, r, failed)
    requires Allocated(f, g, ino, off, n, r, failed) && SizesOk(f.inodes, f.table)
    ensures failed ==> |src| < n && r == Whole(off, |src|)
    ensures !failed && |src| < n ==> r <= Whole(off, |src|) && off + r >= f.inodes[ino].size
  {
    hide Bn, Lo, Written, Target, Place, OnlyIn, SizesOk, Whole;
    if failed {
      WholeIs(off, |src|, r, Min(n - r, BSIZE - Lo(off + r)));
    } else if |src| < n {
      NotYet(off, |src|, r);
      if off + r < f.inodes[ino].size {
        Below(f.inodes, f.table, ino, off + r);
      }
    }
  }

  /** The contents byte by byte: the promised ones but for what a failed copy stored. */
  lemma ContentBytes(f: Files, g: Files, full: bool, ino: nat, src: seq<bv8>, off: nat, n: nat, r: nat, failed: bool)
    requires ino < |f.inodes| && WriteResult(f, g, full, ino, src, off, n, r, failed)
    ensures |g.inodes| == |f.inodes|
    ensures var was, now := Content(f, ino), Content(g, ino);
            && off <= |was| && r <= |src| && |now| == |Promised(was, off, src[..r])|
            && forall x :: 0 <= x < |now| ==>
                 now[x] == if failed && off + r <= x < off + |src| then src[x - off]
                           else Promised(was, off, src[..r])[x]
    ensures forall i: nat :: i < |f.inodes| && i != ino ==> Content(g, i) == Content(f, i)
  {
    hide Byte, Lo, Promised, Content;
    var bytes := Stores(src, r, failed);
    assert forall k :: 0 <= k < |bytes| ==> bytes[k] == src[k];
  }

  /** After a write the contents are the promised ones if and only if the write copies safely, which can be
      told before the call; if not, it ends at the last block boundary before the end of what can be
      read. All other files keep their contents. */
  lemma ContentWritten(f: Files, g: Files, full: bool, ino: nat, src: seq<bv8>, off: nat, n: nat, r: nat, failed: bool)
    requires ino < |f.inodes| && WriteResult(f, g, full, ino, src, off, n, r, failed)
    requires Allocated(f, g, ino, off, n, r, failed) && SizesOk(f.inodes, f.table)
    ensures var was, now := Content(f, ino), Content(g, ino);
            && off <= |was| && r <= |src|
            && (now == Promised(was, off, src[..r]) <==> CopiesSafely(f, ino, src, off, n))
            && (!CopiesSafely(f, ino, src, off, n) ==> r == Whole(off, |src|))
    ensures forall i: nat :: i < |f.inodes| && i != ino ==> Content(g, i) == Content(f, i)
  {
    hide WriteResult, Allocated, SizesOk, Content, Promised, Whole, Byte;
    ContentBytes(f, g, full, ino, src, off, n, r, failed);
    var was, now, p := Content(f, ino), Content(g, ino), Promised(Content(f, ino), off, src[..r]);
    EndsAt(f, g, full, ino, src, off, n, r, failed);
    if failed {
      forall k | r <= k < |src| && off + k < |was| ensures now[off + k] == src[k] && p[off + k] == was[off + k] { }
    }
  }

  /** The files when a block is read from disk again. */
  function Reread(g: Files, b: nat, block: seq<bv8>): (h: Files) { g.(data := g.data[b := block]) }

  /** A byte after the block of a failed copy was read again: as promised. */
  lemma RereadByte(f: Files, g: Files, owner: map<nat, Use>, full: bool, ino: nat, src: seq<bv8>, off: nat, n: nat,
                   r: nat, b: nat, block: seq<bv8>, i: nat, x: nat)
    requires ino < |f.inodes| && WriteResult(f, g, full, ino, src, off, n, r, true) && OwnOk(g.inodes, g.table, owner)
    requires b == Target(g.inodes, g.table, Place(ino, Bn(off + r))) != 0 && |block| == BSIZE
    requires i != ino || Bn(x) != Bn(off + r)
    ensures Byte(Reread(g, b, block), i, x) ==
            if i == ino && off <= x < off + r then src[x - off] else Byte(f, i, x)
  {
    ByteIs(g, i, x);
    ByteIs(Reread(g, b, block), i, x);
    OwnedAt(g.inodes, g.table, owner, Place(ino, Bn(off + r)));
    if Target(g.inodes, g.table, Place(i, Bn(x))) == b {
      OwnedAt(g.inodes, g.table, owner, Place(i, Bn(x)));
      SamePlace(ino, Bn(off + r), i, Bn(x));
    }
    if i == ino && off + r <= x < off + |src| { assert false; }
    hide Bn, Lo, Place, Target, Byte, OwnOk;
  }

  /** A byte of that block itself, if the file has it. */
  lemma RereadHere(f: Files, g: Files, full: bool, ino: nat, src: seq<bv8>, off: nat, n: nat, r: nat, b: nat,
                   block: seq<bv8>, x: nat)
    requires ino < |f.inodes| && WriteResult(f, g, full, ino, src, off, n, r, true) && SizesOk(f.inodes, f.table)
    requires Allocated(f, g, ino, off, n, r, true) && b == Target(g.inodes, g.table, Place(ino, Bn(off + r)))
    requires |block| == BSIZE && Bn(x) == Bn(off + r) && x < g.inodes[ino].size
    requires Target(f.inodes, f.table, Place(ino, Bn(off + r))) != 0 ==> b in f.data && f.data[b] == block
    ensures Byte(Reread(g, b, block), ino, x) == Byte(f, ino, x) && (x < off || off + r <= x)
  {
    ByteIs(f, ino, x);
    ByteIs(Reread(g, b, block), ino, x);
    OffIs(x);
    OffIs(off + r);
    hide Bn, Lo, Place, Target, Byte, Written;
    if Target(f.inodes, f.table, Place(ino, Bn(off + r))) == 0 {
      if off + r < f.inodes[ino].size { Below(f.inodes, f.table, ino, off + r); }
      MappedStart(f.inodes, f.table, ino, off);
      if Lo(off) != 0 { FirstMapped(f.inodes, f.table, ino, off); }
    }
  }

  /** The block of a failed copy is not logged, so its buffer can be recycled and read from disk again,
      with the bytes it had before the call. Then the contents are the promised ones, safe copy or not. */
  lemma TornUndone(f: Files, g: Files, owner: map<nat, Use>, full: bool, ino: nat, src: seq<bv8>, off: nat, n: nat,
                   r: nat, b: nat, block: seq<bv8>)
    requires ino < |f.inodes| && WriteResult(f, g, full, ino, src, off, n, r, true) && SizesOk(f.inodes, f.table)
    requires Allocated(f, g, ino, off, n, r, true) && OwnOk(g.inodes, g.table, owner)
    requires b == Target(g.inodes, g.table, Place(ino, Bn(off + r))) && |block| == BSIZE
    requires Target(f.inodes, f.table, Place(ino, Bn(off + r))) != 0 ==> b in f.data && f.data[b] == block
    ensures var h := Reread(g, b, block);
            && off <= |Content(f, ino)| && r <= |src| && |h.inodes| == |f.inodes|
            && Content(h, ino) == Promised(Content(f, ino), off, src[..r])
            && forall i: nat :: i < |f.inodes| && i != ino ==> Content(h, i) == Content(f, i)
  {
    ContentBytes(f, g, full, ino, src, off, n, r, true);
    var h := Reread(g, b, block);
    forall i: nat, x: nat | i < |f.inodes| && x < h.inodes[i].size
      ensures Byte(h, i, x) == if i == ino && off <= x < off + r then src[x - off] else Byte(f, i, x)
    {
      if i == ino && Bn(x) == Bn(off + r) {
        RereadHere(f, g, full, ino, src, off, n, r, b, block, x);
      } else {
        RereadByte(f, g, owner, full, ino, src, off, n, r, b, block, i, x);
      }
    }
    hide Byte, Bn, Lo, Target, Place, OwnOk, SizesOk, OnlyIn, Grown, Written;
  }

  // ---- filewrite

  /** The blocks logged by several transactions. */
  ghost function AllOf(chunks: seq<set<nat>>): (s: set<nat>) {
    if chunks == [] then {} else AllOf(chunks[..|chunks| - 1]) + chunks[|chunks| - 1]
  }

  /** One transaction of filewrite, between begin_op and end_op: it logs at most MAXOPBLOCKS blocks, and
      among them all that it changes, but for the one of a failed copy. */
  method WriteChunk(fs: Fs, ino: nat, src: seq<bv8>, off: nat, n: nat) returns (r: int, failed: bool)
    requires Good(fs) && ino < |fs.inodes| && off < TWO32 && n <= CHUNK
    modifies fs`bitmap, fs`data, fs`table, fs`inodes, fs`owner, fs`logged
    ensures Good(fs)
    ensures WriteResult(old(Now(fs)), Now(fs), Full(fs.bitmap, fs.size), ino, src, off, n, r, failed)
    ensures |fs.logged| <= CrashLog.MAXOPBLOCKS
    ensures Covered(fs.bmapstart, old(fs.Blocks()), fs.Blocks(),
                    fs.logged + TornBlock(Now(fs), ino, off + r, Torn(src, r, failed)))
    ensures InodesCovered(fs.inodestart, old(fs.inodes), fs.inodes, fs.logged)
    ensures r >= 0 ==> Allocated(old(Now(fs)), Now(fs), ino, off, n, r, failed)
  {
    hide SizesOk, Written, LogBound, Full, Lo, Covered, InodesCovered, Allocated;
    fs.logged := {};
    r, failed := Writei(fs, ino, src, off, n);
    ChunkFits(off, n);
  }

  lemma AllOfMore(chunks: seq<set<nat>>, c: set<nat>)
    ensures AllOf(chunks + [c]) == AllOf(chunks) + c
  {
    assert (chunks + [c])[..|chunks|] == chunks;
  }

  /** Transactions that keep to their size and together log all that changed, but for the torn blocks. */
  ghost predicate Saved(bmapstart: nat, inodestart: nat, a: Disk, inodes: seq<Inode>, b: Disk, inodes': seq<Inode>,
                        chunks: seq<set<nat>>, torn: set<nat>) {
    && (forall c :: 0 <= c < |chunks| ==> |chunks[c]| <= CrashLog.MAXOPBLOCKS)
    && Covered(bmapstart, a, b, AllOf(chunks) + torn) && InodesCovered(inodestart, inodes, inodes', AllOf(chunks))
  }

  lemma SavedMore(bmapstart: nat, inodestart: nat, a: Disk, inodes: seq<Inode>, b: Disk, inodes': seq<Inode>,
                  c: Disk, inodes'': seq<Inode>, chunks: seq<set<nat>>, logged: set<nat>, torn: set<nat>)
    requires Saved(bmapstart, inodestart, a, inodes, b, inodes', chunks, {}) && |logged| <= CrashLog.MAXOPBLOCKS
    requires Covered(bmapstart, b, c, logged + torn) && InodesCovered(inodestart, inodes', inodes'', logged)
    ensures Saved(bmapstart, inodestart, a, inodes, c, inodes'', chunks + [logged], torn)
  {
    hide Covered, InodesCovered, AllOf;
    var all := AllOf(chunks + [logged]);
    AllOfMore(chunks, logged);
    CoveredMore(bmapstart, b, c, logged + torn, all + torn);
    CoveredTrans(bmapstart, a, b, c, AllOf(chunks) + {}, all + torn);
    InodesMore(inodestart, inodes', inodes'', logged, all);
    InodesCoveredTrans(inodestart, inodes, inodes', inodes'', AllOf(chunks), all);
  }

  lemma WrittenStill(f: Files, g: Files, ino: nat, off: nat)
    requires g == f
    ensures Written(f, g, ino, off, [])
  {
    WrittenSelf(f, ino, off);
  }

  /** One more chunk. */
  lemma ChunkWritten(f: Files, g: Files, h: Files, ino: nat, off: nat, src: seq<bv8>, i: nat, k: nat, failed: bool)
    requires Copied(f, g, ino, off, src, i, false) && Copied(g, h, ino, off + i, src[i..], k, failed)
    ensures Copied(f, h, ino, off, src, i + k, failed)
  {
    hide Written;
    WrittenTrans(f, g, h, ino, off, src[..i], Stores(src[i..], k, failed));
    assert src[..i] + Stores(src[i..], k, failed) == Stores(src, i + k, failed);
  }

  lemma TornAt(f: Files, ino: nat, off: nat, w: int, k: nat, torn: bool)
    requires torn ==> w == k
    ensures TornBlock(f, ino, off + w, torn) == TornBlock(f, ino, off + k, torn)
  {
  }

  /** What one chunk adds to the write. */
  lemma ChunkDone(f: Files, g: Files, h: Files, full: bool, ino: nat, src: seq<bv8>, off: nat, i: nat, n: nat, w: int,
                  failed: bool)
    requires ino < |g.inodes| && Copied(f, g, ino, off, src, i, false)
    requires WriteResult(g, h, full, ino, src[i..], off + i, n, w, failed)
    ensures var k := if w > 0 then w else 0;
            && -1 <= w && k <= n && i + k <= |src| && (failed ==> w >= 0 && |src| < i + n && |src| < i + k + BSIZE)
            && Copied(f, h, ino, off, src, i + k, failed) && |h.inodes| == |g.inodes|
            && h.inodes[ino].size == (if w == -1 then g.inodes[ino].size else Max(g.inodes[ino].size, off + i + k))
            && (w != -1 ==> off + i + n <= MAXBYTES && off + i <= g.inodes[ino].size) && (w == n ==> !failed)
            && (w != n ==> off + i > g.inodes[ino].size || off + i + n >= TWO32 || off + i + n > MAXBYTES || failed
                           || full)
  {
    hide Written, Lo;
    var k := if w > 0 then w else 0;
    if w == -1 { WrittenStill(g, h, ino, off + i); }
    assert w == -1 ==> src[i..][..k] == [];
    ChunkWritten(f, g, h, ino, off, src, i, k, failed);
  }

  /** c chunks for so many bytes: all but the last are full. */
  ghost predicate ChunkCount(done: int, c: nat) { done <= c * CHUNK && (c > 0 ==> (c - 1) * CHUNK <= done) }

  ghost predicate AllFull(i: int, n: int, c: nat) { i < n ==> i == c * CHUNK }

  lemma CountNext(i: nat, n: int, c: nat, n1: nat, k: nat)
    requires AllFull(i, n, c) && i < n && n1 == Min(n - i, CHUNK) && k <= n1
    ensures ChunkCount(i + k, c + 1) && (k == n1 ==> AllFull(i + k, n, c + 1))
  {
  }

  /** How much of a write fits a file: all of it, or the full chunks before the limit. */
  function Fit(off: nat, n: int): (k: nat) {
    if n <= 0 || off > MAXBYTES then 0 else if off + n <= MAXBYTES then n else (MAXBYTES - off) / CHUNK * CHUNK
  }

  lemma Floor(x: nat)
    ensures x / CHUNK * CHUNK <= x
  {
  }

  lemma AtMost(off: nat, n: int)
    ensures Fit(off, n) <= if n < 0 then 0 else n
  {
    if n > 0 && off <= MAXBYTES < off + n { Floor(MAXBYTES - off); }
  }

  lemma Quotient(x: nat, c: nat)
    requires c * CHUNK <= x < c * CHUNK + CHUNK
    ensures x / CHUNK == c
  {
  }

  lemma FullChunks(x: nat, c: nat)
    requires c * CHUNK <= x
    ensures c * CHUNK <= x / CHUNK * CHUNK
  {
  }

  lemma FitsMore(off: nat, n: int, c: nat, n1: nat)
    requires c * CHUNK < n && n1 == Min(n - c * CHUNK, CHUNK) && c * CHUNK <= Fit(off, n) && off <= MAXBYTES
    ensures off + c * CHUNK + n1 <= MAXBYTES ==> c * CHUNK + n1 <= Fit(off, n)
    ensures off + c * CHUNK + n1 > MAXBYTES ==> Fit(off, n) == c * CHUNK
  {
    var i := c * CHUNK;
    if off + n > MAXBYTES {
      if off + i + n1 <= MAXBYTES {
        assert n1 == CHUNK;
        FullChunks(MAXBYTES - off, c + 1);
      } else {
        Quotient(MAXBYTES - off, c);
      }
    }
  }

  lemma FitNext(off: nat, n: int, c: nat, i: nat, n1: nat)
    requires AllFull(i, n, c) && i < n && n1 == Min(n - i, CHUNK) && i <= Fit(off, n)
    ensures off + i + n1 <= MAXBYTES ==> i + n1 <= Fit(off, n)
    ensures off + i + n1 > MAXBYTES ==> Fit(off, n) == i
  {
    if off <= MAXBYTES {
      FitsMore(off, n, c, n1);
    }
  }

  /** What filewrite has done after k bytes: they are in the file, and what a failed copy could
      read behind them; the size covers them; the chunks so far are full but for the last, keep to their size and
      log every block that changed, but for the one of a failed copy. */
  ghost predicate FileResult(bmapstart: nat, inodestart: nat, d: Disk, f: Files, d': Disk, g: Files, ino: nat,
                             src: seq<bv8>, off: nat, n: int, k: int, failed: bool,
                             chunks: seq<set<nat>>) {
    && ino < |f.inodes| == |g.inodes| && Copied(f, g, ino, off, src, k, failed)
    && (failed ==> |src| < n && |src| < k + BSIZE)
    && g.inodes[ino].size == (if k > 0 then Max(f.inodes[ino].size, off + k) else f.inodes[ino].size)
    && ChunkCount(k, |chunks|)
    && Saved(bmapstart, inodestart, d, f.inodes, d', g.inodes, chunks, TornBlock(g, ino, off + k, Torn(src, k, failed)))
  }

  lemma FileStart(bmapstart: nat, inodestart: nat, d: Disk, f: Files, ino: nat, src: seq<bv8>, off: nat,
                  n: int)
    requires ino < |f.inodes|
    ensures FileResult(bmapstart, inodestart, d, f, d, f, ino, src, off, n, 0, false, []) && AllFull(0, n, 0)
  {
    WrittenSelf(f, ino, off);
    assert src[..0] == [];
    CoveredSelf(bmapstart, d, AllOf([]) + {});
    hide Written, Covered;
  }

  lemma InResult(bmapstart: nat, inodestart: nat, d: Disk, f: Files, d': Disk, g: Files, ino: nat, src: seq<bv8>,
                 off: nat, n: int, k: int, failed: bool, chunks: seq<set<nat>>)
    requires FileResult(bmapstart, inodestart, d, f, d', g, ino, src, off, n, k, failed, chunks)
    ensures ino < |g.inodes| && 0 <= k <= |src|
  {
  }

  /** One more chunk of n1 bytes at most, of which w were written. */
  lemma NextChunk(bmapstart: nat, inodestart: nat, d: Disk, f: Files, d1: Disk, g: Files, d2: Disk, h: Files,
                  full: bool,
                  ino: nat, src: seq<bv8>, off: nat, n: int, i: nat, n1: nat, w: int, failed: bool,
                  chunks: seq<set<nat>>, logged: set<nat>)
    requires FileResult(bmapstart, inodestart, d, f, d1, g, ino, src, off, n, i, false, chunks)
    requires AllFull(i, n, |chunks|) && i < n && n1 == Min(n - i, CHUNK) && i <= |src| && i <= Fit(off, n)
    requires WriteResult(g, h, full, ino, src[i..], off + i, n1, w, failed) && |logged| <= CrashLog.MAXOPBLOCKS
    requires Covered(bmapstart, d1, d2, logged + TornBlock(h, ino, off + i + w, Torn(src[i..], w, failed)))
    requires InodesCovered(inodestart, g.inodes, h.inodes, logged)
    ensures var k := if w > 0 then w else 0;
            && k <= n1 && FileResult(bmapstart, inodestart, d, f, d2, h, ino, src, off, n, i + k, failed,
                                     chunks + [logged])
            && (w == n1 ==> k == n1 && !failed && AllFull(i + k, n, |chunks + [logged]|) && off + i + n1 <= MAXBYTES)
            && (w != n1 ==> k < n1)
            && (w != n1 ==> off > f.inodes[ino].size || off + n > MAXBYTES || failed || full)
            && i + k <= Fit(off, n)
            && (w != n1 && i + k < Fit(off, n) ==> off > f.inodes[ino].size || failed || full)
  {
    hide Copied, Covered, InodesCovered, WriteResult, Saved, TornBlock, ChunkCount, AllFull;
    var k := if w > 0 then w else 0;
    NotTorn(g, ino, off + i, {});
    ChunkDone(f, g, h, full, ino, src, off, i, n1, w, failed);
    SavedMore(bmapstart, inodestart, d, f.inodes, d1, g.inodes, d2, h.inodes, chunks, logged,
              TornBlock(h, ino, off + i + w, Torn(src[i..], w, failed)));
    TornAt(h, ino, off + i, w, k, Torn(src[i..], w, failed));
    CountNext(i, n, |chunks|, n1, k);
    FitNext(off, n, |chunks|, i, n1);
  }

  /** filewrite on a file: chunks of at most CHUNK bytes, each in a transaction of its own that logs at
      most MAXOPBLOCKS blocks; together they log every block that changed, but for the one of a failed
      copy. As many bytes are written as fit, unless the source cannot be read to the end or the disk is
      full; n is returned if that is all of them. */
  method Filewrite(fs: Fs, ino: nat, src: seq<bv8>, off0: nat, n: int)
    returns (r: int, off: nat, failed: bool, ghost chunks: seq<set<nat>>)
    requires Good(fs) && ino < |fs.inodes| && off0 < TWO32 && -0x8000_0000 <= n < 0x8000_0000
    modifies fs`bitmap, fs`data, fs`table, fs`inodes, fs`owner, fs`logged
    ensures Good(fs) && off0 <= off <= off0 + (if n < 0 then 0 else n)
    ensures FileResult(fs.bmapstart, fs.inodestart, old(fs.Blocks()), old(Now(fs)), fs.Blocks(), Now(fs), ino,
                       src, off0, n, off - off0, failed, chunks)
    ensures r == if off == off0 + n then n else -1
    ensures off - off0 <= Fit(off0, n)
    ensures off - off0 < Fit(off0, n) ==> off0 > old(fs.inodes)[ino].size || failed || Full(fs.bitmap, fs.size)
    ensures r == -1 ==>
              n < 0 || off0 > old(fs.inodes)[ino].size || off0 + n > MAXBYTES || failed || Full(fs.bitmap, fs.size)
  {
    hide Good, Full, FileResult, WriteResult, Allocated, AllFull, Covered, InodesCovered, TornBlock, Fit;
    AtMost(off0, n);
    var max := ((CrashLog.MAXOPBLOCKS - 1 - 1 - 2) / 2) * BSIZE;
    var i := 0;
    off, failed, chunks := off0, false, [];
    FileStart(fs.bmapstart, fs.inodestart, fs.Blocks(), Now(fs), ino, src, off0, n);
    while i < n
      invariant 0 <= i <= (if n < 0 then 0 else n) && off == off0 + i < TWO32 && !failed && Good(fs)
      invariant i <= Fit(off0, n)
      invariant FileResult(fs.bmapstart, fs.inodestart, old(fs.Blocks()), old(Now(fs)), fs.Blocks(), Now(fs), ino,
                           src, off0, n, i, false, chunks) && AllFull(i, n, |chunks|)
      decreases n - i
    {
      InResult(fs.bmapstart, fs.inodestart, old(fs.Blocks()), old(Now(fs)), fs.Blocks(), Now(fs), ino, src, off0,
               n,
               i, false, chunks);
      var n1 := n - i;
      if n1 > max { n1 := max; }
      ghost var files, blocks := Now(fs), fs.Blocks();
      var w;
      w, failed := WriteChunk(fs, ino, src[i..], off, n1);
      NextChunk(fs.bmapstart, fs.inodestart, old(fs.Blocks()), old(Now(fs)), blocks, files, fs.Blocks(), Now(fs),
                Full(fs.bitmap, fs.size), ino, src, off0, n, i, n1, w, failed, chunks, fs.logged);
      chunks := chunks + [fs.logged];
      if w > 0 { off := off + w; }
      if w != n1 {
        r := -1;
        return;
      }
      i := i + w;
    }
    r := if i == n then n else -1;
  }
}
