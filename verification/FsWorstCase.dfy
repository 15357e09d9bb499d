/** A disk on which one chunk of filewrite fills its transaction: the data blocks, the bitmap blocks and the
    indirect block that writei logs are MAXOPBLOCKS in all, so the chunk size leaves nothing to spare. */
module FsWorstCase {
  import opened BlockCodec
  import opened FileSystem
  import opened FsLog
  import opened FsModel
  import opened Params
  import opened Sets

  /** Boot and super block, LOGSIZE blocks of log, the inodes from block 32 on, five blocks of bitmap, data. */
  const SB: Super := Super(4 * BPB + 1, 32, 7995, 8000)

  /** The one free block in each part of the bitmap. */
  function FreeIn(m: nat): nat {
    if m == 0 then BPB - 1 else m * BPB
  }

  predicate IsFree(b: nat) {
    b == FreeIn(b / BPB)
  }

  function FullBlock(): Block {
    seq(BSIZE, _ => 255)
  }

  function MapBlock(m: nat): Block {
    ClearBlockBit(FullBlock(), FreeIn(m) % BPB)
  }

  function BlockAt(b: nat): Block {
    if SB.bmapstart <= b < SB.nmeta then MapBlock(b - SB.bmapstart) else ZeroBlock()
  }

  function TightDisk(): (d: Disk)
    ensures |d| == SB.size && forall b :: 0 <= b < SB.size ==> d[b] == BlockAt(b)
  {
    seq(SB.size, b requires 0 <= b < SB.size => BlockAt(b))
  }

  /** An inode of at most twelve blocks. */
  function Direct(size: nat, first: nat, n: nat): (r: Inode)
    requires n <= NDIRECT
    ensures |r.addrs| == NDIRECT + 1 && forall k :: 0 <= k <= NDIRECT ==> r.addrs[k] == if k < n then first + k else 0
  {
    Inode(size, seq(NDIRECT + 1, k => if k < n then first + k else 0))
  }

  const OFF: nat := 11 * BSIZE + 1

  /** Inode 0 is the file: twelve direct blocks, the last just begun, and no indirect block.  Every other
      data block in use belongs to the inode of the same number. */
  function InodeAt(j: nat): Inode {
    if j == 0 then Direct(OFF, SB.nmeta, NDIRECT) else Direct(0, j, if Taken(j) then 1 else 0)
  }

  predicate Taken(b: nat) {
    SB.nmeta + NDIRECT <= b && !IsFree(b)
  }

  function TightInodes(): (r: seq<Inode>)
    ensures |r| == SB.size && forall j :: 0 <= j < SB.size ==> r[j] == InodeAt(j)
  {
    seq(SB.size, j requires 0 <= j < SB.size => InodeAt(j))
  }

  lemma FullBits(k: nat)
    requires k < 8
    ensures Bit(255, k)
  {
    assert Bit(255 / 16, 0) && Bit(255 / 16, 1) && Bit(255 / 16, 2) && Bit(255 / 16, 3);
    if k >= 4 {
      assert Bit(255, k) == Bit(255 / 2, k - 1) == Bit(255 / 4, k - 2) == Bit(255 / 8, k - 3) == Bit(255 / 16, k - 4);
    }
  }

  lemma TightUsed(b: nat)
    requires b < SB.size
    ensures Used(SB, TightDisk(), b) <==> !IsFree(b)
  {
    var m, bi := b / BPB, b % BPB;
    FullBits(bi % 8);
    assert TightDisk()[BBlock(SB, b)] == MapBlock(m);
    assert BlockBit(MapBlock(m), bi) <==> bi != FreeIn(m) % BPB;
  }

  /** The block in slot k of inode i. */
  function TightSlot(i: nat, k: nat): nat {
    if i == 0 && k < NDIRECT then SB.nmeta + k else if k == 0 && Taken(i) then i else 0
  }

  lemma TightShaped()
    ensures Sane(SB, TightDisk(), TightInodes())
  {
  }

  lemma TightAddr(i: nat, k: nat)
    requires Sane(SB, TightDisk(), TightInodes()) && Slot(TightInodes(), i, k)
    ensures Addr(SB, TightDisk(), TightInodes(), i, k) == TightSlot(i, k)
  {
    assert TightInodes()[i].addrs[IND] == 0;
  }

  lemma TightOwns()
    ensures Owns(SB, TightDisk(), TightInodes(), {})
  {
    var d, inodes := TightDisk(), TightInodes();
    TightShaped();
    forall i: nat, k: nat | Slot(inodes, i, k)
      ensures Addr(SB, d, inodes, i, k) == TightSlot(i, k)
    {
      TightAddr(i, k);
    }
    forall b | 0 <= b < SB.size
      ensures Used(SB, d, b) <==> !IsFree(b)
    {
      TightUsed(b);
    }
    forall b: nat | DataBlock(SB, b) && Used(SB, d, b)
      ensures OwnsBlock(SB, d, inodes, b)
    {
      if b < SB.nmeta + NDIRECT {
        assert Slot(inodes, 0, b - SB.nmeta) && Addr(SB, d, inodes, 0, b - SB.nmeta) == b;
      } else {
        assert Slot(inodes, b, 0) && Addr(SB, d, inodes, b, 0) == b;
      }
    }
  }

  // ---------- the write ----------

  /** The slots of a chunk from the last direct block on: that block, the indirect block and three entries. */
  ghost predicate Through(a: seq<nat>, b: seq<nat>, hole: bool) {
    && Follows(a, b)
    && (forall k :: New(a, b, k) <==> 12 <= k <= 15 || (k == 11 && hole))
    && (forall k :: 11 <= k <= 15 ==> b[k] != 0)
  }

  /** The blocks of the chunk and the indirect block. */
  ghost function Blocks(b: seq<nat>): set<nat> {
    set k | 11 <= k <= 15 && k < |b| :: b[k]
  }

  ghost function Added(b: seq<nat>, hole: bool): set<nat> {
    set k | (if hole then 11 else 12) <= k <= 15 && k < |b| :: b[k]
  }

  lemma ThroughLog(sb: Super, a: seq<nat>, b: seq<nat>, hole: bool)
    requires Through(a, b, hole)
    ensures LogOf(sb, a, b, 11, 15) == Blocks(b) + MapBlocks(sb, Added(b, hole))
  {
    assert New(a, b, 12) && New(a, b, 13) && New(a, b, 14) && New(a, b, 15) && (hole ==> New(a, b, 11));
    assert NewBlocks(a, b) == Added(b, hole) && NewEntry(a, b);
    assert DataSlot(11) == 11 && DataSlot(12) == 13 && DataSlot(13) == 14 && DataSlot(14) == 15;
    assert DataBlocks(b, 11, 15) + {b[12]} == Blocks(b);
  }

  /** All in data blocks whose bits are in different parts of the bitmap. */
  ghost predicate Scattered(sb: Super, b: seq<nat>, lo: nat) {
    && |b| == NSLOT && (forall k :: 11 <= k <= 15 ==> DataBlock(sb, b[k]))
    && (forall k, l :: 11 <= k < l <= 15 ==> b[k] != b[l])
    && (forall k, l :: lo <= k < l <= 15 ==> BBlock(sb, b[k]) != BBlock(sb, b[l]))
  }

  lemma SliceSize(b: seq<nat>, lo: nat, hi: nat)
    requires lo <= hi <= |b| && forall k, l :: lo <= k < l < hi ==> b[k] != b[l]
    ensures |set k | lo <= k < hi :: b[k]| == hi - lo
  {
    var slice := b[lo..hi];
    ElementsSize(slice);
    forall k | lo <= k < hi
      ensures b[k] in Elements(slice)
    {
      assert b[k] == slice[k - lo];
    }
    assert (set k | lo <= k < hi :: b[k]) == Elements(slice);
  }

  lemma {:induction false} SpreadSize(sb: Super, s: set<nat>)
    requires forall x, y :: x in s && y in s && BBlock(sb, x) == BBlock(sb, y) ==> x == y
    ensures |MapBlocks(sb, s)| == |s|
  {
    if s != {} {
      var x :| x in s;
      SpreadSize(sb, s - {x});
      assert MapBlocks(sb, s) == MapBlocks(sb, s - {x}) + {BBlock(sb, x)};
    }
  }

  lemma LayersSize(data: set<nat>, maps: set<nat>, iblock: nat, lo: nat, hi: nat)
    requires forall x :: x in data ==> hi <= x
    requires forall x :: x in maps ==> lo <= x < hi
    requires iblock < lo <= hi
    ensures |data + maps + {iblock}| == |data| + |maps| + 1
  {
    assert |data + maps| == |data| + |maps|;
  }

  lemma Counts(sb: Super, b: seq<nat>, hole: bool)
    requires Scattered(sb, b, if hole then 11 else 12)
    ensures |Blocks(b)| == 5 && |MapBlocks(sb, Added(b, hole))| == if hole then 5 else 4
  {
    var lo := if hole then 11 else 12;
    SliceSize(b, 11, 16);
    SliceSize(b, lo, 16);
    assert Blocks(b) == set k | 11 <= k < 16 :: b[k];
    assert Added(b, hole) == set k | lo <= k < 16 :: b[k];
    SpreadSize(sb, Added(b, hole));
  }

  lemma Layers(sb: Super, b: seq<nat>, hole: bool)
    requires Layout(sb) && Scattered(sb, b, 12)
    ensures forall x :: x in Blocks(b) ==> sb.nmeta <= x
    ensures forall x :: x in MapBlocks(sb, Added(b, hole)) ==> sb.bmapstart <= x < sb.nmeta
  {
  }

  /** The data blocks and the indirect block, a bitmap block for each one that is new, and the inode's block. */
  lemma ThroughSize(sb: Super, a: seq<nat>, b: seq<nat>, hole: bool, iblock: nat)
    requires Layout(sb) && Through(a, b, hole) && Scattered(sb, b, if hole then 11 else 12) && iblock < sb.bmapstart
    ensures |LogOf(sb, a, b, 11, 15) + {iblock}| == if hole then MAXOPBLOCKS + 1 else MAXOPBLOCKS
  {
    ThroughLog(sb, a, b, hole);
    Counts(sb, b, hole);
    Layers(sb, b, hole);
    LayersSize(Blocks(b), MapBlocks(sb, Added(b, hole)), iblock, sb.bmapstart, sb.nmeta);
  }

  // ---------- the run ----------

  lemma TightTable()
    ensures Sane(SB, TightDisk(), TightInodes())
    ensures var a := Slots(SB, TightDisk(), TightInodes(), 0);
            forall k :: 0 <= k < NSLOT ==> a[k] == if k < NDIRECT then SB.nmeta + k else 0
  {
    TightShaped();
    forall k: nat | k < NSLOT
      ensures Slots(SB, TightDisk(), TightInodes(), 0)[k] == TightSlot(0, k)
    {
      assert Slot(TightInodes(), 0, k);
      TightAddr(0, k);
    }
  }

  lemma TightNoHoles()
    ensures Sane(SB, TightDisk(), TightInodes()) && NoHoles(SB, TightDisk(), TightInodes(), 0)
  {
    TightShaped();
    forall bn | 0 <= bn < MAXFILE && bn * BSIZE < OFF
      ensures Addr(SB, TightDisk(), TightInodes(), 0, DataSlot(bn)) != 0
    {
      assert Slot(TightInodes(), 0, DataSlot(bn));
      TightAddr(0, DataSlot(bn));
    }
  }

  /** What writei may leave of the chunk's write. */
  ghost predicate Outcome(e: Disk, after: seq<Inode>, s: seq<Byte>, len: nat) {
    && Sane(SB, TightDisk(), TightInodes()) && Owns(SB, e, after, {})
    && Written(SB, TightDisk(), TightInodes(), e, after, 0, OFF, s, len)
    && OnlyNew(Slots(SB, TightDisk(), TightInodes(), 0), Slots(SB, e, after, 0), 11, 15)
  }

  lemma NewSlots(a: seq<nat>, b: seq<nat>, k: nat)
    requires Tables(a, b) && a[11] != 0 && OnlyNew(a, b, 11, 15) && New(a, b, k)
    ensures 12 <= k <= 15
  {
    assert DataSlot(11) == 11 && DataSlot(12) == 13 && DataSlot(13) == 14 && DataSlot(14) == 15;
  }

  /** A block that such a write takes is in one of its four new slots. */
  lemma TakenIn(sb: Super, d: Disk, inodes: seq<Inode>, e: Disk, after: seq<Inode>, i: nat, c: nat)
    requires Owns(sb, d, inodes, {}) && Owns(sb, e, after, {}) && Both(sb, d, inodes, e, after)
    requires Kept(sb, d, inodes, e, after) && Others(sb, d, inodes, e, after, i) && i < |inodes| && c < sb.size
    requires Slots(sb, d, inodes, i)[11] != 0 && OnlyNew(Slots(sb, d, inodes, i), Slots(sb, e, after, i), 11, 15)
    requires !Used(sb, d, c) && Used(sb, e, c)
    ensures var b := Slots(sb, e, after, i); c in {b[12], b[13], b[14], b[15]}
  {
    var a, b := Slots(sb, d, inodes, i), Slots(sb, e, after, i);
    AllocatesExactly(sb, d, inodes, e, after, i, c);
    var k :| 0 <= k < NSLOT && New(a, b, k) && b[k] == c;
    NewSlots(a, b, k);
  }

  lemma FreeBlock(m: nat)
    requires m < 5
    ensures DataBlock(SB, FreeIn(m)) && !Used(SB, TightDisk(), FreeIn(m))
  {
    assert FreeIn(m) / BPB == m;
    TightUsed(FreeIn(m));
  }

  lemma TakenBlock(e: Disk, after: seq<Inode>, s: seq<Byte>, len: nat, m: nat)
    requires Outcome(e, after, s, len) && m < 5 && Used(SB, e, FreeIn(m))
    ensures var b := Slots(SB, e, after, 0); FreeIn(m) in {b[12], b[13], b[14], b[15]}
  {
    TightOwns();
    TightTable();
    FreeBlock(m);
    TakenIn(SB, TightDisk(), TightInodes(), e, after, 0, FreeIn(m));
  }

  /** Five free blocks are more than the chunk can take. */
  lemma StaysFree(e: Disk, after: seq<Inode>, s: seq<Byte>, len: nat)
    requires Outcome(e, after, s, len)
    ensures !DiskFull(SB, e)
  {
    if DiskFull(SB, e) {
      TakenBlock(e, after, s, len, 0);
      TakenBlock(e, after, s, len, 1);
      TakenBlock(e, after, s, len, 2);
      TakenBlock(e, after, s, len, 3);
      TakenBlock(e, after, s, len, 4);
    }
  }

  /** The three blocks after the first are mapped, with an indirect block for them. */
  lemma GoesThrough(e: Disk, after: seq<Inode>, s: seq<Byte>)
    requires Outcome(e, after, s, OFF + 3 * BSIZE)
    ensures Through(Slots(SB, TightDisk(), TightInodes(), 0), Slots(SB, e, after, 0), false)
  {
    var a, b := Slots(SB, TightDisk(), TightInodes(), 0), Slots(SB, e, after, 0);
    TightTable();
    KeptFollows(SB, TightDisk(), TightInodes(), e, after, 0);
    MappedSlots(SB, e, after, 0, OFF + 3 * BSIZE);
    assert b[DataSlot(11)] != 0 && b[DataSlot(12)] != 0 && b[DataSlot(13)] != 0 && b[DataSlot(14)] != 0;
    forall k | New(a, b, k)
      ensures 12 <= k <= 15
    {
      NewSlots(a, b, k);
    }
  }

  /** New blocks were free, and no two free blocks have their bits in the same block of the bitmap. */
  lemma NewApart(e: Disk, after: seq<Inode>, s: seq<Byte>, len: nat, k: nat, l: nat)
    requires Outcome(e, after, s, len) && k != l
    requires var a, b := Slots(SB, TightDisk(), TightInodes(), 0), Slots(SB, e, after, 0); New(a, b, k) && New(a, b, l)
    ensures var b := Slots(SB, e, after, 0); b[k] != b[l] && BBlock(SB, b[k]) != BBlock(SB, b[l])
  {
    var b := Slots(SB, e, after, 0);
    TightOwns();
    NewWasFree(SB, TightDisk(), TightInodes(), e, after, 0, k);
    NewWasFree(SB, TightDisk(), TightInodes(), e, after, 0, l);
    TightUsed(b[k]);
    TightUsed(b[l]);
    assert Slot(after, 0, k) && Addr(SB, e, after, 0, k) == b[k];
    assert Slot(after, 0, l) && Addr(SB, e, after, 0, l) == b[l];
  }

  lemma BlocksApart(e: Disk, after: seq<Inode>, s: seq<Byte>, len: nat)
    requires Outcome(e, after, s, len)
    ensures var b := Slots(SB, e, after, 0);
            && (forall k :: 0 <= k < NSLOT && b[k] != 0 ==> DataBlock(SB, b[k]))
            && (forall k, l :: 0 <= k < l < NSLOT && b[k] == b[l] ==> b[k] == 0)
  {
    var b := Slots(SB, e, after, 0);
    assert forall k: nat :: k < NSLOT ==> Slot(after, 0, k) && Addr(SB, e, after, 0, k) == b[k];
  }

  lemma Scatters(e: Disk, after: seq<Inode>, s: seq<Byte>)
    requires Outcome(e, after, s, OFF + 3 * BSIZE)
    ensures Scattered(SB, Slots(SB, e, after, 0), 12)
  {
    var a, b := Slots(SB, TightDisk(), TightInodes(), 0), Slots(SB, e, after, 0);
    GoesThrough(e, after, s);
    BlocksApart(e, after, s, OFF + 3 * BSIZE);
    forall k: nat, l: nat | 12 <= k < l <= 15
      ensures BBlock(SB, b[k]) != BBlock(SB, b[l])
    {
      NewApart(e, after, s, OFF + 3 * BSIZE, k, l);
    }
  }

  lemma TightLogged(e: Disk, after: seq<Inode>, s: seq<Byte>)
    requires Outcome(e, after, s, OFF + 3 * BSIZE)
    ensures |LogOf(SB, Slots(SB, TightDisk(), TightInodes(), 0), Slots(SB, e, after, 0), 11, 15) + {IBlock(SB, 0)}|
            == MAXOPBLOCKS
  {
    GoesThrough(e, after, s);
    Scatters(e, after, s);
    ThroughSize(SB, Slots(SB, TightDisk(), TightInodes(), 0), Slots(SB, e, after, 0), false, IBlock(SB, 0));
  }

  /** What the contract of writei says of this write. */
  lemma TightRun(e: Disk, after: seq<Inode>, base: set<nat>, logged: set<nat>, s: seq<Byte>, r: nat)
    requires Sane(SB, TightDisk(), TightInodes()) && Owns(SB, e, after, {}) && base == {IBlock(SB, 0)}
    requires Written(SB, TightDisk(), TightInodes(), e, after, 0, OFF, s, OFF + r)
    requires Logs(SB, base, logged, Slots(SB, TightDisk(), TightInodes(), 0), Slots(SB, e, after, 0), OFF, r, 3 * BSIZE)
    requires r < 3 * BSIZE ==> DiskFull(SB, e)
    ensures r == 3 * BSIZE && |logged| == MAXOPBLOCKS
  {
    ChunkSpan();
    var a, b := Slots(SB, TightDisk(), TightInodes(), 0), Slots(SB, e, after, 0);
    assert OnlyNew(a, b, 11, 15) by {
      assert LogsBy(Within, SB, base, logged, a, b, OFF, r, 3 * BSIZE);
    }
    assert r <= 3 * BSIZE by {
      assert LogsBy(Pointers, SB, base, logged, a, b, OFF, r, 3 * BSIZE);
    }
    StaysFree(e, after, s, OFF + r);
    TightSet(base, logged, a, b);
    TightLogged(e, after, s);
  }

  lemma ChunkSpan()
    ensures OFF / BSIZE == 11 && End(OFF, 3 * BSIZE) == 15
  {
  }

  lemma TightSet(base: set<nat>, logged: set<nat>, a: seq<nat>, b: seq<nat>)
    requires Logs(SB, base, logged, a, b, OFF, 3 * BSIZE, 3 * BSIZE) && |b| == NSLOT
    ensures logged == LogOf(SB, a, b, 11, 15) + base
  {
    ChunkSpan();
    assert LogsBy(Exact, SB, base, logged, a, b, OFF, 3 * BSIZE, 3 * BSIZE);
  }

  /** A write of one chunk, on this disk, logs exactly MAXOPBLOCKS blocks. */
  method TightWrite(src: seq<Byte>) returns (fs: FileSys, r: int)
    requires |src| == 3 * BSIZE
    ensures fresh(fs) && fs.Valid() && r == |src| && |fs.logged| == MAXOPBLOCKS
  {
    TightOwns();
    TightNoHoles();
    fs := new FileSys(SB, TightDisk(), TightInodes());
    ghost var t;
    r, t := fs.Writei(0, OFF, src, |src|, 0);
    TightRun(fs.disk, fs.inodes, {} + {IBlock(SB, 0)}, fs.logged, src[..r + t], r);
  }

  /** Eleven blocks, a hole, and nothing after it. */
  function HoleBefore(): (a: seq<nat>)
    ensures |a| == NSLOT && forall k :: 0 <= k < NSLOT ==> a[k] == if k < 11 then SB.nmeta + k else 0
  {
    seq(NSLOT, k => if k < 11 then SB.nmeta + k else 0)
  }

  function HoleAfter(): (b: seq<nat>)
    ensures |b| == NSLOT
    ensures forall k :: 0 <= k < NSLOT ==> b[k] == if 11 <= k <= 15 then FreeIn(k - 11) else HoleBefore()[k]
  {
    seq(NSLOT, k requires 0 <= k < NSLOT => if 11 <= k <= 15 then FreeIn(k - 11) else HoleBefore()[k])
  }

  lemma HoleThrough()
    ensures Through(HoleBefore(), HoleAfter(), true)
  {
  }

  lemma HoleScattered()
    ensures Scattered(SB, HoleAfter(), 11)
  {
    var b := HoleAfter();
    forall k: nat | 11 <= k <= 15
      ensures DataBlock(SB, b[k]) && BBlock(SB, b[k]) == SB.bmapstart + (k - 11)
    {
      FreeBlock(k - 11);
    }
  }

  /** If the first of the four blocks were a hole, the same chunk could log one block more. */
  lemma HoleBreaksBudget()
    ensures HoleBefore()[DataSlot(11)] == 0 && OnlyNew(HoleBefore(), HoleAfter(), 11, 15)
    ensures |LogOf(SB, HoleBefore(), HoleAfter(), 11, 15) + {IBlock(SB, 0)}| == MAXOPBLOCKS + 1
  {
    HoleThrough();
    HoleScattered();
    ThroughSize(SB, HoleBefore(), HoleAfter(), true, IBlock(SB, 0));
    assert DataSlot(11) == 11 && DataSlot(12) == 13 && DataSlot(13) == 14 && DataSlot(14) == 15;
  }
}
