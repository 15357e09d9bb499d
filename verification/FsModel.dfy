/** Blocks, inodes and who owns what: the values behind kernel/fs.c.

    An inode's block pointers are numbered as slots: 0 .. 11 the direct ones, 12 the indirect
    block itself, 13 .. 268 the words of the indirect block. */
module FsModel {
  import opened BlockCodec
  import opened Params

  const NDIRECT: nat := 12
  const IND: nat := 12
  const NSLOT: nat := 269
  const MAXFILE: nat := 268
  const IPB: nat := 16

  type Disk = seq<Block>

  datatype Super = Super(size: nat, inodestart: nat, bmapstart: nat, nmeta: nat)

  datatype Inode = Inode(size: nat, addrs: seq<nat>)

  /** The bitmap lies below the data blocks, and so does block 0. */
  ghost predicate Layout(sb: Super) {
    && 0 < sb.nmeta <= sb.size < UINT
    && sb.bmapstart + (sb.size - 1) / BPB < sb.nmeta
  }

  function BBlock(sb: Super, b: nat): nat {
    b / BPB + sb.bmapstart
  }

  function IBlock(sb: Super, inum: nat): nat {
    inum / IPB + sb.inodestart
  }

  ghost predicate DataBlock(sb: Super, b: nat) {
    sb.nmeta <= b < sb.size
  }

  /** b's bit in the free map. */
  predicate Used(sb: Super, d: Disk, b: nat)
    requires Layout(sb) && |d| == sb.size && b < sb.size
  {
    BlockBit(d[BBlock(sb, b)], b % BPB)
  }

  // ---------- slots ----------

  ghost predicate Shaped(sb: Super, inodes: seq<Inode>) {
    forall i :: 0 <= i < |inodes| ==>
      && |inodes[i].addrs| == NDIRECT + 1
      && forall k :: 0 <= k <= NDIRECT ==> inodes[i].addrs[k] < sb.size
  }

  /** The block number in slot k of an inode. */
  function SlotAddr(d: Disk, ino: Inode, k: nat): nat
    requires |ino.addrs| == NDIRECT + 1 && k < NSLOT && ino.addrs[IND] < |d|
  {
    if k <= IND then ino.addrs[k]
    else if ino.addrs[IND] == 0 then 0
    else Word(d[ino.addrs[IND]], k - IND - 1)
  }

  ghost predicate Slot(inodes: seq<Inode>, i: nat, k: nat) {
    i < |inodes| && k < NSLOT
  }

  ghost function Addr(sb: Super, d: Disk, inodes: seq<Inode>, i: nat, k: nat): nat
    requires |d| == sb.size && Shaped(sb, inodes) && Slot(inodes, i, k)
  {
    SlotAddr(d, inodes[i], k)
  }

  /** All slots of an inode. */
  ghost function Slots(sb: Super, d: Disk, inodes: seq<Inode>, i: nat): (a: seq<nat>)
    requires |d| == sb.size && Shaped(sb, inodes) && i < |inodes|
    ensures |a| == NSLOT
  {
    seq(NSLOT, k requires 0 <= k < NSLOT => SlotAddr(d, inodes[i], k))
  }

  /** The slot of file block bn. */
  function DataSlot(bn: nat): nat {
    if bn < NDIRECT then bn else bn + 1
  }

  ghost predicate Sane(sb: Super, d: Disk, inodes: seq<Inode>) {
    Layout(sb) && |d| == sb.size && Shaped(sb, inodes)
  }

  ghost predicate OwnsBlock(sb: Super, d: Disk, inodes: seq<Inode>, b: nat)
    requires Sane(sb, d, inodes)
  {
    exists i, k :: Slot(inodes, i, k) && Addr(sb, d, inodes, i, k) == b
  }

  /** Every pointer leads to a data block marked in use, no two to the same one, and every data
      block in use is pointed to or is one of `pending`, just allocated and not yet placed. */
  ghost predicate Owns(sb: Super, d: Disk, inodes: seq<Inode>, pending: set<nat>) {
    && Sane(sb, d, inodes)
    && (forall i, k :: Slot(inodes, i, k) && Addr(sb, d, inodes, i, k) != 0 ==>
          var a := Addr(sb, d, inodes, i, k); DataBlock(sb, a) && Used(sb, d, a) && a !in pending)
    && (forall i, k, j, l :: Slot(inodes, i, k) && Slot(inodes, j, l) ==>
          Addr(sb, d, inodes, i, k) == Addr(sb, d, inodes, j, l) != 0 ==> i == j && k == l)
    && (forall b :: 0 <= b < sb.nmeta ==> Used(sb, d, b))
    && (forall b :: b in pending ==> DataBlock(sb, b) && Used(sb, d, b))
    && (forall b :: DataBlock(sb, b) && Used(sb, d, b) && b !in pending ==> OwnsBlock(sb, d, inodes, b))
  }

  // ---------- allocation ----------

  /** balloc's effect: b marked in use and zeroed. */
  function Allocated(sb: Super, d: Disk, b: nat): (r: Disk)
    requires Layout(sb) && |d| == sb.size && b < sb.size
    ensures |r| == |d|
  {
    var m := BBlock(sb, b);
    d[m := SetBlockBit(d[m], b % BPB)][b := ZeroBlock()]
  }

  /** bfree's effect. */
  function Freed(sb: Super, d: Disk, b: nat): (r: Disk)
    requires Layout(sb) && |d| == sb.size && b < sb.size
    ensures |r| == |d|
  {
    var m := BBlock(sb, b);
    d[m := ClearBlockBit(d[m], b % BPB)]
  }

  lemma AllocatedBits(sb: Super, d: Disk, b: nat, c: nat)
    requires Layout(sb) && |d| == sb.size && DataBlock(sb, b) && c < sb.size
    ensures Used(sb, Allocated(sb, d, b), c) <==> c == b || Used(sb, d, c)
  {
  }

  lemma FreedBits(sb: Super, d: Disk, b: nat, c: nat)
    requires Layout(sb) && |d| == sb.size && b < sb.size && c < sb.size
    ensures Used(sb, Freed(sb, d, b), c) <==> c != b && Used(sb, d, c)
  {
  }

  /** Allocating a free data block moves no pointer and makes it pending. */
  lemma AllocatedOwns(sb: Super, d: Disk, inodes: seq<Inode>, b: nat)
    requires Owns(sb, d, inodes, {}) && DataBlock(sb, b) && !Used(sb, d, b)
    ensures Owns(sb, Allocated(sb, d, b), inodes, {b})
    ensures forall i, k :: Slot(inodes, i, k) ==>
      Addr(sb, Allocated(sb, d, b), inodes, i, k) == Addr(sb, d, inodes, i, k)
  {
    var e := Allocated(sb, d, b);
    forall i: nat, k: nat | Slot(inodes, i, k)
      ensures Addr(sb, e, inodes, i, k) == Addr(sb, d, inodes, i, k)
    {
      assert Addr(sb, d, inodes, i, IND) == inodes[i].addrs[IND];
    }
    forall c | 0 <= c < sb.size
      ensures Used(sb, e, c) <==> c == b || Used(sb, d, c)
    {
      AllocatedBits(sb, d, b, c);
    }
    assert forall c :: DataBlock(sb, c) && OwnsBlock(sb, d, inodes, c) ==> OwnsBlock(sb, e, inodes, c);
  }

  // ---------- placing a block ----------

  /** Slot (i, k) and only it goes from empty to the pending block b. */
  ghost predicate Placed(sb: Super, d: Disk, inodes: seq<Inode>, e: Disk, after: seq<Inode>, i: nat, k: nat, b: nat) {
    && Sane(sb, d, inodes) && Sane(sb, e, after) && |after| == |inodes| && Slot(inodes, i, k)
    && Addr(sb, d, inodes, i, k) == 0 && Addr(sb, e, after, i, k) == b
    && (forall j, l :: Slot(inodes, j, l) && (j != i || l != k) ==>
        Addr(sb, e, after, j, l) == Addr(sb, d, inodes, j, l))
    && (forall c :: 0 <= c < sb.size ==> (Used(sb, e, c) <==> Used(sb, d, c)))
  }

  lemma PlacedOwns(sb: Super, d: Disk, inodes: seq<Inode>, e: Disk, after: seq<Inode>, i: nat, k: nat, b: nat)
    requires Owns(sb, d, inodes, {b}) && Placed(sb, d, inodes, e, after, i, k, b)
    ensures Owns(sb, e, after, {})
  {
    forall c | DataBlock(sb, c) && Used(sb, e, c)
      ensures OwnsBlock(sb, e, after, c)
    {
      if c == b {
        assert Slot(after, i, k) && Addr(sb, e, after, i, k) == b;
      } else {
        assert OwnsBlock(sb, d, inodes, c);
        var j, l :| Slot(inodes, j, l) && Addr(sb, d, inodes, j, l) == c;
        assert Slot(after, j, l) && Addr(sb, e, after, j, l) == c;
      }
    }
  }

  function SetAddr(inodes: seq<Inode>, i: nat, k: nat, b: nat): (r: seq<Inode>)
    requires i < |inodes| && |inodes[i].addrs| == NDIRECT + 1 && k <= NDIRECT
  {
    inodes[i := inodes[i].(addrs := inodes[i].addrs[k := b])]
  }

  /** ip->addrs[k] = b for a direct slot, or for the indirect one with a zeroed b. */
  lemma AddrPlaced(sb: Super, d: Disk, inodes: seq<Inode>, i: nat, k: nat, b: nat)
    requires Sane(sb, d, inodes) && i < |inodes| && k <= NDIRECT && 0 < b < sb.size
    requires inodes[i].addrs[k] == 0 && d[b] == ZeroBlock()
    ensures Placed(sb, d, inodes, d, SetAddr(inodes, i, k, b), i, k, b)
  {
    var after := SetAddr(inodes, i, k, b);
    forall j: nat, l: nat | Slot(inodes, j, l) && (j != i || l != k)
      ensures Addr(sb, d, after, j, l) == Addr(sb, d, inodes, j, l)
    {
      if j == i && k == IND && l > IND {
        ZeroWord(l - IND - 1);
      }
    }
  }

  /** a[k] = b in the indirect block of inode i. */
  lemma EntryPlaced(sb: Super, d: Disk, inodes: seq<Inode>, i: nat, k: nat, b: nat)
    requires Owns(sb, d, inodes, {b}) && Slot(inodes, i, k) && k > IND && b < sb.size
    requires inodes[i].addrs[IND] != 0 && Addr(sb, d, inodes, i, k) == 0
    ensures var ind := inodes[i].addrs[IND];
            Placed(sb, d, inodes, d[ind := PutWord(d[ind], k - IND - 1, b)], inodes, i, k, b)
  {
    var ind := inodes[i].addrs[IND];
    var e := d[ind := PutWord(d[ind], k - IND - 1, b)];
    assert Addr(sb, d, inodes, i, IND) == ind;
    forall j: nat, l: nat | Slot(inodes, j, l)
      ensures Addr(sb, e, inodes, j, l) == if j == i && l == k then b else Addr(sb, d, inodes, j, l)
    {
      assert Addr(sb, d, inodes, j, IND) == inodes[j].addrs[IND];
      if l > IND && inodes[j].addrs[IND] == ind {
        WordAfterPut(d[ind], k - IND - 1, b, l - IND - 1);
      }
    }
  }

  // ---------- writing data ----------

  /** Overwriting a block of file data moves no pointer and changes no bit. */
  lemma DataWritten(sb: Super, d: Disk, inodes: seq<Inode>, i: nat, k: nat, x: Block)
    requires Owns(sb, d, inodes, {}) && Slot(inodes, i, k) && k != IND && Addr(sb, d, inodes, i, k) != 0
    ensures var e := d[Addr(sb, d, inodes, i, k) := x];
            && Owns(sb, e, inodes, {})
            && forall j, l :: Slot(inodes, j, l) ==> Addr(sb, e, inodes, j, l) == Addr(sb, d, inodes, j, l)
  {
    var a := Addr(sb, d, inodes, i, k);
    var e := d[a := x];
    forall j: nat, l: nat | Slot(inodes, j, l)
      ensures Addr(sb, e, inodes, j, l) == Addr(sb, d, inodes, j, l)
    {
      assert Addr(sb, d, inodes, j, IND) == inodes[j].addrs[IND];
    }
    assert forall c :: 0 <= c < sb.size ==> (Used(sb, e, c) <==> Used(sb, d, c));
    assert forall c :: DataBlock(sb, c) && OwnsBlock(sb, d, inodes, c) ==> OwnsBlock(sb, e, inodes, c);
  }

  // ---------- truncation ----------

  /** The blocks of inode i. */
  ghost predicate BlockOf(sb: Super, d: Disk, inodes: seq<Inode>, i: nat, b: nat)
    requires Sane(sb, d, inodes) && i < |inodes|
  {
    b != 0 && exists k :: Slot(inodes, i, k) && Addr(sb, d, inodes, i, k) == b
  }

  ghost function Emptied(inodes: seq<Inode>, i: nat): seq<Inode>
    requires i < |inodes|
  {
    inodes[i := Inode(0, seq(NDIRECT + 1, _ => 0))]
  }

  /** Only the free map differs. */
  ghost predicate SameButMap(sb: Super, d: Disk, e: Disk) {
    && |d| == |e| == sb.size
    && forall b: nat :: DataBlock(sb, b) ==> d[b] == e[b]
  }

  /** Freeing exactly inode i's blocks and emptying it keeps everything else as it was. */
  lemma EmptiedOwns(sb: Super, d: Disk, inodes: seq<Inode>, e: Disk, i: nat)
    requires Owns(sb, d, inodes, {}) && i < |inodes| && SameButMap(sb, d, e)
    requires forall c :: 0 <= c < sb.size ==>
      (Used(sb, e, c) <==> Used(sb, d, c) && !BlockOf(sb, d, inodes, i, c))
    ensures Owns(sb, e, Emptied(inodes, i), {})
    ensures forall j, l :: Slot(inodes, j, l) && j != i ==>
      Addr(sb, e, Emptied(inodes, i), j, l) == Addr(sb, d, inodes, j, l)
  {
    var after := Emptied(inodes, i);
    forall j: nat, l: nat | Slot(inodes, j, l)
      ensures Addr(sb, e, after, j, l) == if j == i then 0 else Addr(sb, d, inodes, j, l)
    {
      assert Addr(sb, d, inodes, j, IND) == inodes[j].addrs[IND];
    }
    forall c | DataBlock(sb, c) && Used(sb, e, c)
      ensures OwnsBlock(sb, e, after, c)
    {
      var j, l :| Slot(inodes, j, l) && Addr(sb, d, inodes, j, l) == c;
      assert j != i;
      assert Slot(after, j, l) && Addr(sb, e, after, j, l) == c;
    }
  }

  // ---------- file contents ----------

  /** Byte x of file i; a block that is not mapped reads as zeros. */
  ghost function ByteAt(sb: Super, d: Disk, inodes: seq<Inode>, i: nat, x: nat): Byte
    requires Sane(sb, d, inodes) && i < |inodes| && x < MAXFILE * BSIZE
  {
    var a := Addr(sb, d, inodes, i, DataSlot(x / BSIZE));
    if 0 < a < sb.size then d[a][x % BSIZE] else 0
  }

  ghost predicate Both(sb: Super, d: Disk, inodes: seq<Inode>, e: Disk, after: seq<Inode>) {
    Sane(sb, d, inodes) && Sane(sb, e, after) && |after| == |inodes|
  }

  ghost function FileBytes(sb: Super, d: Disk, inodes: seq<Inode>, i: nat): (c: seq<Byte>)
    requires Sane(sb, d, inodes) && i < |inodes|
    ensures |c| == MAXFILE * BSIZE
  {
    seq(MAXFILE * BSIZE, x requires 0 <= x < MAXFILE * BSIZE => ByteAt(sb, d, inodes, i, x))
  }

  ghost function Files(sb: Super, d: Disk, inodes: seq<Inode>): (f: seq<seq<Byte>>)
    requires Sane(sb, d, inodes)
    ensures |f| == |inodes|
  {
    seq(|inodes|, j requires 0 <= j < |inodes| => FileBytes(sb, d, inodes, j))
  }

  lemma SameFiles(sb: Super, d: Disk, inodes: seq<Inode>, e: Disk, after: seq<Inode>)
    requires Both(sb, d, inodes, e, after)
    requires forall j, x :: 0 <= j < |inodes| && 0 <= x < MAXFILE * BSIZE ==>
      ByteAt(sb, e, after, j, x) == ByteAt(sb, d, inodes, j, x)
    ensures Files(sb, e, after) == Files(sb, d, inodes)
  {
    forall j | 0 <= j < |inodes|
      ensures Files(sb, e, after)[j] == Files(sb, d, inodes)[j]
    {
      assert FileBytes(sb, e, after, j) == FileBytes(sb, d, inodes, j);
    }
  }

  ghost predicate SameBytes(sb: Super, d: Disk, inodes: seq<Inode>, e: Disk, after: seq<Inode>) {
    && Both(sb, d, inodes, e, after) && Files(sb, e, after) == Files(sb, d, inodes)
    && (forall j :: 0 <= j < |inodes| ==> after[j].size == inodes[j].size)
  }

  /** Every block below the size is mapped. */
  ghost predicate NoHoles(sb: Super, d: Disk, inodes: seq<Inode>, i: nat)
    requires Sane(sb, d, inodes) && i < |inodes|
  {
    inodes[i].size <= MAXFILE * BSIZE && Mapped(sb, d, inodes, i, inodes[i].size)
  }

  ghost function Content(sb: Super, d: Disk, inodes: seq<Inode>, i: nat): (c: seq<Byte>)
    requires Sane(sb, d, inodes) && i < |inodes| && inodes[i].size <= MAXFILE * BSIZE
    ensures |c| == inodes[i].size
  {
    Files(sb, d, inodes)[i][..inodes[i].size]
  }

  /** c with s written over it from off on, growing as needed. */
  ghost function Splice(c: seq<Byte>, off: nat, s: seq<Byte>): seq<Byte>
    requires off <= |c|
  {
    c[..off] + s + if off + |s| < |c| then c[off + |s|..] else []
  }

  /** Placing a zeroed block changes no byte of any file. */
  lemma PlacedSameBytes(sb: Super, d: Disk, inodes: seq<Inode>, e: Disk, after: seq<Inode>, i: nat, k: nat, b: nat)
    requires Owns(sb, d, inodes, {b}) && Placed(sb, d, inodes, e, after, i, k, b)
    requires d[b] == ZeroBlock()
    requires forall c: nat :: DataBlock(sb, c) && (forall j :: 0 <= j < |inodes| ==> inodes[j].addrs[IND] != c) ==>
             e[c] == d[c]
    requires forall j :: 0 <= j < |inodes| ==> after[j].size == inodes[j].size
    ensures SameBytes(sb, d, inodes, e, after)
  {
    forall j: nat, x: nat | j < |inodes| && x < MAXFILE * BSIZE
      ensures ByteAt(sb, e, after, j, x) == ByteAt(sb, d, inodes, j, x)
    {
      var l := DataSlot(x / BSIZE);
      var a := Addr(sb, e, after, j, l);
      if a != 0 {
        forall m | 0 <= m < |inodes|
          ensures inodes[m].addrs[IND] != a
        {
          assert Addr(sb, d, inodes, m, IND) == inodes[m].addrs[IND];
        }
      }
    }
    SameFiles(sb, d, inodes, e, after);
  }

  // ---------- what bmap keeps ----------

  /** No pointer in use moves. */
  ghost predicate Kept(sb: Super, d: Disk, inodes: seq<Inode>, e: Disk, after: seq<Inode>)
    requires Both(sb, d, inodes, e, after)
  {
    forall j, l :: Slot(inodes, j, l) && Addr(sb, d, inodes, j, l) != 0 ==>
      Addr(sb, e, after, j, l) == Addr(sb, d, inodes, j, l)
  }

  /** No pointer in use moves and no byte changes. */
  ghost predicate Extends(sb: Super, d: Disk, inodes: seq<Inode>, e: Disk, after: seq<Inode>) {
    SameBytes(sb, d, inodes, e, after) && Kept(sb, d, inodes, e, after)
  }

  /** Inodes other than i, and all their pointers, are as before. */
  ghost predicate Others(sb: Super, d: Disk, inodes: seq<Inode>, e: Disk, after: seq<Inode>, i: nat)
    requires Both(sb, d, inodes, e, after)
  {
    && (forall j :: 0 <= j < |inodes| && j != i ==> after[j] == inodes[j])
    && (forall j :: 0 <= j < |inodes| && j != i ==> Slots(sb, e, after, j) == Slots(sb, d, inodes, j))
  }

  lemma SameSlots(sb: Super, d: Disk, inodes: seq<Inode>, e: Disk, after: seq<Inode>)
    requires Both(sb, d, inodes, e, after)
    requires forall j, l :: Slot(inodes, j, l) ==> Addr(sb, e, after, j, l) == Addr(sb, d, inodes, j, l)
    ensures forall j :: 0 <= j < |inodes| ==> Slots(sb, e, after, j) == Slots(sb, d, inodes, j)
  {
    forall j | 0 <= j < |inodes|
      ensures Slots(sb, e, after, j) == Slots(sb, d, inodes, j)
    {
      forall l | 0 <= l < NSLOT
        ensures Slots(sb, e, after, j)[l] == Slots(sb, d, inodes, j)[l]
      {
        assert Slot(inodes, j, l);
      }
    }
  }

  lemma PlacedSlots(sb: Super, d: Disk, inodes: seq<Inode>, e: Disk, after: seq<Inode>, i: nat, k: nat, b: nat)
    requires Placed(sb, d, inodes, e, after, i, k, b)
    requires forall j :: 0 <= j < |inodes| && j != i ==> after[j] == inodes[j]
    ensures Slots(sb, e, after, i) == Slots(sb, d, inodes, i)[k := b] && Others(sb, d, inodes, e, after, i)
  {
    forall j | 0 <= j < |inodes|
      ensures Slots(sb, e, after, j) == if j == i then Slots(sb, d, inodes, j)[k := b] else Slots(sb, d, inodes, j)
    {
      forall l | 0 <= l < NSLOT
        ensures Slots(sb, e, after, j)[l] == if j == i && l == k then b else Slots(sb, d, inodes, j)[l]
      {
        assert Slot(inodes, j, l) && Addr(sb, d, inodes, j, l) == Slots(sb, d, inodes, j)[l];
        assert Addr(sb, e, after, j, l) == Slots(sb, e, after, j)[l];
      }
    }
  }

  lemma ExtendsTrans(sb: Super, d: Disk, inodes: seq<Inode>, e: Disk, mid: seq<Inode>, f: Disk, after: seq<Inode>)
    requires Extends(sb, d, inodes, e, mid) && Extends(sb, e, mid, f, after)
    ensures Extends(sb, d, inodes, f, after)
  {
  }

  /** balloc followed by ip->addrs[k] = b. */
  lemma AddrExtends(sb: Super, d: Disk, inodes: seq<Inode>, i: nat, k: nat, b: nat)
    requires Owns(sb, d, inodes, {}) && i < |inodes| && k <= NDIRECT && inodes[i].addrs[k] == 0
    requires DataBlock(sb, b) && !Used(sb, d, b)
    ensures var e := Allocated(sb, d, b);
            var after := SetAddr(inodes, i, k, b);
            && Owns(sb, e, after, {}) && Extends(sb, d, inodes, e, after) && Others(sb, d, inodes, e, after, i)
            && Slots(sb, e, after, i) == Slots(sb, d, inodes, i)[k := b]
  {
    var e := Allocated(sb, d, b);
    AllocatedOwns(sb, d, inodes, b);
    SameSlots(sb, d, inodes, e, inodes);
    AllocatedSameBytes(sb, d, inodes, b);
    AddrPlaced(sb, e, inodes, i, k, b);
    PlacedSlots(sb, e, inodes, e, SetAddr(inodes, i, k, b), i, k, b);
    PlacedOwns(sb, e, inodes, e, SetAddr(inodes, i, k, b), i, k, b);
    PlacedSameBytes(sb, e, inodes, e, SetAddr(inodes, i, k, b), i, k, b);
  }

  /** balloc followed by a[k] = b in the indirect block. */
  lemma EntryExtends(sb: Super, d: Disk, inodes: seq<Inode>, i: nat, k: nat, b: nat)
    requires Owns(sb, d, inodes, {}) && Slot(inodes, i, k) && k > IND
    requires inodes[i].addrs[IND] != 0 && Addr(sb, d, inodes, i, k) == 0
    requires DataBlock(sb, b) && !Used(sb, d, b)
    ensures var e := Allocated(sb, d, b);
            var ind := inodes[i].addrs[IND];
            var f := e[ind := PutWord(e[ind], k - IND - 1, b)];
            && Owns(sb, f, inodes, {}) && Extends(sb, d, inodes, f, inodes) && Others(sb, d, inodes, f, inodes, i)
            && Addr(sb, f, inodes, i, k) == b && Slots(sb, f, inodes, i) == Slots(sb, d, inodes, i)[k := b]
  {
    var e := Allocated(sb, d, b);
    var ind := inodes[i].addrs[IND];
    var f := e[ind := PutWord(e[ind], k - IND - 1, b)];
    AllocatedOwns(sb, d, inodes, b);
    SameSlots(sb, d, inodes, e, inodes);
    AllocatedSameBytes(sb, d, inodes, b);
    EntryPlaced(sb, e, inodes, i, k, b);
    PlacedSlots(sb, e, inodes, f, inodes, i, k, b);
    PlacedOwns(sb, e, inodes, f, inodes, i, k, b);
    PlacedSameBytes(sb, e, inodes, f, inodes, i, k, b);
  }

  lemma AllocatedSameBytes(sb: Super, d: Disk, inodes: seq<Inode>, b: nat)
    requires Owns(sb, d, inodes, {}) && DataBlock(sb, b) && !Used(sb, d, b)
    ensures SameBytes(sb, d, inodes, Allocated(sb, d, b), inodes)
  {
    var e := Allocated(sb, d, b);
    AllocatedOwns(sb, d, inodes, b);
    forall j: nat, x: nat | j < |inodes| && x < MAXFILE * BSIZE
      ensures ByteAt(sb, e, inodes, j, x) == ByteAt(sb, d, inodes, j, x)
    {
      assert Addr(sb, e, inodes, j, DataSlot(x / BSIZE)) == Addr(sb, d, inodes, j, DataSlot(x / BSIZE));
    }
    SameFiles(sb, d, inodes, e, inodes);
  }

  // ---------- freeing a list of blocks ----------

  ghost function NonZero(a: seq<nat>): set<nat> {
    set x | x in a && x != 0
  }

  ghost predicate OnceEach(a: seq<nat>) {
    forall j, l :: 0 <= j < l < |a| && a[j] == a[l] ==> a[j] == 0
  }

  ghost predicate AllUsed(sb: Super, d: Disk, s: set<nat>)
    requires Layout(sb) && |d| == sb.size
  {
    forall x :: x in s ==> x < sb.size && Used(sb, d, x)
  }

  /** e is d with exactly the blocks `gone` taken out of the free map. */
  ghost predicate Without(sb: Super, d: Disk, e: Disk, gone: set<nat>) {
    && Layout(sb) && |d| == sb.size && SameButMap(sb, d, e)
    && forall c :: 0 <= c < sb.size ==> (Used(sb, e, c) <==> Used(sb, d, c) && c !in gone)
  }

  lemma FreedWithout(sb: Super, d: Disk, e: Disk, gone: set<nat>, b: nat)
    requires Without(sb, d, e, gone) && b < sb.size
    ensures Without(sb, d, Freed(sb, e, b), gone + {b})
  {
    forall c | 0 <= c < sb.size
      ensures Used(sb, Freed(sb, e, b), c) <==> Used(sb, d, c) && c !in gone + {b}
    {
      FreedBits(sb, e, b, c);
    }
  }

  lemma WithoutTrans(sb: Super, d: Disk, e: Disk, f: Disk, a: set<nat>, b: set<nat>)
    requires Without(sb, d, e, a) && Without(sb, e, f, b)
    ensures Without(sb, d, f, a + b)
  {
  }

  // ---------- an inode's blocks as lists ----------

  function Words(b: Block): (r: seq<nat>)
    ensures |r| == WORDS
  {
    seq(WORDS, j requires 0 <= j < WORDS => Word(b, j))
  }

  ghost function Entries(d: Disk, ino: Inode): (r: seq<nat>)
    requires |ino.addrs| == NDIRECT + 1 && ino.addrs[IND] < |d|
  {
    if ino.addrs[IND] == 0 then [] else Words(d[ino.addrs[IND]])
  }

  ghost function AllBlocks(d: Disk, ino: Inode): set<nat>
    requires |ino.addrs| == NDIRECT + 1 && ino.addrs[IND] < |d|
  {
    NonZero(ino.addrs[..NDIRECT]) + NonZero(Entries(d, ino)) + NonZero([ino.addrs[IND]])
  }

  lemma AllBlocksOf(sb: Super, d: Disk, inodes: seq<Inode>, i: nat, c: nat)
    requires Sane(sb, d, inodes) && i < |inodes|
    ensures BlockOf(sb, d, inodes, i, c) <==> c in AllBlocks(d, inodes[i])
  {
    var ino := inodes[i];
    if BlockOf(sb, d, inodes, i, c) {
      var k: nat :| Slot(inodes, i, k) && Addr(sb, d, inodes, i, k) == c;
      if k < IND {
        assert ino.addrs[..NDIRECT][k] == c;
      } else if k > IND {
        assert Entries(d, ino)[k - IND - 1] == c;
      }
    }
    if c in NonZero(ino.addrs[..NDIRECT]) {
      var k :| 0 <= k < NDIRECT && ino.addrs[..NDIRECT][k] == c;
      assert Slot(inodes, i, k) && Addr(sb, d, inodes, i, k) == c;
    }
    if c in NonZero(Entries(d, ino)) {
      var k :| 0 <= k < WORDS && Entries(d, ino)[k] == c;
      assert Slot(inodes, i, IND + 1 + k) && Addr(sb, d, inodes, i, IND + 1 + k) == c;
    }
    assert Slot(inodes, i, IND) && Addr(sb, d, inodes, i, IND) == ino.addrs[IND];
  }

  /** The three lists are free of repetition, disjoint, and all in use. */
  lemma ListsOnce(sb: Super, d: Disk, inodes: seq<Inode>, i: nat)
    requires Owns(sb, d, inodes, {}) && i < |inodes|
    ensures var ino := inodes[i];
            && OnceEach(ino.addrs[..NDIRECT]) && OnceEach(Entries(d, ino))
            && NonZero(ino.addrs[..NDIRECT]) !! NonZero(Entries(d, ino))
            && NonZero([ino.addrs[IND]]) !! NonZero(ino.addrs[..NDIRECT]) + NonZero(Entries(d, ino))
            && AllUsed(sb, d, AllBlocks(d, ino))
  {
    DirectOnce(sb, d, inodes, i);
    EntriesOnce(sb, d, inodes, i);
    IndirectOnce(sb, d, inodes, i);
  }

  lemma DirectOnce(sb: Super, d: Disk, inodes: seq<Inode>, i: nat)
    requires Owns(sb, d, inodes, {}) && i < |inodes|
    ensures OnceEach(inodes[i].addrs[..NDIRECT]) && AllUsed(sb, d, NonZero(inodes[i].addrs[..NDIRECT]))
  {
    var ino := inodes[i];
    assert forall k: nat :: k <= IND ==> Addr(sb, d, inodes, i, k) == ino.addrs[k];
    assert forall k: nat :: k < NSLOT ==> Slot(inodes, i, k);
  }

  lemma EntriesOnce(sb: Super, d: Disk, inodes: seq<Inode>, i: nat)
    requires Owns(sb, d, inodes, {}) && i < |inodes|
    ensures var ino := inodes[i];
            && OnceEach(Entries(d, ino)) && AllUsed(sb, d, NonZero(Entries(d, ino)))
            && NonZero(ino.addrs[..NDIRECT]) !! NonZero(Entries(d, ino))
  {
    var ino := inodes[i];
    assert forall k: nat :: k <= IND ==> Addr(sb, d, inodes, i, k) == ino.addrs[k];
    assert forall k: nat :: k < |Entries(d, ino)| ==> Addr(sb, d, inodes, i, IND + 1 + k) == Entries(d, ino)[k];
    assert forall k: nat :: k < NSLOT ==> Slot(inodes, i, k);
  }

  lemma IndirectOnce(sb: Super, d: Disk, inodes: seq<Inode>, i: nat)
    requires Owns(sb, d, inodes, {}) && i < |inodes|
    ensures var ino := inodes[i];
            && NonZero([ino.addrs[IND]]) !! NonZero(ino.addrs[..NDIRECT]) + NonZero(Entries(d, ino))
            && AllUsed(sb, d, NonZero([ino.addrs[IND]]))
  {
    var ino := inodes[i];
    assert forall k: nat :: k <= IND ==> Addr(sb, d, inodes, i, k) == ino.addrs[k];
    assert forall k: nat :: k < |Entries(d, ino)| ==> Addr(sb, d, inodes, i, IND + 1 + k) == Entries(d, ino)[k];
    assert forall k: nat :: k < NSLOT ==> Slot(inodes, i, k);
  }

  // ---------- writing bytes ----------

  ghost function Over(c: seq<Byte>, off: nat, s: seq<Byte>): (r: seq<Byte>)
    ensures |r| == |c|
  {
    seq(|c|, x requires 0 <= x < |c| => if off <= x < off + |s| then s[x - off] else c[x])
  }

  /** The bytes of every file are as before, except that s now stands at off in file i. */
  ghost predicate Wrote(sb: Super, d: Disk, inodes: seq<Inode>, e: Disk, after: seq<Inode>, i: nat, off: nat,
      s: seq<Byte>)
    requires Both(sb, d, inodes, e, after) && i < |inodes|
  {
    Files(sb, e, after) == Files(sb, d, inodes)[i := Over(Files(sb, d, inodes)[i], off, s)]
  }

  lemma WroteNothing(sb: Super, d: Disk, inodes: seq<Inode>, e: Disk, after: seq<Inode>, i: nat, off: nat)
    requires SameBytes(sb, d, inodes, e, after) && i < |inodes|
    ensures Wrote(sb, d, inodes, e, after, i, off, [])
  {
    assert Over(Files(sb, d, inodes)[i], off, []) == Files(sb, d, inodes)[i];
  }

  lemma WroteMore(sb: Super, d: Disk, inodes: seq<Inode>, e: Disk, mid: seq<Inode>, f: Disk, after: seq<Inode>,
                  i: nat, off: nat, s: seq<Byte>, more: seq<Byte>)
    requires Both(sb, d, inodes, e, mid) && Both(sb, e, mid, f, after) && i < |inodes|
    requires Wrote(sb, d, inodes, e, mid, i, off, s) && Wrote(sb, e, mid, f, after, i, off + |s|, more)
    ensures Wrote(sb, d, inodes, f, after, i, off, s + more)
  {
    OverOver(Files(sb, d, inodes)[i], off, s, more);
  }

  lemma OverOver(c: seq<Byte>, off: nat, s: seq<Byte>, more: seq<Byte>)
    ensures Over(Over(c, off, s), off + |s|, more) == Over(c, off, s + more)
  {
  }

  lemma KeptTrans(sb: Super, d: Disk, inodes: seq<Inode>, e: Disk, mid: seq<Inode>, f: Disk, after: seq<Inode>)
    requires Both(sb, d, inodes, e, mid) && Both(sb, e, mid, f, after)
    requires Kept(sb, d, inodes, e, mid) && Kept(sb, e, mid, f, after)
    ensures Kept(sb, d, inodes, f, after)
  {
  }

  /** s copied into a block at offset o. */
  function Patch(x: Block, o: nat, s: seq<Byte>): (r: Block)
    requires o + |s| <= BSIZE
  {
    x[..o] + s + x[o + |s|..]
  }

  lemma PatchWrote(sb: Super, d: Disk, inodes: seq<Inode>, i: nat, off: nat, s: seq<Byte>)
    requires Owns(sb, d, inodes, {}) && i < |inodes| && off < MAXFILE * BSIZE && off % BSIZE + |s| <= BSIZE
    requires Addr(sb, d, inodes, i, DataSlot(off / BSIZE)) != 0
    ensures var a := Addr(sb, d, inodes, i, DataSlot(off / BSIZE));
            var e := d[a := Patch(d[a], off % BSIZE, s)];
            && Owns(sb, e, inodes, {}) && Kept(sb, d, inodes, e, inodes)
            && Wrote(sb, d, inodes, e, inodes, i, off, s)
            && forall j :: 0 <= j < |inodes| ==> Slots(sb, e, inodes, j) == Slots(sb, d, inodes, j)
  {
    var k := DataSlot(off / BSIZE);
    var a := Addr(sb, d, inodes, i, k);
    var e := d[a := Patch(d[a], off % BSIZE, s)];
    DataWritten(sb, d, inodes, i, k, Patch(d[a], off % BSIZE, s));
    SameSlots(sb, d, inodes, e, inodes);
    forall j: nat, x: nat | j < |inodes| && x < MAXFILE * BSIZE
      ensures ByteAt(sb, e, inodes, j, x) == if j == i && off <= x < off + |s| then s[x - off]
              else ByteAt(sb, d, inodes, j, x)
    {
      var l := DataSlot(x / BSIZE);
      assert Addr(sb, e, inodes, j, l) == Addr(sb, d, inodes, j, l);
      InBlock(off, x, |s|);
    }
    BytesWrote(sb, d, inodes, e, inodes, i, off, s);
  }

  lemma BytesWrote(sb: Super, d: Disk, inodes: seq<Inode>, e: Disk, after: seq<Inode>, i: nat, off: nat, s: seq<Byte>)
    requires Both(sb, d, inodes, e, after) && i < |inodes|
    requires forall j, x :: 0 <= j < |inodes| && 0 <= x < MAXFILE * BSIZE ==>
      ByteAt(sb, e, after, j, x) == if j == i && off <= x < off + |s| then s[x - off] else ByteAt(sb, d, inodes, j, x)
    ensures Wrote(sb, d, inodes, e, after, i, off, s)
  {
    forall j | 0 <= j < |inodes|
      ensures Files(sb, e, after)[j] == if j == i then Over(Files(sb, d, inodes)[i], off, s)
              else Files(sb, d, inodes)[j]
    {
      FileWrote(FileBytes(sb, d, inodes, j), FileBytes(sb, e, after, j), j == i, off, s);
    }
  }

  /** One file's bytes: s over the old ones, or the old ones. */
  lemma FileWrote(c: seq<Byte>, r: seq<Byte>, hit: bool, off: nat, s: seq<Byte>)
    requires |c| == |r| && forall x :: 0 <= x < |r| ==> r[x] == if hit && off <= x < off + |s| then s[x - off] else c[x]
    ensures r == if hit then Over(c, off, s) else c
  {
  }

  /** A run of n bytes from off that stays inside one block. */
  lemma InBlock(off: nat, x: nat, n: nat)
    requires off % BSIZE + n <= BSIZE
    ensures off <= x < off + n <==> x / BSIZE == off / BSIZE && off % BSIZE <= x % BSIZE < off % BSIZE + n
    ensures off <= x < off + n ==> x % BSIZE - off % BSIZE == x - off
  {
  }

  // ---------- blocks below a length ----------

  ghost predicate Mapped(sb: Super, d: Disk, inodes: seq<Inode>, i: nat, len: nat)
    requires Sane(sb, d, inodes) && i < |inodes|
  {
    forall bn :: 0 <= bn < MAXFILE && bn * BSIZE < len ==> Addr(sb, d, inodes, i, DataSlot(bn)) != 0
  }

  lemma KeptMapped(sb: Super, d: Disk, inodes: seq<Inode>, e: Disk, after: seq<Inode>, i: nat, len: nat)
    requires Both(sb, d, inodes, e, after) && Kept(sb, d, inodes, e, after) && i < |inodes|
    requires Mapped(sb, d, inodes, i, len)
    ensures Mapped(sb, e, after, i, len)
  {
    forall bn | 0 <= bn < MAXFILE && bn * BSIZE < len
      ensures Addr(sb, e, after, i, DataSlot(bn)) != 0
    {
      assert Slot(inodes, i, DataSlot(bn));
    }
  }

  lemma MappedMore(sb: Super, d: Disk, inodes: seq<Inode>, i: nat, off: nat, n: nat)
    requires Sane(sb, d, inodes) && i < |inodes| && off < MAXFILE * BSIZE && off % BSIZE + n <= BSIZE
    requires Mapped(sb, d, inodes, i, off) && Addr(sb, d, inodes, i, DataSlot(off / BSIZE)) != 0
    ensures Mapped(sb, d, inodes, i, off + n)
  {
    forall bn | 0 <= bn < MAXFILE && bn * BSIZE < off + n
      ensures Addr(sb, d, inodes, i, DataSlot(bn)) != 0
    {
      assert bn * BSIZE < off || bn == off / BSIZE;
    }
  }

  /** Part of a write to file i: s is in place at off, no pointer in use has moved, and neither
      the size nor any other inode has changed. */
  ghost predicate Grew(sb: Super, d: Disk, inodes: seq<Inode>, e: Disk, after: seq<Inode>, i: nat, off: nat,
      s: seq<Byte>) {
    && i < |inodes| && Both(sb, d, inodes, e, after)
    && Wrote(sb, d, inodes, e, after, i, off, s) && Kept(sb, d, inodes, e, after)
    && after[i].size == inodes[i].size && Others(sb, d, inodes, e, after, i)
  }

  lemma GrewNothing(sb: Super, d: Disk, inodes: seq<Inode>, e: Disk, mid: seq<Inode>, i: nat, off: nat)
    requires Extends(sb, d, inodes, e, mid) && i < |inodes| && Others(sb, d, inodes, e, mid, i)
    ensures Grew(sb, d, inodes, e, mid, i, off, [])
  {
    WroteNothing(sb, d, inodes, e, mid, i, off);
  }

  /** A write on top of a bmap. */
  lemma GrewAfter(sb: Super, d: Disk, inodes: seq<Inode>, e: Disk, mid: seq<Inode>, f: Disk, after: seq<Inode>,
                  i: nat, off: nat, s: seq<Byte>)
    requires Extends(sb, d, inodes, e, mid) && Others(sb, d, inodes, e, mid, i) && Grew(sb, e, mid, f, after, i, off, s)
    ensures Grew(sb, d, inodes, f, after, i, off, s)
  {
    KeptTrans(sb, d, inodes, e, mid, f, after);
  }

  lemma GrewMore(sb: Super, d: Disk, inodes: seq<Inode>, e: Disk, mid: seq<Inode>, f: Disk, after: seq<Inode>,
                 i: nat, off: nat, s: seq<Byte>, at: nat, more: seq<Byte>)
    requires Grew(sb, d, inodes, e, mid, i, off, s) && Grew(sb, e, mid, f, after, i, at, more) && at == off + |s|
    ensures Grew(sb, d, inodes, f, after, i, off, s + more)
  {
    WroteMore(sb, d, inodes, e, mid, f, after, i, off, s, more);
    KeptTrans(sb, d, inodes, e, mid, f, after);
  }

  /** Blocks mapped up to `reach` stay mapped, and so does the one just written. */
  lemma GrewMapped(sb: Super, d: Disk, inodes: seq<Inode>, e: Disk, after: seq<Inode>, i: nat, off: nat, s: seq<Byte>,
      reach: nat)
    requires Grew(sb, d, inodes, e, after, i, off, s) && Mapped(sb, d, inodes, i, reach) && off <= reach
    requires off < MAXFILE * BSIZE && off % BSIZE + |s| <= BSIZE && Addr(sb, e, after, i, DataSlot(off / BSIZE)) != 0
    ensures Mapped(sb, e, after, i, if reach < off + |s| then off + |s| else reach)
  {
    KeptMapped(sb, d, inodes, e, after, i, reach);
    MappedMore(sb, e, after, i, off, |s|);
  }

  lemma StartWriting(sb: Super, d: Disk, inodes: seq<Inode>, i: nat, off: nat, src: seq<Byte>)
    requires Sane(sb, d, inodes) && i < |inodes|
    ensures Grew(sb, d, inodes, d, inodes, i, off, src[..0])
  {
    WroteNothing(sb, d, inodes, d, inodes, i, off);
    assert src[..0] == [];
  }

  /** A round of writei on top of the rounds before it. */
  lemma RoundDone(sb: Super, d: Disk, inodes: seq<Inode>, e: Disk, mid: seq<Inode>, f: Disk, after: seq<Inode>,
                  i: nat, off: nat, src: seq<Byte>, tot: nat, t: nat, reach: nat, ok: bool)
    requires tot + t <= |src| && off + |src| <= MAXFILE * BSIZE && (off + tot) % BSIZE + t <= BSIZE && (ok ==> 0 < t)
    requires Grew(sb, d, inodes, e, mid, i, off, src[..tot])
    requires Grew(sb, e, mid, f, after, i, off + tot, src[tot..tot + t])
    requires Mapped(sb, e, mid, i, reach) && off + tot <= reach
    requires ok ==> Addr(sb, f, after, i, DataSlot((off + tot) / BSIZE)) != 0
    ensures Grew(sb, d, inodes, f, after, i, off, src[..tot + t])
    ensures Mapped(sb, f, after, i, if ok && reach < off + tot + t then off + tot + t else reach)
  {
    var s, chunk, at := src[..tot], src[tot..tot + t], off + tot;
    GrewMore(sb, d, inodes, e, mid, f, after, i, off, s, at, chunk);
    assert s + chunk == src[..tot + t];
    if ok {
      GrewMapped(sb, e, mid, f, after, i, at, chunk, reach);
    } else {
      KeptMapped(sb, e, mid, f, after, i, reach);
    }
  }

  // ---------- contents ----------

  lemma WroteContent(sb: Super, d: Disk, inodes: seq<Inode>, e: Disk, after: seq<Inode>, i: nat, off: nat,
      s: seq<Byte>, len: nat)
    requires Both(sb, d, inodes, e, after) && i < |inodes| && Wrote(sb, d, inodes, e, after, i, off, s)
    requires off <= inodes[i].size <= MAXFILE * BSIZE && after[i].size == len <= MAXFILE * BSIZE
    requires inodes[i].size <= len && (len == inodes[i].size || len <= off + |s|)
    ensures Content(sb, e, after, i) == Splice(Content(sb, d, inodes, i), off, s)[..len]
  {
    OverSplice(Files(sb, d, inodes)[i], inodes[i].size, off, s, len);
  }

  lemma OverSplice(c: seq<Byte>, size: nat, off: nat, s: seq<Byte>, len: nat)
    requires off <= size <= len <= |c| && (len == size || len <= off + |s|)
    ensures Over(c, off, s)[..len] == Splice(c[..size], off, s)[..len]
  {
  }

  lemma ChunkByte(sb: Super, d: Disk, inodes: seq<Inode>, i: nat, off: nat, n: nat, a: nat, k: nat)
    requires Sane(sb, d, inodes) && i < |inodes| && off + n <= MAXFILE * BSIZE
    requires off % BSIZE + n <= BSIZE && k < n
    requires 0 < a < sb.size && a == Addr(sb, d, inodes, i, DataSlot(off / BSIZE))
    ensures ByteAt(sb, d, inodes, i, off + k) == d[a][off % BSIZE + k]
  {
    InBlock(off, off + k, n);
  }

  lemma ChunkContent(sb: Super, d: Disk, inodes: seq<Inode>, i: nat, off: nat, n: nat, a: nat)
    requires Sane(sb, d, inodes) && i < |inodes| && off + n <= inodes[i].size <= MAXFILE * BSIZE
    requires off % BSIZE + n <= BSIZE && 0 < n
    requires 0 < a < sb.size && a == Addr(sb, d, inodes, i, DataSlot(off / BSIZE))
    ensures d[a][off % BSIZE..off % BSIZE + n] == Content(sb, d, inodes, i)[off..off + n]
  {
    var left, right := d[a][off % BSIZE..off % BSIZE + n], Content(sb, d, inodes, i)[off..off + n];
    forall k | 0 <= k < |left|
      ensures left[k] == right[k]
    {
      ChunkByte(sb, d, inodes, i, off, n, a, k);
    }
  }

  // ---------- a finished write ----------

  /** s has been written to file i at off and its size is now len: its pointers in use are where they
      were, it has no holes, and every other inode and every other byte are as before. */
  ghost predicate Written(sb: Super, d: Disk, inodes: seq<Inode>, e: Disk, after: seq<Inode>, i: nat, off: nat,
      s: seq<Byte>, len: nat) {
    && i < |inodes| && Both(sb, d, inodes, e, after)
    && Wrote(sb, d, inodes, e, after, i, off, s) && Kept(sb, d, inodes, e, after)
    && after[i].size == len && NoHoles(sb, e, after, i) && Others(sb, d, inodes, e, after, i)
  }

  lemma Resized(sb: Super, d: Disk, inodes: seq<Inode>, i: nat, len: nat)
    requires Owns(sb, d, inodes, {}) && i < |inodes|
    ensures var after := inodes[i := inodes[i].(size := len)];
            && Owns(sb, d, after, {})
            && forall j, l :: Slot(inodes, j, l) ==> Addr(sb, d, after, j, l) == Addr(sb, d, inodes, j, l)
  {
    var after := inodes[i := inodes[i].(size := len)];
    forall j: nat, l: nat | Slot(inodes, j, l)
      ensures Slot(after, j, l) && Addr(sb, d, after, j, l) == Addr(sb, d, inodes, j, l)
    {
    }
    assert forall c :: DataBlock(sb, c) && OwnsBlock(sb, d, inodes, c) ==> OwnsBlock(sb, d, after, c);
  }

  lemma FinishWrite(sb: Super, d: Disk, inodes: seq<Inode>, e: Disk, mid: seq<Inode>, after: seq<Inode>,
                    i: nat, off: nat, s: seq<Byte>, len: nat)
    requires Grew(sb, d, inodes, e, mid, i, off, s) && Mapped(sb, e, mid, i, len) && len <= MAXFILE * BSIZE
    requires Sane(sb, e, after) && after == mid[i := mid[i].(size := len)]
    requires forall j, l :: Slot(mid, j, l) ==> Addr(sb, e, after, j, l) == Addr(sb, e, mid, j, l)
    ensures Written(sb, d, inodes, e, after, i, off, s, len) && Slots(sb, e, after, i) == Slots(sb, e, mid, i)
  {
    SameSlots(sb, e, mid, e, after);
    forall bn | 0 <= bn < MAXFILE && bn * BSIZE < len
      ensures Addr(sb, e, after, i, DataSlot(bn)) != 0
    {
      assert Slot(mid, i, DataSlot(bn));
    }
    forall j: nat, x: nat | j < |inodes| && x < MAXFILE * BSIZE
      ensures ByteAt(sb, e, after, j, x) == ByteAt(sb, e, mid, j, x)
    {
      assert Slot(mid, j, DataSlot(x / BSIZE));
    }
    SameFiles(sb, e, mid, e, after);
    forall j: nat, l: nat | Slot(inodes, j, l) && Addr(sb, d, inodes, j, l) != 0
      ensures Addr(sb, e, after, j, l) == Addr(sb, d, inodes, j, l)
    {
      assert Slot(mid, j, l);
    }
  }

  /** What a finished write means for the contents of the files. */
  lemma WrittenContent(sb: Super, d: Disk, inodes: seq<Inode>, e: Disk, after: seq<Inode>, i: nat, off: nat,
      s: seq<Byte>, len: nat)
    requires Written(sb, d, inodes, e, after, i, off, s, len)
    requires off <= inodes[i].size <= len <= MAXFILE * BSIZE && (len == inodes[i].size || len <= off + |s|)
    ensures Content(sb, e, after, i) == Splice(Content(sb, d, inodes, i), off, s)[..len]
    ensures forall j :: 0 <= j < |inodes| && j != i && inodes[j].size <= MAXFILE * BSIZE ==>
      Content(sb, e, after, j) == Content(sb, d, inodes, j)
  {
    WroteContent(sb, d, inodes, e, after, i, off, s, len);
  }

  lemma WrittenMore(sb: Super, d: Disk, inodes: seq<Inode>, e: Disk, mid: seq<Inode>, f: Disk, after: seq<Inode>,
                    i: nat, off: nat, s: seq<Byte>, at: nat, more: seq<Byte>, len1: nat, len2: nat)
    requires Written(sb, d, inodes, e, mid, i, off, s, len1) && Written(sb, e, mid, f, after, i, at, more, len2)
    requires at == off + |s|
    ensures Written(sb, d, inodes, f, after, i, off, s + more, len2)
  {
    WroteMore(sb, d, inodes, e, mid, f, after, i, off, s, more);
    KeptTrans(sb, d, inodes, e, mid, f, after);
  }

  /** Where filewrite stands when k bytes of src count as written and `put` are in the file; past the
      end of the file it can write nothing. */
  ghost predicate Filed(sb: Super, d: Disk, inodes: seq<Inode>, e: Disk, after: seq<Inode>, i: nat, off: nat,
      src: seq<Byte>,
                        k: nat, put: nat) {
    && i < |inodes| && k <= put <= |src| && Both(sb, d, inodes, e, after) && NoHoles(sb, e, after, i)
    && if inodes[i].size < off then put == 0 && e == d && after == inodes
       else Written(sb, d, inodes, e, after, i, off, src[..put],
                    if inodes[i].size < off + k then off + k else inodes[i].size)
  }

  lemma StartFile(sb: Super, d: Disk, inodes: seq<Inode>, i: nat, off: nat, src: seq<Byte>)
    requires Sane(sb, d, inodes) && i < |inodes| && NoHoles(sb, d, inodes, i)
    ensures Filed(sb, d, inodes, d, inodes, i, off, src, 0, 0)
  {
    WroteNothing(sb, d, inodes, d, inodes, i, off);
    assert src[..0] == [];
  }

  lemma FiledMore(sb: Super, d: Disk, inodes: seq<Inode>, e: Disk, mid: seq<Inode>, f: Disk, after: seq<Inode>,
                  i: nat, off: nat, src: seq<Byte>, k: nat, n: nat, u: nat, r: nat, len: nat)
    requires Filed(sb, d, inodes, e, mid, i, off, src, k, k) && off + k <= mid[i].size
    requires k + n <= |src| && r <= u <= n
    requires Written(sb, e, mid, f, after, i, off + k, src[k..k + n][..u], len)
    requires len == if mid[i].size < off + k + r then off + k + r else mid[i].size
    ensures Filed(sb, d, inodes, f, after, i, off, src, k + r, k + u)
  {
    var s, chunk := src[..k], src[k..k + n][..u];
    WrittenMore(sb, d, inodes, e, mid, f, after, i, off, s, off + k, chunk, mid[i].size, len);
    assert s + chunk == src[..k + u];
  }

  /** filewrite in terms of contents: the bytes put are spliced in, up to the new size, and a read of
      the bytes that count returns them. */
  lemma FiledContent(sb: Super, d: Disk, inodes: seq<Inode>, e: Disk, after: seq<Inode>, i: nat, off: nat,
      src: seq<Byte>,
                     k: nat, put: nat)
    requires Filed(sb, d, inodes, e, after, i, off, src, k, put) && off <= inodes[i].size <= MAXFILE * BSIZE
    ensures Content(sb, e, after, i) == Splice(Content(sb, d, inodes, i), off, src[..put])[..after[i].size]
    ensures after[i].size == (if inodes[i].size < off + k then off + k else inodes[i].size)
    ensures Content(sb, e, after, i)[off..off + k] == src[..k]
    ensures forall j :: 0 <= j < |inodes| && j != i && inodes[j].size <= MAXFILE * BSIZE ==>
      Content(sb, e, after, j) == Content(sb, d, inodes, j)
  {
    WrittenContent(sb, d, inodes, e, after, i, off, src[..put], after[i].size);
    SpliceRead(Content(sb, d, inodes, i), off, src[..put], k, after[i].size);
    assert src[..put][..k] == src[..k];
  }

  lemma SpliceRead(c: seq<Byte>, off: nat, s: seq<Byte>, k: nat, n: nat)
    requires off <= |c| && k <= |s| && off + k <= n <= |Splice(c, off, s)|
    ensures Splice(c, off, s)[..n][off..off + k] == s[..k]
  {
    var r := Splice(c, off, s);
    forall i | 0 <= i < k
      ensures r[..n][off..off + k][i] == s[i]
    {
      assert r[off + i] == s[i];
    }
  }

  /** Truncating i leaves the bytes of the other files alone. */
  lemma EmptiedFiles(sb: Super, d: Disk, inodes: seq<Inode>, e: Disk, after: seq<Inode>, i: nat, j: nat)
    requires Owns(sb, d, inodes, {}) && Both(sb, d, inodes, e, after) && SameButMap(sb, d, e) && j < |inodes| && j != i
    requires forall l :: Slot(inodes, j, l) ==> Addr(sb, e, after, j, l) == Addr(sb, d, inodes, j, l)
    ensures Files(sb, e, after)[j] == Files(sb, d, inodes)[j]
  {
    forall x: nat | x < MAXFILE * BSIZE
      ensures ByteAt(sb, e, after, j, x) == ByteAt(sb, d, inodes, j, x)
    {
      var l := DataSlot(x / BSIZE);
      assert Slot(inodes, j, l);
      assert Addr(sb, d, inodes, j, l) != 0 ==> DataBlock(sb, Addr(sb, d, inodes, j, l));
    }
    assert FileBytes(sb, e, after, j) == FileBytes(sb, d, inodes, j);
  }
}
