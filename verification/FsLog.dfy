/** Which blocks a write to a file logs, computed from the file's block pointers before and after it. */
module FsLog {
  import opened FsModel
  import opened Params
  import opened Sets

  /** Slot k was empty in a and has a block in b. */
  predicate New(a: seq<nat>, b: seq<nat>, k: nat) {
    k < |a| && k < |b| && a[k] == 0 && b[k] != 0
  }

  /** Every block just allocated is logged, because balloc zeroes it. */
  ghost function NewBlocks(a: seq<nat>, b: seq<nat>): set<nat> {
    set k | 0 <= k < NSLOT && New(a, b, k) :: b[k]
  }

  /** So is the block of the free map that has its bit. */
  ghost function MapBlocks(sb: Super, blocks: set<nat>): set<nat> {
    set x | x in blocks :: BBlock(sb, x)
  }

  /** A new entry changes the indirect block. */
  ghost predicate NewEntry(a: seq<nat>, b: seq<nat>) {
    exists k :: IND < k < NSLOT && New(a, b, k)
  }

  ghost function EntryBlock(a: seq<nat>, b: seq<nat>): set<nat>
    requires |b| == NSLOT
  {
    if NewEntry(a, b) then {b[IND]} else {}
  }

  /** The blocks lo .. hi - 1 of the file. */
  ghost function DataBlocks(b: seq<nat>, lo: nat, hi: nat): set<nat>
    requires |b| == NSLOT && hi <= MAXFILE
  {
    set bn | lo <= bn < hi :: b[DataSlot(bn)]
  }

  /** What bmap logs when the slots go from a to b. */
  ghost function AllocLog(sb: Super, a: seq<nat>, b: seq<nat>): set<nat>
    requires |b| == NSLOT
  {
    NewBlocks(a, b) + MapBlocks(sb, NewBlocks(a, b)) + EntryBlock(a, b)
  }

  /** What is logged when the slots go from a to b and file blocks lo .. hi - 1 are written. */
  ghost function LogOf(sb: Super, a: seq<nat>, b: seq<nat>, lo: nat, hi: nat): set<nat>
    requires |b| == NSLOT && hi <= MAXFILE
  {
    AllocLog(sb, a, b) + DataBlocks(b, lo, hi)
  }

  ghost predicate Tables(a: seq<nat>, b: seq<nat>) {
    |a| == |b| == NSLOT
  }

  /** No pointer in use moves, and entries are only found in an indirect block. */
  ghost predicate Follows(a: seq<nat>, b: seq<nat>) {
    && Tables(a, b)
    && (forall k :: 0 <= k < NSLOT && a[k] != 0 ==> b[k] == a[k])
    && (forall k :: IND < k < NSLOT && b[k] != 0 ==> b[IND] != 0)
  }

  /** The new slots are the indirect block's and those of file blocks lo .. hi - 1. */
  ghost predicate OnlyNew(a: seq<nat>, b: seq<nat>, lo: nat, hi: nat) {
    forall k :: New(a, b, k) ==> k == IND || exists bn :: lo <= bn < hi && k == DataSlot(bn)
  }

  lemma LogNothing(sb: Super, a: seq<nat>)
    requires |a| == NSLOT
    ensures AllocLog(sb, a, a) == {}
  {
  }

  /** One slot is filled. */
  lemma LogPlaced(sb: Super, a: seq<nat>, k: nat, x: nat)
    requires |a| == NSLOT && k < NSLOT && a[k] == 0 && x != 0
    ensures AllocLog(sb, a, a[k := x]) == {x, BBlock(sb, x)} + (if k > IND then {a[IND]} else {})
  {
    var b := a[k := x];
    assert New(a, b, k) && b[k] == x && forall l :: New(a, b, l) ==> l == k;
    assert NewBlocks(a, b) == {x};
    assert NewEntry(a, b) <==> k > IND;
  }

  lemma NewTwice(a: seq<nat>, b: seq<nat>, c: seq<nat>, k: nat)
    requires Follows(a, b) && Follows(b, c)
    ensures New(a, c, k) <==> New(a, b, k) || New(b, c, k)
    ensures New(a, b, k) ==> c[k] == b[k]
  {
  }

  /** What two stretches of a write log is what they log together. */
  lemma LogMore(sb: Super, a: seq<nat>, b: seq<nat>, c: seq<nat>, lo: nat, mid: nat, hi: nat)
    requires Follows(a, b) && Follows(b, c) && lo <= mid <= hi <= MAXFILE
    requires forall bn :: lo <= bn < mid ==> b[DataSlot(bn)] != 0
    ensures Follows(a, c) && LogOf(sb, a, c, lo, hi) == LogOf(sb, a, b, lo, mid) + LogOf(sb, b, c, mid, hi)
  {
    AllocMore(sb, a, b, c);
    DataMore(b, c, lo, mid, hi);
  }

  lemma AllocMore(sb: Super, a: seq<nat>, b: seq<nat>, c: seq<nat>)
    requires Follows(a, b) && Follows(b, c)
    ensures Follows(a, c) && AllocLog(sb, a, c) == AllocLog(sb, a, b) + AllocLog(sb, b, c)
  {
    NewMore(a, b, c);
    EntryMore(a, b, c);
  }

  lemma NewMore(a: seq<nat>, b: seq<nat>, c: seq<nat>)
    requires Follows(a, b) && Follows(b, c)
    ensures NewBlocks(a, c) == NewBlocks(a, b) + NewBlocks(b, c)
  {
    forall k: nat
      ensures New(a, c, k) <==> New(a, b, k) || New(b, c, k)
      ensures New(a, b, k) ==> c[k] == b[k]
    {
      NewTwice(a, b, c, k);
    }
  }

  lemma EntryMore(a: seq<nat>, b: seq<nat>, c: seq<nat>)
    requires Follows(a, b) && Follows(b, c)
    ensures EntryBlock(a, c) == EntryBlock(a, b) + EntryBlock(b, c)
  {
    if k :| IND < k < NSLOT && New(a, c, k) {
      NewTwice(a, b, c, k);
    }
    if k :| IND < k < NSLOT && New(a, b, k) {
      NewTwice(a, b, c, k);
      assert b[IND] != 0;
    }
    if k :| IND < k < NSLOT && New(b, c, k) {
      NewTwice(a, b, c, k);
    }
  }

  lemma DataMore(b: seq<nat>, c: seq<nat>, lo: nat, mid: nat, hi: nat)
    requires Follows(b, c) && lo <= mid <= hi <= MAXFILE && forall bn :: lo <= bn < mid ==> b[DataSlot(bn)] != 0
    ensures DataBlocks(c, lo, hi) == DataBlocks(b, lo, mid) + DataBlocks(c, mid, hi)
  {
    assert forall bn :: lo <= bn < mid ==> c[DataSlot(bn)] == b[DataSlot(bn)];
  }

  lemma KeptFollows(sb: Super, d: Disk, inodes: seq<Inode>, e: Disk, after: seq<Inode>, i: nat)
    requires Both(sb, d, inodes, e, after) && Kept(sb, d, inodes, e, after) && i < |inodes|
    ensures Follows(Slots(sb, d, inodes, i), Slots(sb, e, after, i))
  {
    var a, b := Slots(sb, d, inodes, i), Slots(sb, e, after, i);
    forall k: nat | k < NSLOT && a[k] != 0
      ensures b[k] == a[k]
    {
      assert Slot(inodes, i, k) && Addr(sb, d, inodes, i, k) == a[k] && Addr(sb, e, after, i, k) == b[k];
    }
  }

  lemma DataOne(b: seq<nat>, bn: nat)
    requires |b| == NSLOT && bn < MAXFILE
    ensures DataBlocks(b, bn, bn) == {} && DataBlocks(b, bn, bn + 1) == {b[DataSlot(bn)]}
  {
  }

  lemma MappedSlots(sb: Super, d: Disk, inodes: seq<Inode>, i: nat, len: nat)
    requires Sane(sb, d, inodes) && i < |inodes| && Mapped(sb, d, inodes, i, len)
    ensures forall k :: 0 <= k < MAXFILE && k * BSIZE < len ==> Slots(sb, d, inodes, i)[DataSlot(k)] != 0
  {
    forall k | 0 <= k < MAXFILE && k * BSIZE < len
      ensures Slots(sb, d, inodes, i)[DataSlot(k)] != 0
    {
      assert Addr(sb, d, inodes, i, DataSlot(k)) == Slots(sb, d, inodes, i)[DataSlot(k)];
    }
  }

  lemma MappedBelow(sb: Super, d: Disk, inodes: seq<Inode>, i: nat, len: nat, x: nat)
    requires Sane(sb, d, inodes) && i < |inodes| && Mapped(sb, d, inodes, i, len) && x <= len
    ensures forall k :: 0 <= k < MAXFILE && k < x / BSIZE ==> Slots(sb, d, inodes, i)[DataSlot(k)] != 0
  {
    MappedSlots(sb, d, inodes, i, len);
    forall k | 0 <= k < MAXFILE && k < x / BSIZE
      ensures Slots(sb, d, inodes, i)[DataSlot(k)] != 0
    {
      assert k * BSIZE < len;
    }
  }

  lemma OnlyNewMore(a: seq<nat>, b: seq<nat>, c: seq<nat>, lo: nat, hi: nat, bn: nat)
    requires Follows(a, b) && Follows(b, c) && OnlyNew(a, b, lo, hi) && OnlyNew(b, c, bn, bn + 1) && lo <= bn < hi
    ensures OnlyNew(a, c, lo, hi)
  {
    forall k | New(a, c, k)
      ensures k == IND || exists n :: lo <= n < hi && k == DataSlot(n)
    {
      NewTwice(a, b, c, k);
    }
  }

  // ---------- one block of a write ----------

  datatype Aspect = Pointers | Exact | Within

  /** bmap of file block bn takes the slots from a to b; what it has logged since `base` is exactly what it
      allocated, with the bitmap blocks of that, and the indirect block if it got an entry. */
  ghost predicate MapsOne(sb: Super, base: set<nat>, logged: set<nat>, a: seq<nat>, b: seq<nat>, bn: nat) {
    forall u :: MapsBy(u, sb, base, logged, a, b, bn)
  }

  ghost predicate MapsBy(u: Aspect, sb: Super, base: set<nat>, logged: set<nat>, a: seq<nat>, b: seq<nat>, bn: nat) {
    match u
    case Pointers => Follows(a, b)
    case Exact => |b| == NSLOT && logged == base + AllocLog(sb, a, b)
    case Within => OnlyNew(a, b, bn, bn + 1)
  }

  lemma MapsNothing(sb: Super, logged: set<nat>, d: Disk, inodes: seq<Inode>, i: nat, bn: nat)
    requires Sane(sb, d, inodes) && i < |inodes|
    ensures MapsOne(sb, logged, logged, Slots(sb, d, inodes, i), Slots(sb, d, inodes, i), bn)
  {
    KeptFollows(sb, d, inodes, d, inodes, i);
    LogNothing(sb, Slots(sb, d, inodes, i));
  }

  /** Filling slot k, which is that of bn or the indirect block's. */
  lemma MapsPlaced(sb: Super, base: set<nat>, logged: set<nat>, a: seq<nat>, b: seq<nat>, k: nat, bn: nat)
    requires Follows(a, b) && k < NSLOT && b == a[k := b[k]] && (k == IND || k == DataSlot(bn))
    requires a[k] == 0 && b[k] != 0
    requires logged == base + {b[k], BBlock(sb, b[k])} + (if k > IND then {a[IND]} else {})
    ensures MapsOne(sb, base, logged, a, b, bn)
  {
    LogPlaced(sb, a, k, b[k]);
  }

  lemma MapsTwice(sb: Super, base: set<nat>, mid: set<nat>, logged: set<nat>, a: seq<nat>, b: seq<nat>, c: seq<nat>,
      bn: nat)
    requires MapsOne(sb, base, mid, a, b, bn) && MapsOne(sb, mid, logged, b, c, bn)
    ensures MapsOne(sb, base, logged, a, c, bn)
  {
    assert MapsBy(Pointers, sb, base, mid, a, b, bn) && MapsBy(Pointers, sb, mid, logged, b, c, bn);
    assert MapsBy(Exact, sb, base, mid, a, b, bn) && MapsBy(Exact, sb, mid, logged, b, c, bn);
    assert MapsBy(Within, sb, base, mid, a, b, bn) && MapsBy(Within, sb, mid, logged, b, c, bn);
    AllocMore(sb, a, b, c);
    OnlyNewMore(a, b, c, bn, bn + 1, bn);
  }

  /** A round of writei also logs its data block if the copy succeeds. */
  ghost predicate ChunkLog(sb: Super, base: set<nat>, logged: set<nat>, a: seq<nat>, b: seq<nat>, bn: nat, ok: bool) {
    forall u :: ChunkBy(u, sb, base, logged, a, b, bn, ok)
  }

  ghost predicate ChunkBy(u: Aspect, sb: Super, base: set<nat>, logged: set<nat>, a: seq<nat>, b: seq<nat>, bn: nat,
      ok: bool) {
    match u
    case Pointers => Follows(a, b)
    case Exact => |b| == NSLOT && bn < MAXFILE && logged == base + LogOf(sb, a, b, bn, if ok then bn + 1 else bn)
    case Within => OnlyNew(a, b, bn, bn + 1)
  }

  lemma MapsChunk(sb: Super, base: set<nat>, mid: set<nat>, a: seq<nat>, b: seq<nat>, bn: nat, x: nat)
    requires MapsOne(sb, base, mid, a, b, bn) && |b| == NSLOT && bn < MAXFILE && x == b[DataSlot(bn)]
    ensures ChunkLog(sb, base, mid, a, b, bn, false) && ChunkLog(sb, base, mid + {x}, a, b, bn, true)
  {
    assert MapsBy(Pointers, sb, base, mid, a, b, bn);
    assert MapsBy(Exact, sb, base, mid, a, b, bn) && MapsBy(Within, sb, base, mid, a, b, bn);
    DataOne(b, bn);
  }

  lemma ChunkMore(sb: Super, base: set<nat>, logged: set<nat>, logged1: set<nat>, a: seq<nat>, b: seq<nat>, c: seq<nat>,
      lo: nat, bn: nat, hi: nat, ok: bool)
    requires Follows(a, b) && lo <= bn < hi <= MAXFILE && ChunkLog(sb, logged, logged1, b, c, bn, ok)
    requires logged == base + LogOf(sb, a, b, lo, bn) && OnlyNew(a, b, lo, hi)
    requires forall k :: 0 <= k < MAXFILE && k < bn ==> b[DataSlot(k)] != 0
    ensures Follows(a, c) && OnlyNew(a, c, lo, hi)
    ensures logged1 == base + LogOf(sb, a, c, lo, if ok then bn + 1 else bn)
  {
    assert ChunkBy(Pointers, sb, logged, logged1, b, c, bn, ok) && ChunkBy(Exact, sb, logged, logged1, b, c, bn, ok);
    assert ChunkBy(Within, sb, logged, logged1, b, c, bn, ok);
    LogMore(sb, a, b, c, lo, bn, if ok then bn + 1 else bn);
    OnlyNewMore(a, b, c, lo, hi, bn);
  }

  // ---------- the rounds of a write ----------

  /** One past the last file block of n bytes at off. */
  function End(off: nat, n: nat): nat {
    if n == 0 then off / BSIZE else (off + n - 1) / BSIZE + 1
  }

  /** Every round of writei but the last ends on a block boundary. */
  predicate RoundStart(off: nat, tot: nat) {
    tot == 0 || (off + tot) % BSIZE == 0
  }

  lemma RoundEnds(off: nat, tot: nat, m: nat, n: nat)
    requires RoundStart(off, tot) && 0 < m && (off + tot) % BSIZE + m <= BSIZE && tot + m <= n
    ensures var bn := (off + tot) / BSIZE;
            off / BSIZE <= bn == End(off, tot) < End(off, n) && End(off, tot + m) == bn + 1
    ensures m == BSIZE - (off + tot) % BSIZE ==> RoundStart(off, tot + m)
  {
  }

  lemma EndFits(off: nat, n: nat)
    requires off + n <= MAXFILE * BSIZE
    ensures off / BSIZE <= End(off, n) <= MAXFILE
  {
  }

  /** From slots a, `tot` of the n bytes at off have been written, exactly what that takes has been logged since
      `base`, and the blocks allocated are the indirect block or lie where the n bytes go. */
  ghost predicate Logs(sb: Super, base: set<nat>, logged: set<nat>, a: seq<nat>, b: seq<nat>, off: nat, tot: nat,
      n: nat) {
    forall u :: LogsBy(u, sb, base, logged, a, b, off, tot, n)
  }

  ghost predicate LogsBy(u: Aspect, sb: Super, base: set<nat>, logged: set<nat>, a: seq<nat>, b: seq<nat>, off: nat,
      tot: nat, n: nat) {
    match u
    case Pointers => Follows(a, b) && off + n <= MAXFILE * BSIZE && tot <= n
    case Exact =>
      && |b| == NSLOT && End(off, tot) <= MAXFILE
      && logged == base + LogOf(sb, a, b, off / BSIZE, End(off, tot))
    case Within => OnlyNew(a, b, off / BSIZE, End(off, n))
  }

  lemma Opened(sb: Super, base: set<nat>, logged: set<nat>, a: seq<nat>, b: seq<nat>, off: nat, tot: nat, n: nat)
    requires Logs(sb, base, logged, a, b, off, tot, n)
    ensures Follows(a, b) && off + n <= MAXFILE * BSIZE && tot <= n && End(off, tot) <= MAXFILE
    ensures logged == base + LogOf(sb, a, b, off / BSIZE, End(off, tot)) && OnlyNew(a, b, off / BSIZE, End(off, n))
  {
    assert LogsBy(Pointers, sb, base, logged, a, b, off, tot, n);
    assert LogsBy(Exact, sb, base, logged, a, b, off, tot, n);
    assert LogsBy(Within, sb, base, logged, a, b, off, tot, n);
  }

  lemma LogsInode(sb: Super, base: set<nat>, logged: set<nat>, a: seq<nat>, b: seq<nat>, off: nat, tot: nat, n: nat,
      iblock: nat)
    requires Logs(sb, base, logged, a, b, off, tot, n)
    ensures Logs(sb, base + {iblock}, logged + {iblock}, a, b, off, tot, n)
  {
    Opened(sb, base, logged, a, b, off, tot, n);
  }

  lemma StartLogs(sb: Super, base: set<nat>, d: Disk, inodes: seq<Inode>, i: nat, off: nat, n: nat)
    requires Sane(sb, d, inodes) && i < |inodes| && off + n <= MAXFILE * BSIZE
    ensures Logs(sb, base, base, Slots(sb, d, inodes, i), Slots(sb, d, inodes, i), off, 0, n)
  {
    KeptFollows(sb, d, inodes, d, inodes, i);
    LogNothing(sb, Slots(sb, d, inodes, i));
  }

  /** One round logs what it allocates and, if the copy succeeds, its data block. */
  lemma RoundLogs(sb: Super, base: set<nat>, logged: set<nat>, logged1: set<nat>, a: seq<nat>, b: seq<nat>, c: seq<nat>,
      off: nat, tot: nat, m: nat, n: nat, ok: bool)
    requires Logs(sb, base, logged, a, b, off, tot, n) && |b| == NSLOT && RoundStart(off, tot)
    requires 0 < m && (off + tot) % BSIZE + m <= BSIZE && tot + m <= n
    requires forall k :: 0 <= k < MAXFILE && k < (off + tot) / BSIZE ==> b[DataSlot(k)] != 0
    requires ChunkLog(sb, logged, logged1, b, c, (off + tot) / BSIZE, ok)
    ensures Logs(sb, base, logged1, a, c, off, if ok then tot + m else tot, n)
  {
    Opened(sb, base, logged, a, b, off, tot, n);
    RoundEnds(off, tot, m, n);
    EndFits(off, n);
    ChunkMore(sb, base, logged, logged1, a, b, c, off / BSIZE, (off + tot) / BSIZE, End(off, n), ok);
  }

  // ---------- what it allocates ----------

  lemma OwnedStays(sb: Super, d: Disk, inodes: seq<Inode>, e: Disk, after: seq<Inode>, c: nat)
    requires Owns(sb, d, inodes, {}) && Owns(sb, e, after, {}) && Both(sb, d, inodes, e, after)
    requires Kept(sb, d, inodes, e, after) && DataBlock(sb, c) && Used(sb, d, c)
    ensures exists j, l :: Slot(inodes, j, l) && Addr(sb, d, inodes, j, l) == c == Addr(sb, e, after, j, l)
    ensures Used(sb, e, c)
  {
    assert OwnsBlock(sb, d, inodes, c);
    var j: nat, l: nat :| Slot(inodes, j, l) && Addr(sb, d, inodes, j, l) == c;
    assert Addr(sb, e, after, j, l) == c && Slot(after, j, l);
  }

  lemma NewWasFree(sb: Super, d: Disk, inodes: seq<Inode>, e: Disk, after: seq<Inode>, i: nat, k: nat)
    requires Owns(sb, d, inodes, {}) && Owns(sb, e, after, {}) && Both(sb, d, inodes, e, after)
    requires Kept(sb, d, inodes, e, after) && i < |inodes| && New(Slots(sb, d, inodes, i), Slots(sb, e, after, i), k)
    ensures var c := Slots(sb, e, after, i)[k]; DataBlock(sb, c) && !Used(sb, d, c) && Used(sb, e, c)
  {
    var c := Slots(sb, e, after, i)[k];
    assert Slot(after, i, k) && Addr(sb, e, after, i, k) == c && Addr(sb, d, inodes, i, k) == 0;
    if Used(sb, d, c) {
      OwnedStays(sb, d, inodes, e, after, c);
      var j: nat, l: nat :| Slot(inodes, j, l) && Addr(sb, d, inodes, j, l) == c == Addr(sb, e, after, j, l);
      assert Slot(after, j, l);
    }
  }

  lemma UsedIsNew(sb: Super, d: Disk, inodes: seq<Inode>, e: Disk, after: seq<Inode>, i: nat, c: nat)
    requires Owns(sb, d, inodes, {}) && Owns(sb, e, after, {}) && Both(sb, d, inodes, e, after)
    requires Kept(sb, d, inodes, e, after) && Others(sb, d, inodes, e, after, i) && i < |inodes|
    requires DataBlock(sb, c) && Used(sb, e, c) && !Used(sb, d, c)
    ensures c in NewBlocks(Slots(sb, d, inodes, i), Slots(sb, e, after, i))
  {
    assert OwnsBlock(sb, e, after, c);
    var j: nat, l: nat :| Slot(after, j, l) && Addr(sb, e, after, j, l) == c;
    assert Slot(inodes, j, l) && Addr(sb, d, inodes, j, l) != c;
    assert Slots(sb, e, after, j)[l] == c && Slots(sb, d, inodes, j)[l] == Addr(sb, d, inodes, j, l);
    assert New(Slots(sb, d, inodes, i), Slots(sb, e, after, i), l);
  }

  /** A write takes from the free map exactly the blocks it places in the file, and gives none back. */
  lemma AllocatesExactly(sb: Super, d: Disk, inodes: seq<Inode>, e: Disk, after: seq<Inode>, i: nat, c: nat)
    requires Owns(sb, d, inodes, {}) && Owns(sb, e, after, {}) && Both(sb, d, inodes, e, after)
    requires Kept(sb, d, inodes, e, after) && Others(sb, d, inodes, e, after, i) && i < |inodes| && c < sb.size
    ensures Used(sb, e, c) <==>
            Used(sb, d, c) || c in NewBlocks(Slots(sb, d, inodes, i), Slots(sb, e, after, i))
  {
    var a, b := Slots(sb, d, inodes, i), Slots(sb, e, after, i);
    if c in NewBlocks(a, b) {
      var k :| 0 <= k < NSLOT && New(a, b, k) && b[k] == c;
      NewWasFree(sb, d, inodes, e, after, i, k);
    } else if DataBlock(sb, c) && Used(sb, d, c) {
      OwnedStays(sb, d, inodes, e, after, c);
    } else if DataBlock(sb, c) && Used(sb, e, c) {
      UsedIsNew(sb, d, inodes, e, after, i, c);
    }
  }

  // ---------- how much it is ----------

  lemma {:induction false} MapSize(sb: Super, blocks: set<nat>)
    ensures |MapBlocks(sb, blocks)| <= |blocks|
  {
    if blocks != {} {
      var x :| x in blocks;
      MapSize(sb, blocks - {x});
      assert MapBlocks(sb, blocks) == MapBlocks(sb, blocks - {x}) + {BBlock(sb, x)};
    }
  }

  lemma {:induction false} DataSize(b: seq<nat>, lo: nat, hi: nat)
    requires |b| == NSLOT && lo <= hi <= MAXFILE
    ensures |DataBlocks(b, lo, hi)| <= hi - lo
    decreases hi
  {
    if lo < hi {
      DataSize(b, lo, hi - 1);
      assert DataBlocks(b, lo, hi) == DataBlocks(b, lo, hi - 1) + {b[DataSlot(hi - 1)]};
    }
  }

  /** The new blocks are the indirect block and file blocks lo .. hi - 1. */
  lemma NewSize(a: seq<nat>, b: seq<nat>, lo: nat, hi: nat)
    requires Tables(a, b) && lo <= hi <= MAXFILE && OnlyNew(a, b, lo, hi)
    ensures NewBlocks(a, b) <= DataBlocks(b, lo, hi) + {b[IND]} && |NewBlocks(a, b)| <= 1 + hi - lo
  {
    forall x | x in NewBlocks(a, b)
      ensures x in DataBlocks(b, lo, hi) + {b[IND]}
    {
      var k :| 0 <= k < NSLOT && New(a, b, k) && x == b[k];
    }
    DataSize(b, lo, hi);
    SubsetSize(NewBlocks(a, b), DataBlocks(b, lo, hi) + {b[IND]});
  }

  /** A first block that is mapped already is not among the new ones. */
  lemma SkipFirst(a: seq<nat>, b: seq<nat>, lo: nat, hi: nat)
    requires Tables(a, b) && lo < hi <= MAXFILE && OnlyNew(a, b, lo, hi) && a[DataSlot(lo)] != 0
    ensures OnlyNew(a, b, lo + 1, hi)
  {
  }

  lemma SumSize(s: set<nat>, data: set<nat>, maps: set<nat>, ind: nat, iblock: nat)
    requires s <= data + maps + {ind}
    ensures |s + {iblock}| <= |data| + |maps| + 2
  {
    var all := data + maps + {ind, iblock};
    assert |data + maps| <= |data| + |maps|;
    assert |all| <= |data + maps| + 2;
    SubsetSize(s + {iblock}, all);
  }

  /** A write within four file blocks, the first of which is mapped already if there are four, logs at most
      MAXOPBLOCKS blocks: the data, three bitmap blocks, the indirect block with its own, and the inode's. */
  lemma Budget(sb: Super, a: seq<nat>, b: seq<nat>, lo: nat, mid: nat, hi: nat, iblock: nat)
    requires Follows(a, b) && lo <= mid <= hi <= MAXFILE && OnlyNew(a, b, lo, hi)
    requires hi - lo <= 4 && (hi - lo == 4 ==> a[DataSlot(lo)] != 0)
    ensures |LogOf(sb, a, b, lo, mid) + {iblock}| <= MAXOPBLOCKS
  {
    var added := NewBlocks(a, b);
    DataSize(b, lo, hi);
    NewSize(a, b, lo, hi);
    if hi - lo == 4 {
      SkipFirst(a, b, lo, hi);
      NewSize(a, b, lo + 1, hi);
    }
    MapSize(sb, added);
    SumSize(LogOf(sb, a, b, lo, mid), DataBlocks(b, lo, hi), MapBlocks(sb, added), b[IND], iblock);
  }

  lemma FourBlocks(off: nat, n: nat)
    requires n <= 3 * BSIZE
    ensures End(off, n) - off / BSIZE <= 4
    ensures End(off, n) - off / BSIZE == 4 ==> off / BSIZE * BSIZE < off
  {
  }

  /** The blocks logged by a write of at most 3 * BSIZE bytes to a file that has no hole below off. */
  lemma WriteBudget(sb: Super, logged: set<nat>, a: seq<nat>, b: seq<nat>, off: nat, tot: nat, n: nat, iblock: nat)
    requires Logs(sb, {}, logged, a, b, off, tot, n) && |a| == NSLOT && n <= 3 * BSIZE
    requires forall k :: 0 <= k < MAXFILE && k * BSIZE < off ==> a[DataSlot(k)] != 0
    ensures |logged + {iblock}| <= MAXOPBLOCKS
  {
    Opened(sb, {}, logged, a, b, off, tot, n);
    EndFits(off, n);
    EndFits(off, tot);
    FourBlocks(off, n);
    Budget(sb, a, b, off / BSIZE, End(off, tot), End(off, n), iblock);
  }
}
