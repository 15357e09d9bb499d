/** balloc, bfree, bmap, itrunc, readi, writei of kernel/fs.c and filewrite of kernel/file.c.

    `disk` is what bread returns, that is the disk overlaid with the current transaction;
    `logged` are the blocks log_write has been given since the transaction began.  `inodes` are
    the in-memory copies and `dinodes` the on-disk ones that iupdate writes. */
module FileSystem {
  import opened BlockCodec
  import opened FsLog
  import opened FsModel
  import opened Params

  class FileSys {
    const sb: Super
    var disk: Disk
    var inodes: seq<Inode>
    var dinodes: seq<Inode>
    var logged: set<nat>
    /** The blocks that each transaction so far has logged. */
    ghost var transactions: seq<set<nat>>

    ghost predicate Valid()
      reads this
    {
      Owns(sb, disk, inodes, {}) && |dinodes| == |inodes|
    }

    constructor (sb: Super, disk: Disk, inodes: seq<Inode>)
      requires Owns(sb, disk, inodes, {})
      ensures Valid() && this.sb == sb && this.disk == disk && this.inodes == inodes && logged == {}
      ensures transactions == []
    {
      this.sb, this.disk, this.inodes, this.dinodes, this.logged := sb, disk, inodes, inodes, {};
      transactions := [];
    }

    /** The block pointers of inode i. */
    ghost function Table(i: nat): seq<nat>
      requires Valid() && i < |inodes|
      reads this
    {
      Slots(sb, disk, inodes, i)
    }

    /** balloc: the lowest free block, marked and zeroed, or 0 when there is none. */
    method Balloc() returns (r: nat)
      requires Layout(sb) && |disk| == sb.size && forall b :: 0 <= b < sb.nmeta ==> Used(sb, disk, b)
      modifies this`disk, this`logged
      ensures r == 0 ==> disk == old(disk) && logged == old(logged)
      ensures r == 0 ==> forall c :: 0 <= c < sb.size ==> Used(sb, disk, c)
      ensures r != 0 ==> DataBlock(sb, r) && !Used(sb, old(disk), r)
      ensures r != 0 ==> forall c :: 0 <= c < r ==> Used(sb, old(disk), c)
      ensures r != 0 ==> disk == Allocated(sb, old(disk), r) && logged == old(logged) + {BBlock(sb, r), r}
    {
      var b := 0;
      while b < sb.size
        invariant b % BPB == 0 && disk == old(disk) && logged == old(logged)
        invariant forall c :: 0 <= c < b && c < sb.size ==> Used(sb, disk, c)
      {
        var bi := 0;
        while bi < BPB && b + bi < sb.size
          invariant 0 <= bi <= BPB && disk == old(disk) && logged == old(logged)
          invariant forall c :: 0 <= c < b + bi && c < sb.size ==> Used(sb, disk, c)
        {
          BitPlace(b, bi);
          if !BlockBit(disk[BBlock(sb, b)], bi) {
            assert !Used(sb, disk, b + bi);
            assert DataBlock(sb, b + bi);
            Claim(b, bi);
            return b + bi;
          }
          assert Used(sb, disk, b + bi);
          bi := bi + 1;
        }
        b := b + BPB;
      }
      return 0;
    }

    /** The bit is set and the block zeroed. */
    method Claim(b: nat, bi: nat)
      requires Layout(sb) && |disk| == sb.size && b % BPB == 0 && bi < BPB && DataBlock(sb, b + bi)
      modifies this`disk, this`logged
      ensures disk == Allocated(sb, old(disk), b + bi) && logged == old(logged) + {BBlock(sb, b + bi), b + bi}
    {
      BitPlace(b, bi);
      disk := disk[BBlock(sb, b) := SetBlockBit(disk[BBlock(sb, b)], bi)];
      logged := logged + {BBlock(sb, b)};
      disk := disk[b + bi := ZeroBlock()];
      logged := logged + {b + bi};
    }

    /** bfree; the block must be in use, or the source panics. */
    method Bfree(b: nat)
      requires Layout(sb) && |disk| == sb.size && b < sb.size && Used(sb, disk, b)
      modifies this`disk, this`logged
      ensures disk == Freed(sb, old(disk), b) && logged == old(logged) + {BBlock(sb, b)}
    {
      var m := BBlock(sb, b);
      disk := disk[m := ClearBlockBit(disk[m], b % BPB)];
      logged := logged + {m};
    }

    /** The two halves of bmap that allocate: a pointer held in the inode... */
    method MapAddr(i: nat, k: nat, ghost bn: nat) returns (a: nat)
      requires Valid() && i < |inodes| && k <= NDIRECT && (k == IND || k == DataSlot(bn))
      modifies this`disk, this`inodes, this`logged
      ensures Valid() && |inodes| == |old(inodes)| && a == inodes[i].addrs[k]
      ensures Extends(sb, old(disk), old(inodes), disk, inodes) && Others(sb, old(disk), old(inodes), disk, inodes, i)
      ensures old(inodes[i].addrs[k]) != 0 || a == 0 ==>
        disk == old(disk) && inodes == old(inodes) && logged == old(logged)
      ensures a == 0 ==> DiskFull(sb, disk)
      ensures Table(i) == old(Table(i))[k := a]
      ensures MapsOne(sb, old(logged), logged, old(Table(i)), Table(i), bn)
    {
      a := inodes[i].addrs[k];
      ghost var t := Table(i);
      assert t[k] == a && t[k := a] == t;
      MapsNothing(sb, logged, disk, inodes, i, bn);
      if a == 0 {
        a := Balloc();
        if a == 0 {
          return 0;
        }
        AddrExtends(sb, old(disk), inodes, i, k, a);
        inodes := SetAddr(inodes, i, k, a);
        KeptFollows(sb, old(disk), old(inodes), disk, inodes, i);
        MapsPlaced(sb, old(logged), logged, t, Table(i), k, bn);
      }
    }

    /** ... or one held in its indirect block. */
    method MapEntry(i: nat, k: nat) returns (a: nat)
      requires Valid() && Slot(inodes, i, k) && k > IND && inodes[i].addrs[IND] != 0
      modifies this`disk, this`logged
      ensures Valid() && a == Addr(sb, disk, inodes, i, k)
      ensures Extends(sb, old(disk), inodes, disk, inodes) && Others(sb, old(disk), inodes, disk, inodes, i)
      ensures old(Addr(sb, disk, inodes, i, k)) != 0 || a == 0 ==> disk == old(disk) && logged == old(logged)
      ensures a == 0 ==> DiskFull(sb, disk)
      ensures Table(i) == old(Table(i))[k := a]
      ensures MapsOne(sb, old(logged), logged, old(Table(i)), Table(i), k - 1)
    {
      var ind := inodes[i].addrs[IND];
      a := Word(disk[ind], k - IND - 1);
      ghost var t := Table(i);
      assert t[k] == a && t[k := a] == t && t[IND] == ind;
      MapsNothing(sb, logged, disk, inodes, i, k - 1);
      if a == 0 {
        a := Balloc();
        if a != 0 {
          EntryExtends(sb, old(disk), inodes, i, k, a);
          disk := disk[ind := PutWord(disk[ind], k - IND - 1, a)];
          logged := logged + {ind};
          KeptFollows(sb, old(disk), inodes, disk, inodes, i);
          MapsPlaced(sb, old(logged), logged, t, Table(i), k, k - 1);
        }
      }
    }

    /** bmap.  0 means the disk is full; then the indirect block may still have been added.  It logs exactly
        what it allocates, the bitmap blocks of that, and the indirect block if it gets an entry. */
    method Bmap(i: nat, bn: nat) returns (a: nat)
      requires Valid() && i < |inodes| && bn < MAXFILE
      modifies this`disk, this`inodes, this`logged
      ensures Valid() && |inodes| == |old(inodes)| && a == Addr(sb, disk, inodes, i, DataSlot(bn))
      ensures Extends(sb, old(disk), old(inodes), disk, inodes) && Others(sb, old(disk), old(inodes), disk, inodes, i)
      ensures old(Addr(sb, disk, inodes, i, DataSlot(bn))) != 0 ==>
        disk == old(disk) && inodes == old(inodes) && logged == old(logged)
      ensures a == 0 ==> DiskFull(sb, disk)
      ensures MapsOne(sb, old(logged), logged, old(Table(i)), Table(i), bn)
    {
      if bn < NDIRECT {
        a := MapAddr(i, bn, bn);
        return;
      }
      ghost var t := Table(i);
      var ind := MapAddr(i, IND, bn);
      if ind == 0 {
        a := 0;
        return;
      }
      ghost var d1, inodes1, logged1, t1 := disk, inodes, logged, Table(i);
      a := MapEntry(i, bn + 1);
      ExtendsTrans(sb, old(disk), old(inodes), d1, inodes1, disk, inodes);
      MapsTwice(sb, old(logged), logged1, logged, t, t1, Table(i), bn);
    }

    /** iupdate. */
    method Iupdate(i: nat)
      requires Valid() && i < |inodes|
      modifies this`dinodes, this`logged
      ensures Valid() && dinodes == old(dinodes)[i := inodes[i]] && logged == old(logged) + {IBlock(sb, i)}
    {
      dinodes := dinodes[i := inodes[i]];
      logged := logged + {IBlock(sb, i)};
    }

    /** Frees the non-zero blocks of a list, as itrunc does with the indirect block's words. */
    method FreeList(a: seq<nat>)
      requires Layout(sb) && |disk| == sb.size && OnceEach(a) && AllUsed(sb, disk, NonZero(a))
      modifies this`disk, this`logged
      ensures Without(sb, old(disk), disk, NonZero(a))
    {
      var j := 0;
      while j < |a|
        invariant 0 <= j <= |a| && Without(sb, old(disk), disk, NonZero(a[..j]))
      {
        if a[j] != 0 {
          assert a[j] in NonZero(a);
          FreedWithout(sb, old(disk), disk, NonZero(a[..j]), a[j]);
          Bfree(a[j]);
        }
        NonZeroStep(a, j);
        j := j + 1;
      }
      assert a[..|a|] == a;
    }

    /** itrunc's first loop: the direct blocks are freed and forgotten. */
    method FreeDirects(i: nat)
      requires Layout(sb) && |disk| == sb.size && i < |inodes| && |inodes[i].addrs| == NDIRECT + 1
      requires OnceEach(inodes[i].addrs[..NDIRECT]) && AllUsed(sb, disk, NonZero(inodes[i].addrs[..NDIRECT]))
      modifies this`disk, this`inodes, this`logged
      ensures Without(sb, old(disk), disk, NonZero(old(inodes[i].addrs)[..NDIRECT]))
      ensures inodes == old(inodes)[i := Cleared(old(inodes[i]), NDIRECT)]
    {
      ghost var a := inodes[i].addrs[..NDIRECT];
      var k := 0;
      assert Cleared(inodes[i], 0) == inodes[i];
      while k < NDIRECT
        invariant 0 <= k <= NDIRECT && inodes == old(inodes)[i := Cleared(old(inodes[i]), k)]
        invariant Without(sb, old(disk), disk, NonZero(a[..k]))
      {
        assert inodes[i].addrs[k] == a[k];
        if inodes[i].addrs[k] != 0 {
          assert a[k] in NonZero(a);
          FreedWithout(sb, old(disk), disk, NonZero(a[..k]), a[k]);
          Bfree(inodes[i].addrs[k]);
          inodes := SetAddr(inodes, i, k, 0);
        }
        NonZeroStep(a, k);
        ClearedStep(old(inodes[i]), k);
        k := k + 1;
      }
      assert a[..NDIRECT] == a;
    }

    /** itrunc: frees exactly the inode's own blocks, each in use until then. */
    method Itrunc(i: nat)
      requires Valid() && i < |inodes|
      modifies this
      ensures Valid() && inodes == Emptied(old(inodes), i) && dinodes == old(dinodes)[i := inodes[i]]
      ensures SameButMap(sb, old(disk), disk)
      ensures forall c :: 0 <= c < sb.size ==>
        (Used(sb, disk, c) <==> Used(sb, old(disk), c) && !BlockOf(sb, old(disk), old(inodes), i, c))
      ensures forall j, l :: Slot(inodes, j, l) && j != i ==>
        Addr(sb, disk, inodes, j, l) == Addr(sb, old(disk), old(inodes), j, l)
      ensures forall j :: 0 <= j < |inodes| && j != i ==>
        Files(sb, disk, inodes)[j] == Files(sb, old(disk), old(inodes))[j]
    {
      ListsOnce(sb, disk, inodes, i);
      assert Slot(inodes, i, IND) && Addr(sb, disk, inodes, i, IND) == inodes[i].addrs[IND];
      FreeBlocks(i);
      inodes := inodes[i := inodes[i].(size := 0)];
      assert inodes == Emptied(old(inodes), i) by {
        assert inodes[i] == Emptied(old(inodes), i)[i];
      }
      forall c: nat | c < sb.size
        ensures Used(sb, disk, c) <==> Used(sb, old(disk), c) && !BlockOf(sb, old(disk), old(inodes), i, c)
      {
        AllBlocksOf(sb, old(disk), old(inodes), i, c);
      }
      EmptiedOwns(sb, old(disk), old(inodes), disk, i);
      forall j: nat | j < |inodes| && j != i
        ensures Files(sb, disk, inodes)[j] == Files(sb, old(disk), old(inodes))[j]
      {
        EmptiedFiles(sb, old(disk), old(inodes), disk, inodes, i, j);
      }
      Iupdate(i);
    }

    method FreeBlocks(i: nat)
      requires Layout(sb) && |disk| == sb.size && i < |inodes|
      requires |inodes[i].addrs| == NDIRECT + 1 && inodes[i].addrs[IND] < sb.size
      requires inodes[i].addrs[IND] == 0 || DataBlock(sb, inodes[i].addrs[IND])
      requires OnceEach(inodes[i].addrs[..NDIRECT]) && OnceEach(Entries(disk, inodes[i]))
      requires NonZero(inodes[i].addrs[..NDIRECT]) !! NonZero(Entries(disk, inodes[i]))
      requires NonZero([inodes[i].addrs[IND]])
               !! NonZero(inodes[i].addrs[..NDIRECT]) + NonZero(Entries(disk, inodes[i]))
      requires AllUsed(sb, disk, AllBlocks(disk, inodes[i]))
      modifies this`disk, this`inodes, this`logged
      ensures Without(sb, old(disk), disk, old(AllBlocks(disk, inodes[i])))
      ensures inodes == old(inodes)[i := Cleared(old(inodes[i]), NDIRECT + 1)]
    {
      ghost var ino := inodes[i];
      ghost var direct, entries := NonZero(ino.addrs[..NDIRECT]), NonZero(Entries(disk, ino));
      FreeDirects(i);
      var ind := inodes[i].addrs[IND];
      if ind != 0 {
        ghost var d1 := disk;
        FreeList(Words(disk[ind]));
        WithoutTrans(sb, old(disk), d1, disk, direct, entries);
        FreedWithout(sb, old(disk), disk, direct + entries, ind);
        Bfree(ind);
        inodes := SetAddr(inodes, i, IND, 0);
      }
      assert direct + entries + NonZero([ind]) == if ind == 0 then direct else direct + entries + {ind};
      ClearedStep(ino, IND);
    }

    /** The bmap and bread of one round of readi. */
    method ReadChunk(i: nat, at: nat, m: nat) returns (a: nat, chunk: seq<Byte>)
      requires Valid() && i < |inodes| && NoHoles(sb, disk, inodes, i)
      requires 0 < m && at + m <= inodes[i].size && at % BSIZE + m <= BSIZE
      modifies this`disk, this`inodes, this`logged
      ensures disk == old(disk) && inodes == old(inodes) && logged == old(logged)
      ensures a != 0 && chunk == Content(sb, disk, inodes, i)[at..at + m]
    {
      a := Bmap(i, at / BSIZE);
      ChunkContent(sb, disk, inodes, i, at, m, a);
      chunk := disk[a][at % BSIZE..at % BSIZE + m];
    }

    /** readi of n bytes at off into a destination that accepts `room` bytes.  It changes nothing:
        every block it asks bmap for is mapped. */
    method Readi(i: nat, off: nat, n: nat, room: nat) returns (r: int, out: seq<Byte>)
      requires Valid() && i < |inodes| && off < UINT && n < UINT && NoHoles(sb, disk, inodes, i)
      modifies this`disk, this`inodes, this`logged
      ensures disk == old(disk) && inodes == old(inodes) && logged == old(logged)
      ensures off > inodes[i].size || off + n >= UINT ==> r == 0 && out == []
      ensures off <= inodes[i].size && off + n < UINT ==>
        var len := Min(n, inodes[i].size - off);
        if len <= room then r == len && out == Content(sb, disk, inodes, i)[off..off + len] else r == -1
    {
      out := [];
      if off > inodes[i].size || (off + n) % UINT < off {
        return 0, out;
      }
      var len := Min(n, inodes[i].size - off);
      var tot := 0;
      while tot < len
        invariant 0 <= tot <= len && tot <= room
        invariant disk == old(disk) && inodes == old(inodes) && logged == old(logged)
        invariant out == Content(sb, disk, inodes, i)[off..off + tot]
      {
        var at := off + tot;
        var m := Min(len - tot, BSIZE - at % BSIZE);
        var a, chunk := ReadChunk(i, at, m);
        if a == 0 {
          break;
        }
        if tot + m > room {
          return -1, out;
        }
        out := out + chunk;
        tot := tot + m;
      }
      r := tot;
    }

    /** either_copyin into the buffer of block b, which holds offset off of file i. */
    method CopyIn(i: nat, b: nat, off: nat, s: seq<Byte>)
      requires Valid() && i < |inodes| && off < MAXFILE * BSIZE && off % BSIZE + |s| <= BSIZE
      requires b != 0 && b == Addr(sb, disk, inodes, i, DataSlot(off / BSIZE))
      modifies this`disk
      ensures Valid() && Grew(sb, old(disk), inodes, disk, inodes, i, off, s) && Table(i) == old(Table(i))
    {
      PatchWrote(sb, disk, inodes, i, off, s);
      disk := disk[b := Patch(disk[b], off % BSIZE, s)];
    }

    /** One round of writei: bmap, bread, a copy that delivers `got` bytes, log_write if it delivered
        them all.  t bytes have reached the block, logged or not. */
    method WriteChunk(i: nat, at: nat, src: seq<Byte>, tot: nat, m: nat, got: nat) returns (ok: bool, ghost t: nat)
      requires Valid() && i < |inodes| && at < MAXFILE * BSIZE && at % BSIZE + m <= BSIZE && tot + m <= |src|
      modifies this`disk, this`inodes, this`logged
      ensures t <= m && Valid() && Grew(sb, old(disk), old(inodes), disk, inodes, i, at, src[tot..tot + t])
      ensures (ok ==> t == m <= got) && (!ok ==> got < m || DiskFull(sb, disk))
      ensures !ok && m <= got ==> t == 0
      ensures ok ==> Addr(sb, disk, inodes, i, DataSlot(at / BSIZE)) != 0
      ensures ChunkLog(sb, old(logged), logged, old(Table(i)), Table(i), at / BSIZE, ok)
    {
      var b := Bmap(i, at / BSIZE);
      MapsChunk(sb, old(logged), logged, old(Table(i)), Table(i), at / BSIZE, b);
      if b == 0 {
        ok, t := false, 0;
        GrewNothing(sb, old(disk), old(inodes), disk, inodes, i, at);
        assert src[tot..tot] == [];
        return;
      }
      var u := Min(got, m);
      ghost var d1 := disk;
      CopyIn(i, b, at, src[tot..tot + u]);
      GrewAfter(sb, old(disk), old(inodes), d1, inodes, disk, inodes, i, at, src[tot..tot + u]);
      ok, t := u == m, u;
      if ok {
        logged := logged + {b};
      }
    }

    /** Where the loop of writei stands once `put` bytes of src are in the blocks, `tot` of them
        for good, from disk d0, inodes inodes0 and log set base. */
    ghost predicate Writing(d0: Disk, inodes0: seq<Inode>, base: set<nat>, i: nat, off: nat, src: seq<Byte>,
                            tot: nat, put: nat)
      reads this
    {
      Valid() && i < |inodes| && Stands(sb, d0, inodes0, disk, inodes, base, logged, i, off, src, tot, put)
    }

    /** One round of the loop of writei, on the next m bytes. */
    method WriteRound(i: nat, off: nat, src: seq<Byte>, tot: nat, m: nat, got: nat,
                      ghost d0: Disk, ghost inodes0: seq<Inode>, ghost base: set<nat>)
      returns (ok: bool, ghost t: nat)
      requires tot + m <= |src| && off + |src| <= MAXFILE * BSIZE && 0 < m && (off + tot) % BSIZE + m <= BSIZE
      requires Writing(d0, inodes0, base, i, off, src, tot, tot) && RoundStart(off, tot)
      modifies this`disk, this`inodes, this`logged
      ensures t <= m && (ok ==> t == m <= got)
      ensures ok ==> Writing(d0, inodes0, base, i, off, src, tot + m, tot + m)
      ensures !ok ==> Writing(d0, inodes0, base, i, off, src, tot, tot + t)
      ensures !ok ==> got < m || DiskFull(sb, disk)
      ensures !ok && m <= got ==> t == 0
    {
      ghost var d1, inodes1, logged1 := disk, inodes, logged;
      ok, t := WriteChunk(i, off + tot, src, tot, m, got);
      RoundStands(sb, d0, inodes0, d1, inodes1, disk, inodes, base, logged1, logged, i, off, src, tot, m, t, ok);
    }

    /** The size of that round, and how much of it the source delivers. */
    method NextRound(i: nat, off: nat, src: seq<Byte>, tot: nat, readable: nat, torn: nat,
                     ghost d0: Disk, ghost inodes0: seq<Inode>, ghost base: set<nat>)
      returns (ok: bool, m: nat, ghost t: nat)
      requires off + |src| <= MAXFILE * BSIZE && tot < |src| && tot <= readable
      requires Writing(d0, inodes0, base, i, off, src, tot, tot) && RoundStart(off, tot)
      modifies this`disk, this`inodes, this`logged
      ensures ok ==> 0 < m && tot + m <= |src| && tot + m <= readable
      ensures ok ==> Writing(d0, inodes0, base, i, off, src, tot + m, tot + m)
      ensures ok && tot + m < |src| ==> RoundStart(off, tot + m)
      ensures !ok ==> Writing(d0, inodes0, base, i, off, src, tot, tot + t)
      ensures !ok ==> readable < |src| || (t == 0 && DiskFull(sb, disk))
    {
      m := Min(|src| - tot, BSIZE - (off + tot) % BSIZE);
      var got := if tot + m <= readable then m else Min(torn, readable - tot);
      RoundEnds(off, tot, m, |src|);
      ok, t := WriteRound(i, off, src, tot, m, got, d0, inodes0, base);
    }

    /** The loop of writei. */
    method WriteRounds(i: nat, off: nat, src: seq<Byte>, readable: nat, torn: nat,
                       ghost d0: Disk, ghost inodes0: seq<Inode>, ghost base: set<nat>)
      returns (tot: nat, ghost t: nat)
      requires Writing(d0, inodes0, base, i, off, src, 0, 0) && off + |src| <= MAXFILE * BSIZE
      modifies this`disk, this`inodes, this`logged
      ensures Writing(d0, inodes0, base, i, off, src, tot, tot + t)
      ensures tot < |src| || t != 0 ==> readable < |src| || (t == 0 && DiskFull(sb, disk))
    {
      t, tot := 0, 0;
      var ok, m := true, 0;
      while tot < |src|
        invariant tot <= |src| && tot <= readable && t == 0
        invariant Writing(d0, inodes0, base, i, off, src, tot, tot) && (tot < |src| ==> RoundStart(off, tot))
      {
        ok, m, t := NextRound(i, off, src, tot, readable, torn, d0, inodes0, base);
        if !ok {
          return;
        }
        t, tot := 0, tot + m;
      }
    }

    /** writei of src at off, where the copy from the source fails once it passes `readable` bytes,
        after at most `torn` bytes of the failing chunk.  The r bytes that count as written and
        the t stray ones are in the file, cut off at its size.  It logs exactly the blocks of the r bytes,
        what bmap allocated for them and the failing chunk, and the block of the inode. */
    method Writei(i: nat, off: nat, src: seq<Byte>, readable: nat, torn: nat) returns (r: int, ghost t: nat)
      requires Valid() && i < |inodes| && off < UINT && |src| < UINT && NoHoles(sb, disk, inodes, i)
      modifies this`disk, this`inodes, this`dinodes, this`logged
      ensures Valid() && |inodes| == |old(inodes)|
      ensures r == -1 <==> old(Refuses(inodes[i].size, off, |src|))
      ensures r == -1 ==> t == 0 && disk == old(disk) && inodes == old(inodes) && dinodes == old(dinodes)
      ensures r == -1 ==> logged == old(logged)
      ensures r != -1 ==> 0 <= r <= r + t <= |src| && dinodes == old(dinodes)[i := inodes[i]]
      ensures r != -1 ==> Written(sb, old(disk), old(inodes), disk, inodes, i, off, src[..r + t],
              Max(old(inodes[i].size), off + r))
      ensures 0 <= r < |src| ==> readable < |src| || (t == 0 && DiskFull(sb, disk))
      ensures r == |src| ==> t == 0
      ensures r != -1 ==>
        Logs(sb, old(logged) + {IBlock(sb, i)}, logged, old(Table(i)), Table(i), off, r, |src|)
      ensures old(logged) == {} && |src| <= 3 * BSIZE ==> |logged| <= MAXOPBLOCKS
    {
      t := 0;
      if off > inodes[i].size || (off + |src|) % UINT < off {
        return -1, 0;
      }
      if off + |src| > MAXFILE * BSIZE {
        return -1, 0;
      }
      StartStands(sb, disk, inodes, logged, i, off, src);
      var tot;
      tot, t := WriteRounds(i, off, src, readable, torn, disk, inodes, logged);
      EndWrite(i, off, src, tot, t, old(disk), old(inodes), old(logged));
      r := tot;
    }

    /** The end of writei: the new size, if larger, and iupdate. */
    method EndWrite(i: nat, off: nat, src: seq<Byte>, tot: nat, ghost t: nat,
                    ghost d0: Disk, ghost inodes0: seq<Inode>, ghost base: set<nat>)
      requires Writing(d0, inodes0, base, i, off, src, tot, tot + t)
      requires off + |src| <= MAXFILE * BSIZE && Sane(sb, d0, inodes0) && i < |inodes0|
      requires off <= inodes0[i].size && NoHoles(sb, d0, inodes0, i)
      modifies this`inodes, this`dinodes, this`logged
      ensures Valid() && i < |inodes| && dinodes == old(dinodes)[i := inodes[i]]
      ensures Written(sb, d0, inodes0, disk, inodes, i, off, src[..tot + t], Max(inodes0[i].size, off + tot))
      ensures Logs(sb, base + {IBlock(sb, i)}, logged, Slots(sb, d0, inodes0, i), Table(i), off, tot, |src|)
      ensures base == {} && |src| <= 3 * BSIZE ==> |logged| <= MAXOPBLOCKS
    {
      StandsOpen(sb, d0, inodes0, disk, inodes, base, logged, i, off, src, tot, tot + t);
      ghost var mid, len := inodes, Max(inodes[i].size, off + tot);
      Resized(sb, disk, inodes, i, len);
      if off + tot > inodes[i].size {
        inodes := inodes[i := inodes[i].(size := off + tot)];
      }
      assert inodes == mid[i := mid[i].(size := len)];
      FinishWrite(sb, d0, inodes0, disk, mid, inodes, i, off, src[..tot + t], len);
      Iupdate(i);
      LogsInode(sb, base, old(logged), Slots(sb, d0, inodes0, i), Table(i), off, tot, |src|, IBlock(sb, i));
      if base == {} && |src| <= 3 * BSIZE {
        MappedSlots(sb, d0, inodes0, i, inodes0[i].size);
        WriteBudget(sb, old(logged), Slots(sb, d0, inodes0, i), Table(i), off, tot, |src|, IBlock(sb, i));
      }
    }

    ghost predicate FiledHere(d0: Disk, inodes0: seq<Inode>, i: nat, off: nat, src: seq<Byte>, k: nat, put: nat)
      reads this
    {
      Valid() && Filed(sb, d0, inodes0, disk, inodes, i, off, src, k, put)
    }

    /** begin_op, writei of the next chunk, end_op. */
    method WriteTransaction(i: nat, off: nat, src: seq<Byte>, at: nat, n1: nat, readable: nat, torn: nat,
                            ghost d0: Disk, ghost inodes0: seq<Inode>)
      returns (r: int, ghost t: nat)
      requires at + n1 <= |src| && off + at < UINT && 0 < n1 <= 3 * BSIZE
      requires FiledHere(d0, inodes0, i, off, src, at, at)
      modifies this
      ensures |logged| <= MAXOPBLOCKS && transactions == old(transactions) + [logged] && -1 <= r <= n1
      ensures r >= 0 ==> FiledHere(d0, inodes0, i, off, src, at + r, at + r + t) && off + at + r <= MAXFILE * BSIZE
      ensures r < 0 ==> FiledHere(d0, inodes0, i, off, src, at, at) && t == 0
      ensures r < 0 ==> off > inodes0[i].size || off + at + n1 > MAXFILE * BSIZE
      ensures 0 <= r < n1 ==> readable < at + n1 || (t == 0 && DiskFull(sb, disk))
      ensures r == n1 ==> t == 0
    {
      logged := {};
      ghost var d1, inodes1 := disk, inodes;
      r, t := Writei(i, off + at, src[at..at + n1], if at <= readable then readable - at else 0, torn);
      if r != -1 {
        FiledMore(sb, d0, inodes0, d1, inodes1, disk, inodes, i, off, src, at, n1, r + t, r,
            Max(inodes1[i].size, off + at + r));
      }
      transactions := transactions + [logged];
    }

    /** filewrite on an inode file: src is written from off on, in transactions that each log at most
        MAXOPBLOCKS blocks; `done` bytes count as written, t stray ones may follow them. */
    method Filewrite(i: nat, off: nat, src: seq<Byte>, readable: nat, torn: nat)
      returns (ret: int, off1: nat, ghost done: nat, ghost t: nat)
      requires Valid() && i < |inodes| && off < UINT && NoHoles(sb, disk, inodes, i)
      modifies this
      ensures FiledHere(old(disk), old(inodes), i, off, src, done, done + t) && off1 == off + done
      ensures ret == if done == |src| then |src| else -1
      ensures done < |src| ==>
        off > old(inodes[i].size) || off + |src| > MAXFILE * BSIZE || readable < |src| || DiskFull(sb, disk)
      ensures t != 0 ==> readable < |src|
      ensures old(transactions) <= transactions
      ensures forall k :: |old(transactions)| <= k < |transactions| ==> |transactions[k]| <= MAXOPBLOCKS
    {
      var max := (MAXOPBLOCKS - 1 - 1 - 2) / 2 * BSIZE;
      StartFile(sb, disk, inodes, i, off, src);
      off1, done, t := off, 0, 0;
      var k := 0;
      while k < |src|
        invariant k <= |src| && off1 == off + k < UINT && done == k && t == 0
        invariant FiledHere(old(disk), old(inodes), i, off, src, k, k)
        invariant old(transactions) <= transactions
        invariant forall j :: |old(transactions)| <= j < |transactions| ==> |transactions[j]| <= MAXOPBLOCKS
      {
        var n1 := Min(|src| - k, max);
        var r;
        r, t := WriteTransaction(i, off, src, k, n1, readable, torn, old(disk), old(inodes));
        if r > 0 {
          off1, done := off1 + r, k + r;
        }
        if r != n1 {
          return -1, off1, done, t;
        }
        k := k + r;
      }
      ret := k;
    }
  }

  lemma BitPlace(b: nat, bi: nat)
    requires b % BPB == 0 && bi < BPB
    ensures (b + bi) / BPB == b / BPB && (b + bi) % BPB == bi
  {
  }

  ghost predicate DiskFull(sb: Super, d: Disk)
    requires Layout(sb) && |d| == sb.size
  {
    forall c :: 0 <= c < sb.size ==> Used(sb, d, c)
  }

  /** An inode whose first k pointers are zeroed. */
  ghost function Cleared(ino: Inode, k: nat): Inode
    requires k <= |ino.addrs|
  {
    ino.(addrs := seq(k, _ => 0) + ino.addrs[k..])
  }

  lemma NonZeroStep(a: seq<nat>, k: nat)
    requires k < |a|
    ensures NonZero(a[..k + 1]) == NonZero(a[..k]) + NonZero([a[k]])
  {
    assert a[..k + 1] == a[..k] + [a[k]];
  }

  lemma ClearedStep(ino: Inode, k: nat)
    requires k < |ino.addrs|
    ensures Cleared(ino, k).addrs[k] == ino.addrs[k]
    ensures Cleared(ino, k + 1) == Cleared(ino, k).(addrs := Cleared(ino, k).addrs[k := 0])
    ensures ino.addrs[k] == 0 ==> Cleared(ino, k + 1) == Cleared(ino, k)
  {
    assert Cleared(ino, k + 1).addrs == Cleared(ino, k).addrs[k := 0];
  }

  /** The cases in which writei returns -1 without touching the file. */
  predicate Refuses(size: nat, off: nat, n: nat) {
    off > size || off + n >= UINT || off + n > MAXFILE * BSIZE
  }

  datatype Side = Bytes | Reach | Log

  /** Between d and e `put` bytes of src have gone into file i at off, `tot` of them for good: every block up to
      there is mapped, and exactly what that takes has been logged. */
  ghost predicate Stands(sb: Super, d: Disk, inodes: seq<Inode>, e: Disk, after: seq<Inode>, base: set<nat>,
      logged: set<nat>, i: nat, off: nat, src: seq<Byte>, tot: nat, put: nat) {
    && tot <= put <= |src|
    && forall u :: StandsBy(u, sb, d, inodes, e, after, base, logged, i, off, src, tot, put)
  }

  ghost predicate StandsBy(u: Side, sb: Super, d: Disk, inodes: seq<Inode>, e: Disk, after: seq<Inode>, base: set<nat>,
      logged: set<nat>, i: nat, off: nat, src: seq<Byte>, tot: nat, put: nat) {
    && Both(sb, d, inodes, e, after) && i < |inodes|
    && match u
       case Bytes => put <= |src| && Grew(sb, d, inodes, e, after, i, off, src[..put])
       case Reach => Mapped(sb, e, after, i, Max(after[i].size, off + tot))
       case Log => Logs(sb, base, logged, Slots(sb, d, inodes, i), Slots(sb, e, after, i), off, tot, |src|)
  }

  lemma StandsOpen(sb: Super, d: Disk, inodes: seq<Inode>, e: Disk, after: seq<Inode>, base: set<nat>,
      logged: set<nat>, i: nat, off: nat, src: seq<Byte>, tot: nat, put: nat)
    requires Stands(sb, d, inodes, e, after, base, logged, i, off, src, tot, put)
    ensures tot <= put <= |src| && Grew(sb, d, inodes, e, after, i, off, src[..put])
    ensures Mapped(sb, e, after, i, Max(after[i].size, off + tot))
    ensures Logs(sb, base, logged, Slots(sb, d, inodes, i), Slots(sb, e, after, i), off, tot, |src|)
  {
    assert StandsBy(Bytes, sb, d, inodes, e, after, base, logged, i, off, src, tot, put);
    assert StandsBy(Reach, sb, d, inodes, e, after, base, logged, i, off, src, tot, put);
    assert StandsBy(Log, sb, d, inodes, e, after, base, logged, i, off, src, tot, put);
  }

  lemma StartStands(sb: Super, d: Disk, inodes: seq<Inode>, base: set<nat>, i: nat, off: nat, src: seq<Byte>)
    requires Sane(sb, d, inodes) && i < |inodes| && NoHoles(sb, d, inodes, i) && off <= inodes[i].size
    requires off + |src| <= MAXFILE * BSIZE
    ensures Stands(sb, d, inodes, d, inodes, base, base, i, off, src, 0, 0)
  {
    StartWriting(sb, d, inodes, i, off, src);
    StartLogs(sb, base, d, inodes, i, off, |src|);
  }

  /** One round on top of the rounds before it. */
  lemma RoundStands(sb: Super, d: Disk, inodes: seq<Inode>, e: Disk, mid: seq<Inode>, f: Disk, after: seq<Inode>,
                    base: set<nat>, logged: set<nat>, logged1: set<nat>,
                    i: nat, off: nat, src: seq<Byte>, tot: nat, m: nat, t: nat, ok: bool)
    requires Stands(sb, d, inodes, e, mid, base, logged, i, off, src, tot, tot) && RoundStart(off, tot)
    requires 0 < m && (off + tot) % BSIZE + m <= BSIZE && tot + m <= |src| && t <= m && (ok ==> t == m)
    requires off + |src| <= MAXFILE * BSIZE && Grew(sb, e, mid, f, after, i, off + tot, src[tot..tot + t])
    requires ok ==> Addr(sb, f, after, i, DataSlot((off + tot) / BSIZE)) != 0
    requires ChunkLog(sb, logged, logged1, Slots(sb, e, mid, i), Slots(sb, f, after, i), (off + tot) / BSIZE, ok)
    ensures Stands(sb, d, inodes, f, after, base, logged1, i, off, src, if ok then tot + m else tot, tot + t)
  {
    StandsOpen(sb, d, inodes, e, mid, base, logged, i, off, src, tot, tot);
    var reach := Max(mid[i].size, off + tot);
    RoundDone(sb, d, inodes, e, mid, f, after, i, off, src, tot, t, reach, ok);
    MappedBelow(sb, e, mid, i, reach, off + tot);
    RoundLogs(sb, base, logged, logged1, Slots(sb, d, inodes, i), Slots(sb, e, mid, i), Slots(sb, f, after, i),
        off, tot, m, |src|, ok);
  }

  function Max(a: nat, b: nat): nat { if a < b then b else a }

  function Min(a: nat, b: nat): nat { if a < b then a else b }

}
