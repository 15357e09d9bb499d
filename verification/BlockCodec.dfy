/** Bytes, 4-byte words and bits inside a disk block, as kernel/fs.c reads and writes them. */
module BlockCodec {
  import opened Params

  const WORDS: nat := 256          // words per block: NINDIRECT
  const BPB: nat := 8192           // bitmap bits per block

  type Byte = x: int | 0 <= x < 256
  type Block = b: seq<Byte> | |b| == BSIZE witness seq(BSIZE, _ => 0)

  function ZeroBlock(): (z: Block)
    ensures forall i :: 0 <= i < BSIZE ==> z[i] == 0
  {
    seq(BSIZE, _ => 0)
  }

  // ---------- words ----------

  /** ((uint*)data)[i], little-endian. */
  function Word(b: Block, i: nat): (w: nat)
    requires i < WORDS
  {
    var b0: int, b1: int, b2: int, b3: int := b[4 * i], b[4 * i + 1], b[4 * i + 2], b[4 * i + 3];
    b0 + 0x100 * b1 + 0x1_0000 * b2 + 0x100_0000 * b3
  }

  /** ((uint*)data)[i] = w. */
  function PutWord(b: Block, i: nat, w: nat): Block
    requires i < WORDS && w < UINT
  {
    b[4 * i := w % 0x100][4 * i + 1 := w / 0x100 % 0x100][4 * i + 2 := w / 0x1_0000 % 0x100]
     [4 * i + 3 := w / 0x100_0000]
  }

  lemma WordAfterPut(b: Block, i: nat, w: nat, j: nat)
    requires i < WORDS && w < UINT && j < WORDS
    ensures Word(PutWord(b, i, w), j) == if i == j then w else Word(b, j)
  {
    var c := PutWord(b, i, w);
    if i == j {
      Digits(w);
    } else {
      assert c[4 * j] == b[4 * j] && c[4 * j + 1] == b[4 * j + 1] && c[4 * j + 2] == b[4 * j + 2];
      assert c[4 * j + 3] == b[4 * j + 3];
    }
  }

  lemma Digits(w: nat)
    ensures w % 0x100 + 0x100 * (w / 0x100 % 0x100) + 0x1_0000 * (w / 0x1_0000 % 0x100)
            + 0x100_0000 * (w / 0x100_0000) == w
  {
    var a, b, c := w / 0x100, w / 0x1_0000, w / 0x100_0000;
    assert a / 0x100 == b;
    assert b / 0x100 == c;
    assert w == w % 0x100 + 0x100 * a && a == a % 0x100 + 0x100 * b && b == b % 0x100 + 0x100 * c;
  }

  lemma ZeroWord(i: nat)
    requires i < WORDS
    ensures Word(ZeroBlock(), i) == 0
  {
  }

  // ---------- bits ----------

  /** (x & (1 << k)) != 0. */
  predicate Bit(x: nat, k: nat) {
    if k == 0 then x % 2 == 1 else Bit(x / 2, k - 1)
  }

  /** x | (1 << k). */
  function SetBit(x: nat, k: nat): (y: nat) {
    if k == 0 then x / 2 * 2 + 1 else SetBit(x / 2, k - 1) * 2 + x % 2
  }

  /** x & ~(1 << k). */
  function ClearBit(x: nat, k: nat): (y: nat) {
    if k == 0 then x / 2 * 2 else ClearBit(x / 2, k - 1) * 2 + x % 2
  }

  lemma {:induction false} SetBitAt(x: nat, k: nat, j: nat)
    ensures Bit(SetBit(x, k), j) <==> j == k || Bit(x, j)
  {
    if k > 0 && j > 0 {
      assert SetBit(x, k) / 2 == SetBit(x / 2, k - 1);
      SetBitAt(x / 2, k - 1, j - 1);
    } else if j > 0 {
      assert SetBit(x, k) / 2 == x / 2;
    }
  }

  lemma {:induction false} ClearBitAt(x: nat, k: nat, j: nat)
    ensures Bit(ClearBit(x, k), j) <==> j != k && Bit(x, j)
  {
    if k > 0 && j > 0 {
      assert ClearBit(x, k) / 2 == ClearBit(x / 2, k - 1);
      ClearBitAt(x / 2, k - 1, j - 1);
    } else if j > 0 {
      assert ClearBit(x, k) / 2 == x / 2;
    }
  }

  /** The results still fit the byte. */
  lemma BitFits(x: Byte, k: nat)
    requires k < 8
    ensures SetBit(x, k) < 256 && ClearBit(x, k) < 256
  {
    assert Pow2(8) == 256 by { assert Pow2(4) == 16; }
    BitBound(x, k, 8);
  }

  function Pow2(n: nat): nat {
    if n == 0 then 1 else 2 * Pow2(n - 1)
  }

  lemma {:induction false} BitBound(x: nat, k: nat, n: nat)
    requires x < Pow2(n) && k < n
    ensures SetBit(x, k) < Pow2(n) && ClearBit(x, k) < Pow2(n)
  {
    if k > 0 {
      BitBound(x / 2, k - 1, n - 1);
    }
  }

  // ---------- the free bitmap ----------

  /** Bit bi of a bitmap block. */
  predicate BlockBit(b: Block, bi: nat)
    requires bi < BPB
  {
    Bit(b[bi / 8], bi % 8)
  }

  function SetBlockBit(b: Block, bi: nat): (r: Block)
    requires bi < BPB
    ensures forall j :: 0 <= j < BPB ==> (BlockBit(r, j) <==> j == bi || BlockBit(b, j))
  {
    BitFits(b[bi / 8], bi % 8);
    assert forall j :: 0 <= j < BPB && j / 8 == bi / 8 && j % 8 == bi % 8 ==> j == bi;
    var r := b[bi / 8 := SetBit(b[bi / 8], bi % 8)];
    assert forall j :: 0 <= j < BPB ==> (BlockBit(r, j) <==> j == bi || BlockBit(b, j)) by {
      forall j | 0 <= j < BPB
        ensures BlockBit(r, j) <==> j == bi || BlockBit(b, j)
      {
        SetBitAt(b[bi / 8], bi % 8, j % 8);
      }
    }
    r
  }

  function ClearBlockBit(b: Block, bi: nat): (r: Block)
    requires bi < BPB
    ensures forall j :: 0 <= j < BPB ==> (BlockBit(r, j) <==> j != bi && BlockBit(b, j))
  {
    BitFits(b[bi / 8], bi % 8);
    var r := b[bi / 8 := ClearBit(b[bi / 8], bi % 8)];
    assert forall j :: 0 <= j < BPB ==> (BlockBit(r, j) <==> j != bi && BlockBit(b, j)) by {
      forall j | 0 <= j < BPB
        ensures BlockBit(r, j) <==> j != bi && BlockBit(b, j)
      {
        ClearBitAt(b[bi / 8], bi % 8, j % 8);
      }
    }
    r
  }
}
