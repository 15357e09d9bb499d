/** user/umalloc.c: the Kernighan and Ritchie allocator.

    Memory is counted in units of one Header (16 bytes), so that p + n on a Header* is address + n.  The
    static `base` lies below everything sbrk returns. */
module Umalloc {
  import opened Sets

  const UNIT: nat := 16
  const MINCORE: nat := 4096
  const INTMAX: nat := 0x7fff_ffff

  datatype Header = Header(ptr: nat, size: nat)

  type Memory = map<nat, Header>

  function Size(mem: Memory, a: nat): nat { if a in mem then mem[a].size else 0 }

  function Ptr(mem: Memory, a: nat): nat { if a in mem then mem[a].ptr else 0 }

  // ---------- blocks tile the heap ----------

  predicate Within(mem: Memory, a: nat, u: nat) { a <= u < a + Size(mem, a) }

  /** Blocks are non-empty, lie between base and the break, and do not overlap. */
  ghost predicate Tiles(mem: Memory, base: nat, keys: set<nat>, brk: nat) {
    && (forall a :: a in keys ==> base < a && Size(mem, a) >= 1 && a + Size(mem, a) <= brk)
    && (forall a, b :: a in keys && b in keys && a < b ==> a + Size(mem, a) <= b)
    && Size(mem, base) == 0 && base < brk
  }

  ghost predicate InBlock(mem: Memory, keys: set<nat>, u: nat) {
    exists a :: a in keys && Within(mem, a, u)
  }

  /** The blocks cover exactly the memory obtained from sbrk. */
  ghost predicate Covers(mem: Memory, keys: set<nat>, heap: set<nat>) {
    forall u :: u in heap <==> InBlock(mem, keys, u)
  }

  // ---------- the free ring ----------

  /** n is the next free block after f, or base after the last one. */
  ghost predicate IsNext(free: set<nat>, base: nat, f: nat, n: nat) {
    && n in free
    && if f < n then forall g :: g in free ==> g <= f || n <= g
       else n == base && forall g :: g in free ==> g <= f
  }

  ghost predicate Ring(mem: Memory, base: nat, free: set<nat>) {
    && base in free && (forall f :: f in free ==> base <= f)
    && forall f {:trigger IsNext(free, base, f, Ptr(mem, f))} :: f in free ==> IsNext(free, base, f, Ptr(mem, f))
  }

  /** No two free blocks touch. */
  ghost predicate Apart(mem: Memory, base: nat, free: set<nat>) {
    forall f, g :: f in free && g in free && base < f < g ==> f + Size(mem, f) < g
  }

  // ---------- free: where the block goes ----------

  /** p is the free block just before bp. */
  ghost predicate Before(free: set<nat>, p: nat, bp: nat) {
    p in free && p < bp && forall g :: g in free ==> g <= p || bp <= g
  }

  ghost function Between(free: set<nat>, lo: nat, hi: nat): set<nat> {
    set g | g in free && lo < g < hi
  }

  ghost function Above(free: set<nat>, lo: nat): set<nat> {
    set g | g in free && lo < g
  }

  /** How far the search of free still has to go from p. */
  ghost function Ahead(free: set<nat>, p: nat, bp: nat): nat {
    if p < bp then |Between(free, p, bp)| else |free| + |Above(free, p)|
  }

  lemma AheadShrinks(free: set<nat>, base: nat, p: nat, n: nat, bp: nat)
    requires p in free && base in free && IsNext(free, base, p, n) && bp !in free && base < bp && !Before(free, p, bp)
    ensures Ahead(free, n, bp) < Ahead(free, p, bp)
  {
    if p < bp {
      assert p < n < bp;
      assert n in Between(free, p, bp) && n !in Between(free, n, bp);
      SubsetSize(Between(free, n, bp), Between(free, p, bp));
    } else if p < n {
      assert n in Above(free, p) && n !in Above(free, n);
      SubsetSize(Above(free, n), Above(free, p));
    } else {
      assert base !in Between(free, base, bp);
      SubsetSize(Between(free, base, bp), free);
    }
  }

  /** The search loop of free ends exactly at the free block before bp. */
  method FindPlace(mem: Memory, ghost base: nat, ghost free: set<nat>, freep: nat, bp: nat) returns (p: nat)
    requires Ring(mem, base, free) && freep in free && base < bp && bp !in free
    ensures Before(free, p, bp)
  {
    p := freep;
    while !(bp > p && bp < Ptr(mem, p))
      invariant p in free
      decreases Ahead(free, p, bp)
    {
      var n := Ptr(mem, p);
      assert IsNext(free, base, p, n);
      if p >= n && (bp > p || bp < n) {
        break;
      }
      NotBefore(free, base, p, n, bp);
      AheadShrinks(free, base, p, n, bp);
      p := n;
    }
    assert IsNext(free, base, p, Ptr(mem, p));
  }

  lemma NotBefore(free: set<nat>, base: nat, p: nat, n: nat, bp: nat)
    requires IsNext(free, base, p, n) && base < bp && bp !in free && !(p < bp < n) && !(p >= n && (bp > p || bp < n))
    ensures !Before(free, p, bp)
  {
  }

  // ---------- linking and unlinking ----------

  function Put(mem: Memory, a: nat, ptr: nat, size: nat): Memory {
    mem[a := Header(ptr, size)]
  }

  lemma InsertRing(mem: Memory, base: nat, free: set<nat>, p: nat, bp: nat, s: nat)
    requires Ring(mem, base, free) && Before(free, p, bp) && bp !in free
    ensures Ring(Put(Put(mem, bp, Ptr(mem, p), s), p, bp, Size(mem, p)), base, free + {bp})
  {
    var n, mem1, free1 := Ptr(mem, p), Put(Put(mem, bp, Ptr(mem, p), s), p, bp, Size(mem, p)), free + {bp};
    assert IsNext(free, base, p, n);
    forall f | f in free1
      ensures IsNext(free1, base, f, Ptr(mem1, f))
    {
      if f != p && f != bp {
        assert IsNext(free, base, f, Ptr(mem, f));
      }
    }
  }

  lemma RemoveRing(mem: Memory, base: nat, free: set<nat>, prev: nat, x: nat, s: nat)
    requires Ring(mem, base, free) && prev in free && x in free && x != base && Ptr(mem, prev) == x
    ensures prev != x && Ring(Put(mem, prev, Ptr(mem, x), s), base, free - {x})
  {
    var n, mem1, free1 := Ptr(mem, x), Put(mem, prev, Ptr(mem, x), s), free - {x};
    assert IsNext(free, base, x, n) && IsNext(free, base, prev, x);
    forall f | f in free1
      ensures IsNext(free1, base, f, Ptr(mem1, f))
    {
      assert IsNext(free, base, f, Ptr(mem, f));
    }
  }

  /** Only sizes matter to the tiling, only links to the ring. */
  lemma SameTiles(mem: Memory, mem1: Memory, base: nat, keys: set<nat>, brk: nat, heap: set<nat>)
    requires Tiles(mem, base, keys, brk) && Covers(mem, keys, heap)
    requires forall a :: a in keys + {base} ==> Size(mem1, a) == Size(mem, a)
    ensures Tiles(mem1, base, keys, brk) && Covers(mem1, keys, heap)
  {
    forall u: nat
      ensures InBlock(mem, keys, u) <==> InBlock(mem1, keys, u)
    {
      if InBlock(mem, keys, u) {
        var a :| a in keys && Within(mem, a, u);
        assert Within(mem1, a, u);
      }
      if InBlock(mem1, keys, u) {
        var a :| a in keys && Within(mem1, a, u);
        assert Within(mem, a, u);
      }
    }
  }

  lemma SameRing(mem: Memory, mem1: Memory, base: nat, free: set<nat>)
    requires Ring(mem, base, free) && forall f :: f in free ==> Ptr(mem1, f) == Ptr(mem, f)
    ensures Ring(mem1, base, free)
  {
    forall f | f in free
      ensures IsNext(free, base, f, Ptr(mem1, f))
    {
      assert IsNext(free, base, f, Ptr(mem, f));
    }
  }

  // ---------- joining and cutting blocks ----------

  lemma JoinWithin(mem: Memory, keys: set<nat>, mem1: Memory, a: nat, b: nat, u: nat)
    requires a in keys && b in keys && a + Size(mem, a) == b && Size(mem, a) > 0
    requires Size(mem1, a) == Size(mem, a) + Size(mem, b)
    requires forall c :: c in keys && c != a && c != b ==> Size(mem1, c) == Size(mem, c)
    ensures InBlock(mem, keys, u) <==> InBlock(mem1, keys - {b}, u)
  {
    if InBlock(mem, keys, u) {
      var c :| c in keys && Within(mem, c, u);
      var d := if c == b then a else c;
      assert d in keys - {b} && Within(mem1, d, u);
    }
    if InBlock(mem1, keys - {b}, u) {
      var c :| c in keys - {b} && Within(mem1, c, u);
      var d := if c == a && u >= b then b else c;
      assert d in keys && Within(mem, d, u);
    }
  }

  /** b, just above a, becomes part of a. */
  lemma JoinTiles(mem: Memory, base: nat, keys: set<nat>, brk: nat, a: nat, b: nat, mem1: Memory)
    requires Tiles(mem, base, keys, brk) && a in keys && b in keys && a + Size(mem, a) == b
    requires Size(mem1, a) == Size(mem, a) + Size(mem, b)
    requires forall c :: c in keys + {base} && c != a ==> Size(mem1, c) == Size(mem, c)
    ensures Tiles(mem1, base, keys - {b}, brk)
  {
    assert base !in keys;
    forall c, d | c in keys - {b} && d in keys - {b} && c < d
      ensures c + Size(mem1, c) <= d
    {
      assert c + Size(mem, c) <= d;
    }
  }

  lemma Join(mem: Memory, base: nat, keys: set<nat>, brk: nat, heap: set<nat>, a: nat, b: nat, mem1: Memory)
    requires Tiles(mem, base, keys, brk) && Covers(mem, keys, heap) && a in keys && b in keys && a + Size(mem, a) == b
    requires Size(mem1, a) == Size(mem, a) + Size(mem, b)
    requires forall c :: c in keys + {base} && c != a ==> Size(mem1, c) == Size(mem, c)
    ensures Tiles(mem1, base, keys - {b}, brk) && Covers(mem1, keys - {b}, heap)
  {
    JoinTiles(mem, base, keys, brk, a, b, mem1);
    forall u: nat
      ensures InBlock(mem, keys, u) <==> InBlock(mem1, keys - {b}, u)
    {
      JoinWithin(mem, keys, mem1, a, b, u);
    }
  }

  /** Cutting is joining read backwards: q is the upper part of a. */
  lemma CutTiles(mem: Memory, base: nat, keys: set<nat>, brk: nat, a: nat, q: nat, mem1: Memory)
    requires Tiles(mem, base, keys, brk) && a in keys && a < q && Size(mem1, q) > 0
    requires a + Size(mem1, a) == q && Size(mem1, a) + Size(mem1, q) == Size(mem, a)
    requires forall c :: c in keys + {base} && c != a && c != q ==> Size(mem1, c) == Size(mem, c)
    ensures q !in keys && Tiles(mem1, base, keys + {q}, brk)
  {
    assert base !in keys && q !in keys;
    forall c, d | c in keys + {q} && d in keys + {q} && c < d
      ensures c + Size(mem1, c) <= d
    {
      if c != q && d != q {
        assert c + Size(mem, c) <= d;
      } else if d == q && c != a {
        assert c < a && c + Size(mem, c) <= a;
      } else if c == q {
        assert a < d && a + Size(mem, a) <= d;
      }
    }
  }

  lemma Cut(mem: Memory, base: nat, keys: set<nat>, brk: nat, heap: set<nat>, a: nat, q: nat, mem1: Memory)
    requires Tiles(mem, base, keys, brk) && Covers(mem, keys, heap) && a in keys && a < q && Size(mem1, q) > 0
    requires a + Size(mem1, a) == q && Size(mem1, a) + Size(mem1, q) == Size(mem, a)
    requires forall c :: c in keys + {base} && c != a && c != q ==> Size(mem1, c) == Size(mem, c)
    ensures q !in keys && Tiles(mem1, base, keys + {q}, brk) && Covers(mem1, keys + {q}, heap)
  {
    CutTiles(mem, base, keys, brk, a, q, mem1);
    assert keys + {q} - {q} == keys;
    forall u: nat
      ensures InBlock(mem1, keys + {q}, u) <==> InBlock(mem, keys, u)
    {
      JoinWithin(mem1, keys + {q}, mem, a, q, u);
    }
  }

  // ---------- keeping free blocks apart ----------

  /** Apart, except that p may touch bp. */
  ghost predicate ApartBut(mem: Memory, base: nat, free: set<nat>, p: nat, bp: nat) {
    forall f, g :: f in free && g in free && base < f < g && (f != p || g != bp) ==> f + Size(mem, f) < g
  }

  lemma ApartPlaced(mem: Memory, base: nat, keys: set<nat>, brk: nat, free: set<nat>, p: nat, bp: nat, n: nat)
    requires Tiles(mem, base, keys, brk) && Apart(mem, base, free) && free <= keys + {base} && bp in keys && bp !in free
    requires Before(free, p, bp) && IsNext(free, base, p, n) && bp + Size(mem, bp) != n
    ensures ApartBut(mem, base, free + {bp}, p, bp)
  {
  }

  lemma ApartAbsorbed(mem: Memory, base: nat, keys: set<nat>, brk: nat, free: set<nat>, p: nat, bp: nat, n: nat,
      mem1: Memory)
    requires Tiles(mem, base, keys, brk) && Apart(mem, base, free) && free <= keys + {base} && bp in keys && bp !in free
    requires Before(free, p, bp) && IsNext(free, base, p, n) && bp + Size(mem, bp) == n
    requires Size(mem1, bp) == Size(mem, bp) + Size(mem, n)
    requires forall c :: c in keys && c != bp ==> Size(mem1, c) == Size(mem, c)
    ensures n in keys && ApartBut(mem1, base, free - {n} + {bp}, p, bp)
  {
  }

  lemma ApartJoined(mem: Memory, base: nat, free: set<nat>, p: nat, bp: nat, mem1: Memory)
    requires ApartBut(mem, base, free, p, bp) && bp in free && p in free && base <= p < bp && p + Size(mem, p) == bp
    requires Size(mem1, p) == Size(mem, p) + Size(mem, bp)
    requires forall c :: c in free && c != p ==> Size(mem1, c) == Size(mem, c)
    ensures Apart(mem1, base, free - {bp})
  {
    forall f, g | f in free - {bp} && g in free - {bp} && base < f < g
      ensures f + Size(mem1, f) < g
    {
      if f == p {
        assert p + Size(mem, p) < g;
        assert bp + Size(mem, bp) < g;
      }
    }
  }

  // ---------- the whole heap as a value ----------

  datatype Heap = Heap(mem: Memory, base: nat, free: set<nat>, keys: set<nat>, brk: nat, heap: set<nat>)

  datatype Part = Tiling | Covering | Linking | Gaps

  ghost predicate Holds(u: Part, h: Heap) {
    match u
    case Tiling => Tiles(h.mem, h.base, h.keys, h.brk) && h.free <= h.keys + {h.base}
    case Covering => Covers(h.mem, h.keys, h.heap)
    case Linking => Ring(h.mem, h.base, h.free)
    case Gaps => Apart(h.mem, h.base, h.free)
  }

  /** The blocks tile the heap; the ring visits the free ones in address order and wraps once; no two of
      these touch. */
  ghost predicate Good(h: Heap) {
    forall u :: Holds(u, h)
  }

  lemma Opened(h: Heap)
    requires Good(h)
    ensures Tiles(h.mem, h.base, h.keys, h.brk) && Covers(h.mem, h.keys, h.heap) && h.free <= h.keys + {h.base}
    ensures Ring(h.mem, h.base, h.free) && Apart(h.mem, h.base, h.free)
  {
    assert Holds(Tiling, h) && Holds(Covering, h) && Holds(Linking, h) && Holds(Gaps, h);
  }

  /** bp is free but p, before it, does not point to it yet and may touch it. */
  ghost predicate Placing(h: Heap, p: nat, bp: nat) {
    && Tiles(h.mem, h.base, h.keys, h.brk) && Covers(h.mem, h.keys, h.heap) && h.free <= h.keys + {h.base}
    && p in h.free && bp in h.free && h.base <= p < bp
    && Ring(Put(h.mem, p, bp, Size(h.mem, p)), h.base, h.free) && ApartBut(h.mem, h.base, h.free, p, bp)
  }

  lemma RightPlain(h: Heap, p: nat, bp: nat, k: Heap)
    requires Good(h) && bp in h.keys && bp !in h.free && Before(h.free, p, bp) && bp + Size(h.mem, bp) != Ptr(h.mem, p)
    requires k == h.(mem := Put(h.mem, bp, Ptr(h.mem, p), Size(h.mem, bp)), free := h.free + {bp})
    ensures Placing(k, p, bp)
  {
    Opened(h);
    assert IsNext(h.free, h.base, p, Ptr(h.mem, p));
    ApartPlaced(h.mem, h.base, h.keys, h.brk, h.free, p, bp, Ptr(h.mem, p));
    InsertRing(h.mem, h.base, h.free, p, bp, Size(h.mem, bp));
    SameTiles(h.mem, k.mem, h.base, h.keys, h.brk, h.heap);
  }

  lemma RightJoin(h: Heap, p: nat, bp: nat, n: nat, k: Heap)
    requires Good(h) && bp in h.keys && bp !in h.free && Before(h.free, p, bp) && n == Ptr(h.mem, p)
    requires bp + Size(h.mem, bp) == n
    requires k == h.(mem := Put(h.mem, bp, Ptr(h.mem, n), Size(h.mem, bp) + Size(h.mem, n)),
                     free := h.free - {n} + {bp}, keys := h.keys - {n})
    ensures n in h.free && n != h.base && Placing(k, p, bp)
  {
    Opened(h);
    assert IsNext(h.free, h.base, p, n);
    ApartAbsorbed(h.mem, h.base, h.keys, h.brk, h.free, p, bp, n, k.mem);
    Join(h.mem, h.base, h.keys, h.brk, h.heap, bp, n, k.mem);
    var s := Size(h.mem, bp);
    InsertRing(h.mem, h.base, h.free, p, bp, s);
    var mid := Put(Put(h.mem, bp, n, s), p, bp, Size(h.mem, p));
    RemoveRing(mid, h.base, h.free + {bp}, bp, n, s + Size(h.mem, n));
    assert h.free + {bp} - {n} == k.free;
    assert Put(mid, bp, Ptr(mid, n), s + Size(h.mem, n)) == Put(k.mem, p, bp, Size(k.mem, p));
  }

  lemma LeftPlain(h: Heap, p: nat, bp: nat, k: Heap)
    requires Placing(h, p, bp) && p + Size(h.mem, p) != bp && k == h.(mem := Put(h.mem, p, bp, Size(h.mem, p)))
    ensures Good(k)
  {
    SameTiles(h.mem, k.mem, h.base, h.keys, h.brk, h.heap);
  }

  lemma LeftJoin(h: Heap, p: nat, bp: nat, k: Heap)
    requires Placing(h, p, bp) && p + Size(h.mem, p) == bp
    requires k == h.(mem := Put(h.mem, p, Ptr(h.mem, bp), Size(h.mem, p) + Size(h.mem, bp)), free := h.free - {bp},
             keys := h.keys - {bp})
    ensures p != h.base && Good(k)
  {
    assert p != h.base;
    ApartJoined(h.mem, h.base, h.free, p, bp, k.mem);
    Join(h.mem, h.base, h.keys, h.brk, h.heap, p, bp, k.mem);
    var mid := Put(h.mem, p, bp, Size(h.mem, p));
    RemoveRing(mid, h.base, h.free, p, bp, Size(h.mem, p) + Size(h.mem, bp));
    assert Put(mid, p, Ptr(mid, bp), Size(h.mem, p) + Size(h.mem, bp)) == k.mem;
  }

  /** malloc takes all of p out of the ring. */
  lemma TakeWhole(h: Heap, prev: nat, p: nat, k: Heap)
    requires Good(h) && prev in h.free && p in h.free && p != h.base && Ptr(h.mem, prev) == p
    requires k == h.(mem := Put(h.mem, prev, Ptr(h.mem, p), Size(h.mem, prev)), free := h.free - {p})
    ensures prev in k.free && Good(k)
  {
    Opened(h);
    RemoveRing(h.mem, h.base, h.free, prev, p, Size(h.mem, prev));
    SameTiles(h.mem, k.mem, h.base, h.keys, h.brk, h.heap);
  }

  /** malloc takes the tail of p, which stays in the ring. */
  lemma TakeTail(h: Heap, p: nat, n: nat, ptr1: nat, k: Heap)
    requires Good(h) && p in h.free && p != h.base && 0 < n < Size(h.mem, p)
    requires var q := p + Size(h.mem, p) - n;
             k == h.(mem := Put(Put(h.mem, p, Ptr(h.mem, p), Size(h.mem, p) - n), q, ptr1, n), keys := h.keys + {q})
    ensures p + Size(h.mem, p) - n !in h.keys && Good(k)
  {
    Opened(h);
    var q := p + Size(h.mem, p) - n;
    Cut(h.mem, h.base, h.keys, h.brk, h.heap, p, q, k.mem);
    SameRing(h.mem, k.mem, h.base, h.free);
    forall f, g | f in h.free && g in h.free && h.base < f < g
      ensures f + Size(k.mem, f) < g
    {
      assert f + Size(h.mem, f) < g;
    }
  }

  function Units(a: nat, n: nat): (r: set<nat>)
    ensures forall u :: u in r <==> a <= u < a + n
  {
    if n == 0 then {} else Units(a, n - 1) + {a + n - 1}
  }

  lemma GrownCovers(mem: Memory, keys: set<nat>, heap: set<nat>, a: nat, n: nat, mem1: Memory)
    requires Covers(mem, keys, heap) && a !in keys && Size(mem1, a) == n
    requires forall c :: c in keys ==> Size(mem1, c) == Size(mem, c)
    ensures Covers(mem1, keys + {a}, heap + Units(a, n))
  {
    forall u: nat
      ensures u in heap + Units(a, n) <==> InBlock(mem1, keys + {a}, u)
    {
      if u in heap {
        var c :| c in keys && Within(mem, c, u);
        assert c in keys + {a} && Within(mem1, c, u);
      }
      if u in Units(a, n) {
        assert a in keys + {a} && Within(mem1, a, u);
      }
      if InBlock(mem1, keys + {a}, u) {
        var c :| c in keys + {a} && Within(mem1, c, u);
        assert c != a ==> Within(mem, c, u);
      }
    }
  }

  /** Memory fresh from sbrk is one more block, not in the ring. */
  lemma Grown(h: Heap, a: nat, n: nat, ptr1: nat, k: Heap)
    requires Good(h) && h.brk <= a && 0 < n
    requires k == h.(mem := Put(h.mem, a, ptr1, n), keys := h.keys + {a}, brk := a + n, heap := h.heap + Units(a, n))
    ensures a !in h.keys && a !in h.free && Good(k)
  {
    assert a !in h.keys && a !in h.free && a != h.base by {
      Opened(h);
    }
    forall u
      ensures Holds(u, k)
    {
      match u
      case Tiling => assert Holds(Tiling, h);
      case Covering =>
        assert Holds(Covering, h);
        GrownCovers(h.mem, h.keys, h.heap, a, n, k.mem);
      case Linking =>
        assert Holds(Linking, h);
        SameRing(h.mem, k.mem, h.base, h.free);
      case Gaps => assert Holds(Gaps, h);
    }
  }

  lemma BreakMoved(h: Heap, k: Heap)
    requires Good(h) && h.brk <= k.brk && k == h.(brk := k.brk)
    ensures Good(k)
  {
    Opened(h);
  }

  /** In every good heap each unit obtained from sbrk lies in exactly one block, nothing else does, and two
      free blocks are never next to each other. */
  lemma HeapLaws(h: Heap, u: nat, a: nat, b: nat)
    requires Good(h)
    ensures u in h.heap <==> exists c :: c in h.keys && Within(h.mem, c, u)
    ensures a in h.keys && b in h.keys && Within(h.mem, a, u) && Within(h.mem, b, u) ==> a == b
    ensures a in h.free - {h.base} && b in h.free - {h.base} ==> a + Size(h.mem, a) != b
  {
    Opened(h);
    assert u in h.heap <==> InBlock(h.mem, h.keys, u);
  }

  // ---------- who may write where ----------

  predicate SameCell(mem: Memory, mem1: Memory, u: nat) {
    (u in mem <==> u in mem1) && (u in mem ==> mem[u] == mem1[u])
  }

  /** Nothing inside the blocks `held` has been written. */
  ghost predicate Intact(mem: Memory, mem1: Memory, held: set<nat>) {
    forall b, u :: b in held && Within(mem, b, u) ==> SameCell(mem, mem1, u)
  }

  lemma IntactTrans(mem: Memory, mem1: Memory, mem2: Memory, held: set<nat>)
    requires Intact(mem, mem1, held) && Intact(mem1, mem2, held) && forall b :: b in held ==> Size(mem, b) > 0
    ensures Intact(mem, mem2, held)
  {
    forall b, u | b in held && Within(mem, b, u)
      ensures SameCell(mem, mem2, u)
    {
      assert Within(mem, b, b);
      assert Within(mem1, b, u);
    }
  }

  /** A header written at x disturbs no block but the one x lies in. */
  lemma WriteIntact(mem: Memory, base: nat, keys: set<nat>, brk: nat, x: nat, hd: Header, held: set<nat>)
    requires Tiles(mem, base, keys, brk) && held <= keys && (x == base || x >= brk || (x in keys && x !in held))
    ensures Intact(mem, mem[x := hd], held)
  {
  }

  /** The header of a tail is written inside the free block it is cut from. */
  lemma TailIntact(mem: Memory, base: nat, keys: set<nat>, brk: nat, held: set<nat>, p: nat, q: nat, hp: Header,
      hq: Header)
    requires Tiles(mem, base, keys, brk) && held <= keys && p in keys && p !in held && p < q < p + Size(mem, p)
    ensures Intact(mem, mem[p := hp][q := hq], held)
  {
  }

  /** The ring of base alone. */
  lemma Fresh(h: Heap)
    requires h.keys == {} && h.heap == {} && h.free == {h.base} && h.base < h.brk && h.base in h.mem
    requires h.mem[h.base] == Header(h.base, 0)
    ensures Good(h)
  {
  }

  lemma RingStep(h: Heap, p: nat)
    requires Good(h) && p in h.free
    ensures h.base in h.free && h.base <= p && IsNext(h.free, h.base, p, Ptr(h.mem, p)) && Size(h.mem, h.base) == 0
  {
    assert Holds(Linking, h) && Holds(Tiling, h);
  }

  lemma HeldSizes(h: Heap)
    requires Good(h)
    ensures forall b :: b in h.keys - h.free ==> Size(h.mem, b) > 0
  {
    assert Holds(Tiling, h);
  }

  // ---------- malloc's way round the ring ----------

  /** Going round from p to the stop t, block g is still to come. */
  predicate Later(p: nat, t: nat, g: nat) {
    if p <= t then p <= g <= t else p <= g || g <= t
  }

  lemma LaterAll(free: set<nat>, base: nat, t: nat, n: nat, g: nat)
    requires t in free && g in free && base <= g && IsNext(free, base, t, n)
    ensures Later(n, t, g)
  {
  }

  lemma LaterStep(free: set<nat>, base: nat, p: nat, n: nat, t: nat, g: nat)
    requires p in free && t in free && g in free && base <= g && base <= t && IsNext(free, base, p, n)
    requires p != t && Later(p, t, g) && g != p
    ensures Later(n, t, g)
  {
  }

  lemma AheadStep(free: set<nat>, base: nat, p: nat, n: nat, t: nat)
    requires p in free && t in free && base in free && base <= t && IsNext(free, base, p, n) && p != t
    ensures Ahead(free, n, t + 1) < Ahead(free, p, t + 1)
  {
    if p < t {
      assert n in Between(free, p, t + 1) && n !in Between(free, n, t + 1);
      SubsetSize(Between(free, n, t + 1), Between(free, p, t + 1));
    } else if p < n {
      assert n in Above(free, p) && n !in Above(free, n);
      SubsetSize(Above(free, n), Above(free, p));
    } else {
      assert base !in Between(free, base, t + 1);
      SubsetSize(Between(free, base, t + 1), free);
    }
  }

  /** Free blocks of at least n units are all still ahead of a search that is at p and ends at t. */
  ghost predicate FitsAhead(h: Heap, p: nat, t: nat, n: nat) {
    forall f {:trigger Later(p, t, f)} :: f in h.free && Size(h.mem, f) >= n ==> Later(p, t, f)
  }

  ghost predicate NoneFits(h: Heap, n: nat) {
    forall f :: f in h.free ==> Size(h.mem, f) < n
  }

  lemma FitsStart(h: Heap, t: nat, n: nat)
    requires Good(h) && t in h.free
    ensures FitsAhead(h, Ptr(h.mem, t), t, n)
  {
    RingStep(h, t);
    forall f | f in h.free
      ensures Later(Ptr(h.mem, t), t, f)
    {
      RingStep(h, f);
      LaterAll(h.free, h.base, t, Ptr(h.mem, t), f);
    }
  }

  lemma FitsStep(h: Heap, p: nat, t: nat, n: nat)
    requires Good(h) && p in h.free && t in h.free && p != t && FitsAhead(h, p, t, n) && Size(h.mem, p) < n
    ensures FitsAhead(h, Ptr(h.mem, p), t, n)
  {
    RingStep(h, p);
    RingStep(h, t);
    forall f | f in h.free && Size(h.mem, f) >= n
      ensures Later(Ptr(h.mem, p), t, f)
    {
      RingStep(h, f);
      assert Later(p, t, f);
      LaterStep(h.free, h.base, p, Ptr(h.mem, p), t, f);
    }
  }

  lemma FitsEnd(h: Heap, t: nat, n: nat)
    requires FitsAhead(h, t, t, n) && Size(h.mem, t) < n
    ensures NoneFits(h, n)
  {
    forall f | f in h.free
      ensures Size(h.mem, f) < n
    {
      assert Later(t, t, f) ==> f == t;
    }
  }

  /** The units that morecore asks sbrk for. */
  function Core(n: nat): nat { if n < MINCORE then MINCORE else n }

  /** The units malloc asks for: a header and room for nbytes. */
  function UnitsFor(nbytes: nat): (n: nat)
    ensures 0 < n && nbytes <= (n - 1) * UNIT < nbytes + UNIT
  {
    (nbytes + UNIT - 1) / UNIT + 1
  }

  class Allocator {
    const base: nat
    var mem: Memory
    var freep: nat
    var started: bool
    var brk: nat
    const limit: nat

    ghost var free: set<nat>
    ghost var keys: set<nat>
    ghost var heap: set<nat>

    ghost function H(): Heap
      reads this
    {
      Heap(mem, base, free, keys, brk, heap)
    }

    ghost predicate Valid()
      reads this
    {
      && (started ==> Good(H()) && freep in free)
      && (!started ==> keys == {} && heap == {} && base < brk)
    }

    /** The blocks that malloc has handed out and free has not taken back. */
    ghost function Held(): set<nat>
      reads this
    {
      if started then keys - free else {}
    }

    constructor (base: nat, brk: nat, limit: nat)
      requires base < brk
      ensures Valid() && Held() == {} && heap == {}
    {
      this.base, this.brk, this.limit := base, brk, limit;
      mem, freep, started := map[], 0, false;
      free, keys, heap := {}, {}, {};
    }

    /** free, of the block at bp; f is the free block that it is now part of. */
    method FreeBlock(bp: nat) returns (ghost f: nat)
      requires Good(H()) && freep in free && bp in keys && bp !in free
      modifies this`mem, this`freep, this`free, this`keys
      ensures Good(H()) && freep in free && keys - free == old(keys - free) - {bp}
      ensures f in free && f != base && f <= bp && bp + old(Size(mem, bp)) <= f + Size(mem, f)
      ensures Intact(old(mem), mem, old(keys - free) - {bp})
    {
      ghost var held := keys - free - {bp};
      Opened(H());
      var p := FindPlace(mem, base, free, freep, bp);
      OpenPlace(p, bp, held);
      ghost var mid := mem;
      f := ClosePlace(p, bp, held);
      IntactTrans(old(mem), mid, mem, held);
    }

    /** The right half of free: bp takes the next free block in, or points to it. */
    method OpenPlace(p: nat, bp: nat, ghost held: set<nat>)
      requires Good(H()) && bp in keys && bp !in free && Before(free, p, bp) && held == keys - free - {bp}
      modifies this`mem, this`free, this`keys
      ensures Placing(H(), p, bp) && keys - free == held && Size(mem, bp) >= old(Size(mem, bp))
      ensures Intact(old(mem), mem, held)
    {
      ghost var h := H();
      var n := Ptr(mem, p);
      if bp + Size(mem, bp) == n {
        mem := Put(mem, bp, Ptr(mem, n), Size(mem, bp) + Size(mem, n));
        free, keys := free - {n} + {bp}, keys - {n};
        RightJoin(h, p, bp, n, H());
      } else {
        mem := Put(mem, bp, n, Size(mem, bp));
        free := free + {bp};
        RightPlain(h, p, bp, H());
      }
      Opened(h);
      WriteIntact(h.mem, base, h.keys, brk, bp, mem[bp], held);
    }

    /** The left half of free: p takes bp in, or points to it. */
    method ClosePlace(p: nat, bp: nat, ghost held: set<nat>) returns (ghost f: nat)
      requires Placing(H(), p, bp) && held <= keys && bp !in held && p !in held
      modifies this`mem, this`freep, this`free, this`keys
      ensures Good(H()) && freep in free && keys - free == old(keys - free)
      ensures f in free && f != base && f <= bp && bp + old(Size(mem, bp)) <= f + Size(mem, f)
      ensures Intact(old(mem), mem, held)
    {
      ghost var h := H();
      if p + Size(mem, p) == bp {
        mem := Put(mem, p, Ptr(mem, bp), Size(mem, p) + Size(mem, bp));
        free, keys, f := free - {bp}, keys - {bp}, p;
        LeftJoin(h, p, bp, H());
      } else {
        mem := Put(mem, p, bp, Size(mem, p));
        f := bp;
        LeftPlain(h, p, bp, H());
      }
      WriteIntact(h.mem, base, h.keys, brk, p, mem[p], held);
      freep := p;
    }

    /** free(ap). */
    method Free(ap: nat)
      requires Valid() && 0 < ap && ap - 1 in Held()
      modifies this`mem, this`freep, this`free, this`keys
      ensures Valid() && Held() == old(Held()) - {ap - 1} && heap == old(heap)
      ensures Intact(old(mem), mem, Held())
    {
      ghost var f := FreeBlock(ap - 1);
    }

    /** sbrk(nu * sizeof(Header)); the break may have been moved by others since. */
    method Sbrk(nu: nat) returns (r: int)
      requires nu * UNIT <= INTMAX
      modifies this`brk
      ensures r == -1 <==> old(brk) + nu > limit
      ensures r == -1 ==> brk == old(brk)
      ensures r != -1 ==> r == old(brk) && brk == old(brk) + nu
    {
      if brk + nu > limit {
        return -1;
      }
      r := brk;
      brk := brk + nu;
    }

    /** The rest of the program may also move the break up. */
    method OtherSbrk(n: nat)
      requires Valid()
      modifies this`brk
      ensures Valid() && Held() == old(Held()) && brk == old(brk) + n
    {
      ghost var h := H();
      brk := brk + n;
      if started {
        BreakMoved(h, H());
      }
    }

    /** morecore: false exactly when sbrk has no room; otherwise big is a free block that can hold nu units. */
    method Morecore(nu0: nat) returns (ok: bool, ghost big: nat)
      requires started && Good(H()) && freep in free && 0 < nu0 && nu0 * UNIT <= INTMAX
      modifies this`mem, this`freep, this`brk, this`free, this`keys, this`heap
      ensures Good(H()) && freep in free && keys - free == old(keys - free) && Intact(old(mem), mem, old(keys - free))
      ensures !ok <==> old(brk) + Core(nu0) > limit
      ensures !ok ==> H() == old(H())
      ensures ok ==> big in free && big != base && Size(mem, big) >= nu0
      ensures ok ==> brk == old(brk) + Core(nu0) && heap == old(heap + Units(brk, Core(nu0)))
    {
      var nu := Core(nu0);
      ghost var h := H();
      var r := Sbrk(nu);
      big := 0;
      if r == -1 {
        return false, 0;
      }
      ghost var held := keys - free;
      Opened(h);
      WriteIntact(h.mem, base, h.keys, h.brk, r, Header(Ptr(mem, r), nu), held);
      mem := Put(mem, r, Ptr(mem, r), nu);
      keys, heap := keys + {r}, heap + Units(r, nu);
      Grown(h, r, nu, Ptr(h.mem, r), H());
      assert keys - free - {r} == held;
      ghost var mid := mem;
      big := FreeBlock(r);
      IntactTrans(h.mem, mid, mem, held);
      ok := true;
    }

    /** malloc takes n units from p, all of it or its tail; q is the block handed out. */
    method Take(prevp: nat, p: nat, n: nat) returns (q: nat)
      requires Good(H()) && prevp in free && p in free && p != base && Ptr(mem, prevp) == p && 0 < n <= Size(mem, p)
      modifies this`mem, this`freep, this`free, this`keys
      ensures Good(H()) && freep in free && q !in old(keys - free) && keys - free == old(keys - free) + {q}
      ensures Size(mem, q) == n
      ensures Intact(old(mem), mem, old(keys - free))
    {
      ghost var h, held := H(), keys - free;
      Opened(h);
      if Size(mem, p) == n {
        WriteIntact(mem, base, keys, brk, prevp, Header(Ptr(mem, p), Size(mem, prevp)), held);
        mem := Put(mem, prevp, Ptr(mem, p), Size(mem, prevp));
        free := free - {p};
        q := p;
        TakeWhole(h, prevp, p, H());
      } else {
        q := p + Size(mem, p) - n;
        TailIntact(mem, base, keys, brk, held, p, q, Header(Ptr(mem, p), Size(mem, p) - n), Header(Ptr(mem, q), n));
        mem := Put(mem, p, Ptr(mem, p), Size(mem, p) - n);
        mem := Put(mem, q, Ptr(mem, q), n);
        keys := keys + {q};
        TakeTail(h, p, n, Ptr(h.mem, q), H());
      }
      freep := prevp;
    }

    /** No free block has n units. */
    ghost predicate Short(n: nat)
      reads this
    {
      started ==> NoneFits(H(), n)
    }

    /** No free block has n units, and sbrk has no room for more. */
    ghost predicate NoRoom(n: nat)
      reads this
    {
      Short(n) && brk + Core(n) > limit
    }

    /** The units by which malloc enlarges the heap. */
    ghost function Needed(n: nat): nat
      reads this
    {
      if Short(n) && brk + Core(n) <= limit then Core(n) else 0
    }

    /** malloc: 0 exactly when no free block is large enough and sbrk has no room; otherwise the address
        behind the header of a new block of exactly the units asked for.  The heap grows at the break, once
        and only when no free block is large enough.  No block already handed out is moved, resized or
        written to. */
    method Malloc(nbytes: nat) returns (r: nat)
      requires Valid() && UnitsFor(nbytes) * UNIT <= INTMAX
      modifies this`mem, this`freep, this`started, this`brk, this`free, this`keys, this`heap
      ensures Valid() && Intact(old(mem), mem, old(Held()))
      ensures r == 0 <==> old(NoRoom(UnitsFor(nbytes)))
      ensures brk == old(brk + Needed(UnitsFor(nbytes)))
      ensures heap == old(heap + Units(brk, Needed(UnitsFor(nbytes))))
      ensures r == 0 ==> Held() == old(Held())
      ensures r != 0 ==> r - 1 !in old(Held()) && Held() == old(Held()) + {r - 1}
      ensures r != 0 ==> Size(mem, r - 1) == UnitsFor(nbytes)
    {
      ghost var held := Held();
      ghost var mem0 := mem;
      if !started {
        freep, started := base, true;
        mem := Put(mem, base, base, 0);
        free := {base};
        Fresh(H());
      }
      ghost var mid := mem;
      r := Search(UnitsFor(nbytes));
      assert Intact(mem0, mem, held) by {
        if held != {} {
          assert mid == mem0;
        }
      }
    }

    /** malloc's loop. */
    method Search(nunits: nat) returns (r: nat)
      requires started && Good(H()) && freep in free && 0 < nunits && nunits * UNIT <= INTMAX
      modifies this`mem, this`freep, this`brk, this`free, this`keys, this`heap
      ensures Good(H()) && freep in free && Intact(old(mem), mem, old(keys - free))
      ensures r == 0 <==> old(NoRoom(nunits))
      ensures brk == old(brk + Needed(nunits)) && heap == old(heap + Units(brk, Needed(nunits)))
      ensures r == 0 ==> keys - free == old(keys - free)
      ensures r != 0 ==> r - 1 !in old(keys - free) && keys - free == old(keys - free) + {r - 1}
      ensures r != 0 ==> Size(mem, r - 1) == nunits
    {
      ghost var held, grown, big := keys - free, false, base;
      var prevp := freep;
      RingStep(H(), prevp);
      FitsStart(H(), prevp, nunits);
      HeldSizes(H());
      var p := Ptr(mem, prevp);
      while true
        invariant Good(H()) && freep in free && prevp in free && p in free && p == Ptr(mem, prevp)
        invariant keys - free == held && Intact(old(mem), mem, held)
        invariant FitsAhead(H(), p, freep, nunits)
        invariant !grown ==> H() == old(H())
        invariant grown ==> big in free && Size(mem, big) >= nunits && old(Needed(nunits)) == Core(nunits)
        invariant grown ==> brk == old(brk) + Core(nunits) && heap == old(heap + Units(brk, Core(nunits)))
        decreases if grown then 0 else 1, Ahead(free, p, freep + 1)
      {
        RingStep(H(), p);
        ghost var mid := mem;
        if Size(mem, p) >= nunits {
          var q := Take(prevp, p, nunits);
          IntactTrans(old(mem), mid, mem, held);
          r := q + 1;
          return;
        }
        if p == freep {
          FitsEnd(H(), p, nunits);
          assert !grown;
          var ok;
          ok, big := Morecore(nunits);
          IntactTrans(old(mem), mid, mem, held);
          if !ok {
            r := 0;
            return;
          }
          grown, p := true, freep;
          RingStep(H(), p);
          FitsStart(H(), p, nunits);
        } else {
          RingStep(H(), freep);
          AheadStep(free, base, p, Ptr(mem, p), freep);
          FitsStep(H(), p, freep, nunits);
        }
        prevp, p := p, Ptr(mem, p);
      }
    }
  }
}
