/** Constants that several parts of the system share: kernel/param.h, kernel/fs.h, and the width of an int. */
module Params {
  const MAXOPBLOCKS: nat := 10
  const LOGSIZE: nat := 3 * MAXOPBLOCKS
  const NBUF: nat := 3 * MAXOPBLOCKS
  const BSIZE: nat := 1024
  const UINT: nat := 0x1_0000_0000
}

/** Sizes of finite sets. */
module Sets {
  lemma {:induction false} SubsetSize<T>(a: set<T>, b: set<T>)
    requires a <= b
    ensures |a| <= |b| && (a != b ==> |a| < |b|)
  {
    if a == {} {
      if b != {} {
        var y :| y in b;
        assert |b| == |b - {y}| + 1;
      }
    } else {
      var x :| x in a;
      SubsetSize(a - {x}, b - {x});
    }
  }

  lemma DifferenceSize<T>(a: set<T>, b: set<T>)
    ensures |a| <= |b| + |a - b|
  {
    assert a == (a * b) + (a - b);
    SubsetSize(a * b, b);
  }

  ghost function Range(lo: nat, n: nat): (s: set<nat>)
    ensures forall x :: x in s <==> lo <= x < lo + n
  {
    if n == 0 then {} else Range(lo, n - 1) + {lo + n - 1}
  }

  lemma {:induction false} RangeSize(lo: nat, n: nat)
    ensures |Range(lo, n)| == n
  {
    if n > 0 {
      RangeSize(lo, n - 1);
    }
  }

  ghost function Elements(s: seq<nat>): set<nat> { set x | x in s }

  lemma {:induction false} ElementsSize(s: seq<nat>)
    requires forall j, k :: 0 <= j < k < |s| ==> s[j] != s[k]
    ensures |Elements(s)| == |s|
  {
    if s == [] {
      assert Elements(s) == {};
    } else {
      var front, last := s[..|s| - 1], s[|s| - 1];
      ElementsSize(front);
      assert last !in Elements(front);
      assert s == front + [last];
      assert Elements(s) == Elements(front) + {last};
    }
  }
}
