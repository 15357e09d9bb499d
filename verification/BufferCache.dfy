/** The buffer ring of kernel/bio.c: a doubly linked list through arrays of links.

    Buffers are numbered 0 .. n - 1 and `n` itself is the list head; `next` and `prev` are the
    links.  `ring` is the list as a sequence, most recently released first, and `stamp` the
    time a buffer was last put at its front. */
module BufferCache {
  import opened Sets

  ghost predicate Distinct(s: seq<nat>) {
    forall i, j :: 0 <= i < j < |s| ==> s[i] != s[j]
  }

  /** Once around: the head, every buffer, the head again. */
  ghost function Tour(n: nat, ring: seq<nat>): seq<nat> {
    [n] + ring + [n]
  }

  /** The links visit exactly `ring`, forwards by nx and backwards by pv. */
  ghost predicate Linked(n: nat, ring: seq<nat>, nx: seq<nat>, pv: seq<nat>) {
    && |nx| == |pv| == n + 1
    && Distinct(ring) && (forall i :: 0 <= i < |ring| ==> ring[i] < n)
    && var t := Tour(n, ring);
       && (forall i :: 0 <= i < |t| - 1 ==> nx[t[i]] == t[i + 1])
       && (forall i :: 1 <= i < |t| ==> pv[t[i]] == t[i - 1])
  }

  /** Linking b in just after the head. */
  lemma PushLinked(n: nat, ring: seq<nat>, nx: seq<nat>, pv: seq<nat>, b: nat)
    requires Linked(n, ring, nx, pv) && b < n && b !in ring
    ensures nx[n] <= n
    ensures Linked(n, [b] + ring, nx[b := nx[n]][n := b], pv[b := n][nx[n] := b])
  {
    var t := Tour(n, ring);
    assert nx[t[0]] == t[1];
    var u := Tour(n, [b] + ring);
    assert forall i :: 2 <= i < |u| ==> u[i] == t[i - 1];
    assert forall i :: 2 <= i < |u| - 1 ==> u[i] == ring[i - 2];
  }

  /** Taking out the k-th buffer. */
  lemma UnlinkLinked(n: nat, ring: seq<nat>, nx: seq<nat>, pv: seq<nat>, k: nat)
    requires Linked(n, ring, nx, pv) && k < |ring|
    ensures nx[ring[k]] <= n && pv[ring[k]] <= n
    ensures Linked(n, ring[..k] + ring[k + 1..], nx[pv[ring[k]] := nx[ring[k]]], pv[nx[ring[k]] := pv[ring[k]]])
  {
    var t := Tour(n, ring);
    assert t[k + 1] == ring[k] && nx[t[k + 1]] == t[k + 2] && pv[t[k + 1]] == t[k];
    assert forall i :: 0 <= i < |t| ==> t[i] <= n;
    UnlinkTour(n, ring, k);
  }

  /** The tour without the k-th buffer. */
  lemma UnlinkTour(n: nat, ring: seq<nat>, k: nat)
    requires k < |ring| && Distinct(ring) && forall i :: 0 <= i < |ring| ==> ring[i] < n
    ensures var t, u := Tour(n, ring), Tour(n, ring[..k] + ring[k + 1..]);
            && |u| == |t| - 1
            && (forall i :: 0 <= i <= k ==> u[i] == t[i]) && (forall i :: k < i < |u| ==> u[i] == t[i + 1])
    ensures Distinct(ring[..k] + ring[k + 1..])
    ensures var rest := ring[..k] + ring[k + 1..]; forall i :: 0 <= i < |rest| ==> rest[i] < n && rest[i] != ring[k]
  {
  }

  /** n distinct numbers below n are all of them. */
  lemma {:induction false} AllPresent(n: nat, ring: seq<nat>, b: nat)
    requires Distinct(ring) && |ring| == n && b < n
    requires forall i :: 0 <= i < n ==> ring[i] < n
    ensures b in ring
  {
    if b !in ring {
      ElementsSize(ring);
      RangeSize(0, n);
      assert Elements(ring) <= Range(0, n) - {b};
      SubsetSize(Elements(ring), Range(0, n) - {b});
      assert false;
    }
  }

  /** Where b is in the ring. */
  lemma Place(n: nat, ring: seq<nat>, b: nat) returns (k: nat)
    requires Distinct(ring) && |ring| == n && b < n
    requires forall i :: 0 <= i < n ==> ring[i] < n
    ensures k < n && ring[k] == b
  {
    AllPresent(n, ring, b);
    k :| 0 <= k < n && ring[k] == b;
  }

  /** Later stamps come first. */
  ghost predicate Sorted(n: nat, ring: seq<nat>, stamp: seq<nat>, clock: nat) {
    && |ring| == |stamp| == n
    && (forall i :: 0 <= i < n ==> ring[i] < n)
    && (forall b :: 0 <= b < n ==> stamp[b] < clock)
    && (forall i, j :: 0 <= i < j < n ==> stamp[ring[i]] > stamp[ring[j]])
  }

  lemma FrontOrdered(n: nat, ring: seq<nat>, stamp: seq<nat>, clock: nat, k: nat)
    requires Sorted(n, ring, stamp, clock) && Distinct(ring) && k < n
    ensures var b := ring[k];
            && b !in ring[..k] + ring[k + 1..]
            && Sorted(n, [b] + (ring[..k] + ring[k + 1..]), stamp[b := clock], clock + 1)
  {
    var r := [ring[k]] + (ring[..k] + ring[k + 1..]);
    assert forall i :: 1 <= i < n ==> r[i] == if i <= k then ring[i - 1] else ring[i];
  }

  class Cache {
    const n: nat
    const next: array<nat>
    const prev: array<nat>
    const dev: array<nat>
    const blockno: array<nat>
    const refcnt: array<nat>
    const valid: array<bool>
    ghost var ring: seq<nat>
    ghost var stamp: seq<nat>
    ghost var clock: nat

    ghost predicate Apart()
      reads this
    {
      && next != prev && next != dev && next != blockno && next != refcnt
      && prev != dev && prev != blockno && prev != refcnt
      && dev != blockno && dev != refcnt && blockno != refcnt
      && next.Length == prev.Length == n + 1
      && dev.Length == blockno.Length == refcnt.Length == valid.Length == n
    }

    /** No block of a real device is cached twice. */
    ghost predicate Unique()
      reads this, dev, blockno
      requires Apart()
    {
      forall a, b :: 0 <= a < b < n && dev[a] != 0 && dev[a] == dev[b] ==> blockno[a] != blockno[b]
    }

    /** The ring is ordered by last release, the latest first. */
    ghost predicate Ordered()
      reads this
    {
      Sorted(n, ring, stamp, clock)
    }

    ghost predicate Valid()
      reads this, next, prev, dev, blockno
    {
      Apart() && Linked(n, ring, next[..], prev[..]) && Ordered() && Unique()
    }

    ghost predicate Caches(b: nat, d: nat, bn: nat)
      reads this, dev, blockno
      requires Apart()
    {
      b < n && dev[b] == d && blockno[b] == bn
    }

    /** binit: every buffer linked in at the head in turn. */
    constructor (n: nat)
      ensures Valid() && this.n == n
      ensures fresh(next) && fresh(prev) && fresh(dev) && fresh(blockno) && fresh(refcnt) && fresh(valid)
      ensures forall b :: 0 <= b < n ==> refcnt[b] == 0 && dev[b] == 0 && !valid[b]
    {
      this.n := n;
      next := new nat[n + 1](_ => n);
      prev := new nat[n + 1](_ => n);
      dev := new nat[n](_ => 0);
      blockno := new nat[n](_ => 0);
      refcnt := new nat[n](_ => 0);
      valid := new bool[n](_ => false);
      ring, stamp, clock := [], seq(n, i => i), n;
      new;
      var b := 0;
      while b < n
        invariant 0 <= b <= n && Apart() && Linked(n, ring, next[..], prev[..])
        invariant |ring| == b && forall i :: 0 <= i < b ==> ring[i] == b - 1 - i
        invariant clock == |stamp| == n && forall i :: 0 <= i < n ==> stamp[i] == i
        invariant forall c :: 0 <= c < n ==> refcnt[c] == 0 && dev[c] == 0 && !valid[c]
      {
        Push(b);
        b := b + 1;
      }
    }

    /** b->next = head.next; b->prev = &head; head.next->prev = b; head.next = b. */
    method Push(b: nat)
      requires Apart() && Linked(n, ring, next[..], prev[..]) && b < n && b !in ring
      modifies next, prev, this`ring
      ensures Linked(n, ring, next[..], prev[..]) && ring == [b] + old(ring)
    {
      PushLinked(n, ring, next[..], prev[..], b);
      next[b] := next[n];
      prev[b] := n;
      prev[next[n]] := b;
      next[n] := b;
      ring := [b] + ring;
    }

    /** b->next->prev = b->prev; b->prev->next = b->next. */
    method Unlink(b: nat, ghost k: nat)
      requires Apart() && Linked(n, ring, next[..], prev[..]) && k < |ring| && ring[k] == b
      modifies next, prev, this`ring
      ensures Linked(n, ring, next[..], prev[..]) && ring == old(ring)[..k] + old(ring)[k + 1..]
    {
      UnlinkLinked(n, ring, next[..], prev[..], k);
      prev[next[b]] := prev[b];
      next[prev[b]] := next[b];
      ring := ring[..k] + ring[k + 1..];
    }

    /** bget's first loop: the buffer caching a block, or -1. */
    method FindCached(d: nat, bn: nat) returns (r: int)
      requires Valid()
      ensures r == -1 ==> forall b :: 0 <= b < n ==> !Caches(b, d, bn)
      ensures r != -1 ==> 0 <= r < n && Caches(r, d, bn)
    {
      var b := next[n];
      ghost var i := 1;
      ghost var t := Tour(n, ring);
      assert next[..][t[0]] == t[1];
      while b != n
        invariant 1 <= i <= n + 1 && b == t[i]
        invariant forall j :: 1 <= j < i ==> !Caches(t[j], d, bn)
        decreases n + 1 - i
      {
        if dev[b] == d && blockno[b] == bn {
          return b;
        }
        assert next[..][t[i]] == t[i + 1];
        b := next[b];
        i := i + 1;
      }
      forall c | 0 <= c < n
        ensures !Caches(c, d, bn)
      {
        ghost var j := Place(n, ring, c);
        assert t[j + 1] == c;
      }
      return -1;
    }

    /** bget's second loop, backwards: the unreferenced buffer released longest ago, or -1. */
    method FindIdle() returns (r: int)
      requires Valid()
      ensures r == -1 ==> forall b :: 0 <= b < n ==> refcnt[b] > 0
      ensures r != -1 ==> 0 <= r < n && refcnt[r] == 0
      ensures r != -1 ==> forall b :: 0 <= b < n && refcnt[b] == 0 ==> stamp[r] <= stamp[b]
    {
      var b := prev[n];
      ghost var i := n;
      ghost var t := Tour(n, ring);
      assert prev[..][t[n + 1]] == t[n];
      while b != n
        invariant 0 <= i <= n && b == t[i]
        invariant forall j :: i < j <= n ==> refcnt[t[j]] > 0
        decreases i
      {
        if refcnt[b] == 0 {
          forall c | 0 <= c < n && refcnt[c] == 0
            ensures stamp[b] <= stamp[c]
          {
            ghost var j := Place(n, ring, c);
            assert t[j + 1] == c && t[i] == ring[i - 1];
          }
          return b;
        }
        assert prev[..][t[i]] == t[i - 1];
        b := prev[b];
        i := i - 1;
      }
      forall c | 0 <= c < n
        ensures refcnt[c] > 0
      {
        ghost var j := Place(n, ring, c);
        assert t[j + 1] == c;
      }
      return -1;
    }

    /** bget up to taking the sleep lock.  A cached block is found; otherwise the unreferenced
        buffer released longest ago is recycled; -1, the panic, means every buffer is in use. */
    method Bget(d: nat, bn: nat) returns (r: int)
      requires Valid()
      modifies dev, blockno, refcnt, valid
      ensures Valid()
      ensures r == -1 <==> forall b :: 0 <= b < n ==> old(!Caches(b, d, bn) && refcnt[b] > 0)
      ensures r == -1 ==> dev[..] == old(dev[..]) && blockno[..] == old(blockno[..])
                          && refcnt[..] == old(refcnt[..]) && valid[..] == old(valid[..])
      ensures r != -1 ==>
        && 0 <= r < n
        && dev[..] == old(dev[..])[r := d] && blockno[..] == old(blockno[..])[r := bn]
        && refcnt[..] == old(refcnt[..])[r := old(refcnt[r]) + 1]
        && valid[..] == old(valid[..])[r := old(Caches(r, d, bn) && valid[r])]
      ensures r != -1 && !old(Caches(r, d, bn)) ==>
        && old(refcnt[r]) == 0
        && (forall b :: 0 <= b < n ==> !old(Caches(b, d, bn)))
        && (forall b :: 0 <= b < n && old(refcnt[b]) == 0 ==> stamp[r] <= stamp[b])
    {
      var b := FindCached(d, bn);
      if b != -1 {
        refcnt[b] := refcnt[b] + 1;
        return b;
      }
      b := FindIdle();
      if b == -1 {
        forall c | 0 <= c < n
          ensures old(!Caches(c, d, bn) && refcnt[c] > 0)
        {
          assert !Caches(c, d, bn) && refcnt[c] > 0;
        }
        return -1;
      }
      assert !Caches(b, d, bn);
      forall c | 0 <= c < n
        ensures dev[c] != d || blockno[c] != bn
      {
        assert !Caches(c, d, bn);
      }
      dev[b] := d;
      blockno[b] := bn;
      valid[b] := false;
      refcnt[b] := 1;
      return b;
    }

    /** brelse after releasing the sleep lock: the last reference moves the buffer to the front. */
    method Brelse(b: nat)
      requires Valid() && b < n && refcnt[b] > 0
      modifies next, prev, refcnt, this`ring, this`stamp, this`clock
      ensures Valid()
      ensures refcnt[..] == old(refcnt[..])[b := old(refcnt[b]) - 1]
      ensures refcnt[b] > 0 ==> ring == old(ring) && stamp == old(stamp)
      ensures refcnt[b] == 0 ==> stamp == old(stamp)[b := old(clock)] && ring[0] == b
    {
      refcnt[b] := refcnt[b] - 1;
      if refcnt[b] == 0 {
        ghost var k := Place(n, ring, b);
        FrontOrdered(n, ring, stamp, clock, k);
        Unlink(b, k);
        Push(b);
        stamp, clock := stamp[b := clock], clock + 1;
      }
    }

    /** bpin. */
    method Bpin(b: nat)
      requires Valid() && b < n
      modifies refcnt
      ensures Valid() && refcnt[..] == old(refcnt[..])[b := old(refcnt[b]) + 1]
    {
      refcnt[b] := refcnt[b] + 1;
    }

    /** bunpin: drops the reference without touching the ring. */
    method Bunpin(b: nat)
      requires Valid() && b < n && refcnt[b] > 0
      modifies refcnt
      ensures Valid() && refcnt[..] == old(refcnt[..])[b := old(refcnt[b]) - 1]
    {
      refcnt[b] := refcnt[b] - 1;
    }
  }
}
