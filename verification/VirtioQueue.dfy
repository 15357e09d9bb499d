/** The descriptor and ring bookkeeping of kernel/virtio_disk.c, with the device as an environment that
    fetches requests in order and completes them in any order (sections 2.6 and 5.2 of VIRTIO 1.1).

    A method is one stretch of code under vdisk_lock, or one action of the device; any interleaving is
    a sequence of these.  Buffers are numbered; `busy` are those whose b->disk is 1. */
module VirtioQueue {
  import opened Params

  const NUM: nat := 8
  const U16: nat := 0x1_0000

  datatype Addr = NoAddr | OpAddr(i: nat) | DataAddr(b: nat) | StatusAddr(i: nat)

  /** hasNext and deviceWrites are the two flag bits. */
  datatype Desc = Desc(addr: Addr, len: nat, hasNext: bool, deviceWrites: bool, next: nat)

  datatype Op = Op(write: bool, sector: nat)

  datatype Phase = Queued | InDevice | Completed | Seen

  /** A request in flight, filed under its first descriptor. */
  datatype Req = Req(i1: nat, i2: nat, b: nat, op: Op, phase: Phase)

  const NODESC: Desc := Desc(NoAddr, 0, false, false, 0)

  // ---------- 16-bit indices ----------

  /** idx += 1 on a uint16. */
  function Inc(i: nat): (r: nat)
    requires i < U16
    ensures r < U16
  {
    if i + 1 == U16 then 0 else i + 1
  }

  /** An index that has been incremented n times. */
  function Wrap(n: nat): (i: nat)
    ensures i < U16
  {
    if n == 0 then 0 else Inc(Wrap(n - 1))
  }

  lemma NextSlot(i: nat, n: nat)
    requires i < U16 && i % NUM == n % NUM
    ensures Inc(i) % NUM == (n + 1) % NUM
  {
    assert (i + 1) % NUM == (n + 1) % NUM;
  }

  /** NUM divides 2^16, so a wrapped index names the same ring slot. */
  lemma {:induction false} SlotOf(n: nat)
    ensures Wrap(n) % NUM == n % NUM
  {
    if n > 0 {
      SlotOf(n - 1);
      NextSlot(Wrap(n - 1), n - 1);
    }
  }

  /** Two indices at most two apart are equal only when nothing lies between them. */
  lemma SameIndex(a: nat, b: nat)
    requires a <= b <= a + 2
    ensures Wrap(a) == Wrap(b) <==> a == b
  {
    if b == a + 2 {
      assert Wrap(b) == Inc(Wrap(a + 1));
    }
  }

  // ---------- free descriptors ----------

  function FreeCount(free: seq<bool>): nat {
    if free == [] then 0 else (if free[|free| - 1] then 1 else 0) + FreeCount(free[..|free| - 1])
  }

  lemma {:induction false} FreeCountSet(free: seq<bool>, i: nat, v: bool)
    requires i < |free| && free[i] != v
    ensures FreeCount(free[i := v]) == if v then FreeCount(free) + 1 else FreeCount(free) - 1
  {
    var last := |free| - 1;
    if i == last {
      assert free[i := v][..last] == free[..last];
    } else {
      assert free[i := v][..last] == free[..last][i := v];
      FreeCountSet(free[..last], i, v);
    }
  }

  lemma {:induction false} FreeCountNone(free: seq<bool>)
    requires forall i :: 0 <= i < |free| ==> !free[i]
    ensures FreeCount(free) == 0
  {
    if free != [] {
      FreeCountNone(free[..|free| - 1]);
    }
  }

  lemma {:induction false} FreeCountAll(free: seq<bool>)
    requires forall i :: 0 <= i < |free| ==> free[i]
    ensures FreeCount(free) == |free|
  {
    if free != [] {
      FreeCountAll(free[..|free| - 1]);
    }
  }

  // ---------- who owns what ----------

  predicate Owns(h: nat, q: Req, i: nat) {
    i == h || i == q.i1 || i == q.i2
  }

  /** owner[i] is the head of the request that descriptor i belongs to, NUM when it is free.  So each
      request has three descriptors that no other request has, and they are all that is in use. */
  ghost predicate Owners(free: seq<bool>, live: map<nat, Req>, owner: seq<nat>) {
    && FreeCount(free) + 3 * |live| == NUM && Marks(free, owner) && Backed(live, owner) && Claims(live, owner)
  }

  ghost predicate Marks(free: seq<bool>, owner: seq<nat>) {
    |free| == |owner| == NUM && forall i :: 0 <= i < NUM ==> (free[i] <==> owner[i] == NUM)
  }

  ghost predicate Backed(live: map<nat, Req>, owner: seq<nat>) {
    forall i :: 0 <= i < |owner| && owner[i] != NUM ==> BackedAt(live, owner, i)
  }

  predicate BackedAt(live: map<nat, Req>, owner: seq<nat>, i: nat)
    requires i < |owner|
  {
    owner[i] in live && Owns(owner[i], live[owner[i]], i)
  }

  ghost predicate Claims(live: map<nat, Req>, owner: seq<nat>) {
    forall h {:trigger Owned(owner, h, live[h])} :: h in live ==> Owned(owner, h, live[h])
  }

  predicate Owned(owner: seq<nat>, h: nat, q: Req) {
    && |owner| == NUM && h < NUM && q.i1 < NUM && q.i2 < NUM && h != q.i1 && h != q.i2 && q.i1 != q.i2
    && owner[h] == h && owner[q.i1] == h && owner[q.i2] == h
  }

  /** The chain the device will walk from h. */
  predicate Chained(desc: seq<Desc>, h: nat, q: Req) {
    && |desc| == NUM && h < NUM && q.i1 < NUM && q.i2 < NUM
    && desc[h] == Desc(OpAddr(h), 16, true, false, q.i1)
    && desc[q.i1] == Desc(DataAddr(q.b), BSIZE, true, !q.op.write, q.i2)
    && desc[q.i2] == Desc(StatusAddr(h), 1, false, true, 0)
  }

  /** The tables agree with the request at h. */
  predicate Filed(desc: seq<Desc>, ops: seq<Op>, infoB: seq<int>, status: seq<int>, h: nat, q: Req) {
    && |ops| == |infoB| == |status| == NUM
    && Chained(desc, h, q) && ops[h] == q.op && infoB[h] == q.b && (q.phase.Completed? ==> status[h] == 0)
  }

  ghost predicate Chains(desc: seq<Desc>, ops: seq<Op>, infoB: seq<int>, status: seq<int>, live: map<nat, Req>) {
    && |desc| == |ops| == |infoB| == |status| == NUM
    && forall h {:trigger Filed(desc, ops, infoB, status, h, live[h])} :: h in live ==>
        Filed(desc, ops, infoB, status, h, live[h])
  }

  /** b->disk is 1 exactly for the buffers of requests not yet seen to be complete. */
  ghost predicate Buffers(busy: set<nat>, live: map<nat, Req>) {
    && busy == (set h | h in live && !live[h].phase.Seen? :: live[h].b)
    && (forall h, g :: SameBuf(live, h, g) ==> h == g)
  }

  predicate SameBuf(live: map<nat, Req>, h: nat, g: nat) {
    h in live && g in live && live[h].b == live[g].b
  }

  /** all[lo..] are the heads in phase ph, once each, and the ring holds them. */
  ghost predicate Ring(ring: seq<nat>, all: seq<nat>, lo: nat, live: map<nat, Req>, ph: Phase) {
    && |ring| == NUM && lo <= |all|
    && (forall k :: lo <= k < |all| ==> all[k] in live && live[all[k]].phase == ph && ring[k % NUM] == all[k])
    && (forall j, k :: lo <= j < k < |all| ==> all[j] != all[k])
    && (forall h :: h in live && live[h].phase == ph ==> h in all[lo..])
  }

  lemma {:induction false} DistinctFit(s: seq<nat>, keys: set<nat>)
    requires forall k :: 0 <= k < |s| ==> s[k] in keys
    requires forall j, k :: 0 <= j < k < |s| ==> s[j] != s[k]
    ensures |s| <= |keys|
  {
    if s != [] {
      var last := s[|s| - 1];
      DistinctFit(s[..|s| - 1], keys - {last});
    }
  }

  /** No ring ever holds more entries than there are requests, which is at most two. */
  lemma RingShort(free: seq<bool>, owner: seq<nat>, ring: seq<nat>, all: seq<nat>, lo: nat, live: map<nat, Req>,
      ph: Phase)
    requires Owners(free, live, owner) && Ring(ring, all, lo, live, ph)
    ensures |all| - lo <= |live| <= 2
  {
    DistinctFit(all[lo..], live.Keys);
  }

  // ---------- a request is added, moves on, is removed ----------

  function Taken(free: seq<bool>, i0: nat, i1: nat, i2: nat, v: bool): (r: seq<bool>)
    requires i0 < |free| && i1 < |free| && i2 < |free|
  {
    free[i0 := v][i1 := v][i2 := v]
  }

  lemma TakenCount(free: seq<bool>, i0: nat, i1: nat, i2: nat, v: bool)
    requires i0 < |free| && i1 < |free| && i2 < |free| && i0 != i1 && i0 != i2 && i1 != i2
    requires free[i0] != v && free[i1] != v && free[i2] != v
    ensures FreeCount(Taken(free, i0, i1, i2, v)) == if v then FreeCount(free) + 3 else FreeCount(free) - 3
  {
    FreeCountSet(free, i0, v);
    FreeCountSet(free[i0 := v], i1, v);
    FreeCountSet(free[i0 := v][i1 := v], i2, v);
  }

  function Marked(owner: seq<nat>, i0: nat, i1: nat, i2: nat, v: nat): (r: seq<nat>)
    requires i0 < |owner| && i1 < |owner| && i2 < |owner|
  {
    owner[i0 := v][i1 := v][i2 := v]
  }

  predicate Three(h: nat, q: Req) {
    h < NUM && q.i1 < NUM && q.i2 < NUM && h != q.i1 && h != q.i2 && q.i1 != q.i2
  }

  lemma MarkedAt(owner: seq<nat>, h: nat, q: Req, v: nat, i: nat)
    requires |owner| == NUM && Three(h, q) && i < NUM
    ensures Marked(owner, h, q.i1, q.i2, v)[i] == if Owns(h, q, i) then v else owner[i]
  {
  }

  lemma AddBacked(live: map<nat, Req>, owner: seq<nat>, h: nat, q: Req)
    requires |owner| == NUM && Backed(live, owner) && Three(h, q) && h !in live
    ensures Backed(live[h := q], Marked(owner, h, q.i1, q.i2, h))
  {
    forall i | 0 <= i < NUM
      ensures Marked(owner, h, q.i1, q.i2, h)[i] == if Owns(h, q, i) then h else owner[i]
    {
      MarkedAt(owner, h, q, h, i);
    }
  }

  lemma AddClaims(live: map<nat, Req>, owner: seq<nat>, h: nat, q: Req)
    requires |owner| == NUM && Claims(live, owner) && Three(h, q)
    requires owner[h] == NUM && owner[q.i1] == NUM && owner[q.i2] == NUM
    ensures h !in live && Claims(live[h := q], Marked(owner, h, q.i1, q.i2, h))
  {
    assert h in live ==> Owned(owner, h, live[h]);
    forall g | g in live
      ensures Owned(Marked(owner, h, q.i1, q.i2, h), g, live[g])
    {
      assert Owned(owner, g, live[g]);
    }
  }

  lemma AddOwners(free: seq<bool>, live: map<nat, Req>, owner: seq<nat>, h: nat, q: Req)
    requires Owners(free, live, owner) && Three(h, q) && free[h] && free[q.i1] && free[q.i2]
    ensures h !in live
    ensures Owners(Taken(free, h, q.i1, q.i2, false), live[h := q], Marked(owner, h, q.i1, q.i2, h))
  {
    TakenCount(free, h, q.i1, q.i2, false);
    AddClaims(live, owner, h, q);
    AddBacked(live, owner, h, q);
    assert live[h := q].Keys == live.Keys + {h};
  }

  lemma DropClaims(live: map<nat, Req>, owner: seq<nat>, h: nat)
    requires |owner| == NUM && Claims(live, owner) && h in live
    ensures Owned(owner, h, live[h]) && Claims(live - {h}, Marked(owner, h, live[h].i1, live[h].i2, NUM))
  {
    var q := live[h];
    assert Owned(owner, h, q);
    forall g | g in live - {h}
      ensures Owned(Marked(owner, h, q.i1, q.i2, NUM), g, live[g])
    {
      assert Owned(owner, g, live[g]);
    }
  }

  lemma DropBacked(live: map<nat, Req>, owner: seq<nat>, h: nat)
    requires |owner| == NUM && Backed(live, owner) && h in live && Three(h, live[h])
    ensures Backed(live - {h}, Marked(owner, h, live[h].i1, live[h].i2, NUM))
  {
    var q := live[h];
    forall i | 0 <= i < NUM
      ensures Marked(owner, h, q.i1, q.i2, NUM)[i] == if Owns(h, q, i) then NUM else owner[i]
    {
      MarkedAt(owner, h, q, NUM, i);
    }
  }

  lemma DropOwners(free: seq<bool>, live: map<nat, Req>, owner: seq<nat>, h: nat)
    requires Owners(free, live, owner) && h in live
    ensures Owned(owner, h, live[h])
    ensures Owners(Taken(free, h, live[h].i1, live[h].i2, true), live - {h},
            Marked(owner, h, live[h].i1, live[h].i2, NUM))
  {
    var q := live[h];
    DropClaims(live, owner, h);
    DropBacked(live, owner, h);
    TakenCount(free, h, q.i1, q.i2, true);
    assert (live - {h}).Keys == live.Keys - {h};
  }

  function Moved(live: map<nat, Req>, h: nat, ph: Phase): map<nat, Req>
    requires h in live
  {
    live[h := live[h].(phase := ph)]
  }

  lemma MovedOwners(free: seq<bool>, live: map<nat, Req>, owner: seq<nat>, h: nat, ph: Phase)
    requires Owners(free, live, owner) && h in live
    ensures Owners(free, Moved(live, h, ph), owner)
  {
    assert Moved(live, h, ph).Keys == live.Keys;
    assert Owned(owner, h, live[h]);
  }

  /** A ring of phase ph does not notice a request whose phase is and stays another. */
  lemma RingElsewhere(ring: seq<nat>, all: seq<nat>, lo: nat, live: map<nat, Req>, ph: Phase, live1: map<nat, Req>)
    requires Ring(ring, all, lo, live, ph)
    requires forall h :: h in live && live[h].phase == ph ==> h in live1 && live1[h].phase == ph
    requires forall h :: h in live1 && live1[h].phase == ph ==> h in live && live[h].phase == ph
    ensures Ring(ring, all, lo, live1, ph)
  {
  }

  lemma RingPush(ring: seq<nat>, all: seq<nat>, lo: nat, live: map<nat, Req>, ph: Phase, h: nat, q: Req)
    requires Ring(ring, all, lo, live, ph) && |all| - lo < NUM
    requires (h in live ==> live[h].phase != ph) && q.phase == ph
    ensures Ring(ring[|all| % NUM := h], all + [h], lo, live[h := q], ph)
  {
    var all1, ring1, live1 := all + [h], ring[|all| % NUM := h], live[h := q];
    forall k | lo <= k < |all1|
      ensures all1[k] in live1 && live1[all1[k]].phase == ph && ring1[k % NUM] == all1[k]
    {
      if k < |all| {
        NotSameSlot(k, |all|);
      }
    }
    assert all1[lo..] == all[lo..] + [h];
  }

  lemma NotSameSlot(a: nat, b: nat)
    requires a < b < a + NUM
    ensures a % NUM != b % NUM
  {
  }

  lemma RingPop(ring: seq<nat>, all: seq<nat>, lo: nat, live: map<nat, Req>, ph: Phase, ph1: Phase)
    requires Ring(ring, all, lo, live, ph) && lo < |all| && ph1 != ph
    ensures Ring(ring, all, lo + 1, Moved(live, all[lo], ph1), ph)
  {
    assert all[lo..] == [all[lo]] + all[lo + 1..];
  }

  lemma AddBuffers(busy: set<nat>, live: map<nat, Req>, h: nat, q: Req)
    requires Buffers(busy, live) && h !in live && !q.phase.Seen? && forall g :: g in live ==> live[g].b != q.b
    ensures Buffers(busy + {q.b}, live[h := q])
  {
    var live1 := live[h := q];
    assert live1[h].b == q.b;
    assert forall g :: g in live ==> live1[g] == live[g];
    assert forall f, g :: SameBuf(live1, f, g) && f != h && g != h ==> SameBuf(live, f, g);
  }

  /** Marking a request as seen takes its own buffer, and no other, out of the busy ones. */
  lemma SeenBuffers(busy: set<nat>, live: map<nat, Req>, h: nat)
    requires Buffers(busy, live) && h in live && !live[h].phase.Seen?
    ensures live[h].b in busy && Buffers(busy - {live[h].b}, Moved(live, h, Seen))
  {
    var live1 := Moved(live, h, Seen);
    assert forall g :: g in live && g != h ==> live1[g] == live[g];
    assert forall f, g :: SameBuf(live1, f, g) ==> SameBuf(live, f, g);
    assert forall g :: g in live && live[g].b == live[h].b ==> SameBuf(live, h, g);
  }

  lemma MovedBuffers(busy: set<nat>, live: map<nat, Req>, h: nat, ph: Phase)
    requires Buffers(busy, live) && h in live && !live[h].phase.Seen? && !ph.Seen?
    ensures Buffers(busy, Moved(live, h, ph))
  {
    var live1 := Moved(live, h, ph);
    assert forall g :: g in live ==> live1[g].b == live[g].b && (live1[g].phase.Seen? <==> live[g].phase.Seen?);
    assert forall f, g :: SameBuf(live1, f, g) ==> SameBuf(live, f, g);
  }

  lemma DropBuffers(busy: set<nat>, live: map<nat, Req>, h: nat)
    requires Buffers(busy, live) && h in live && live[h].phase.Seen?
    ensures Buffers(busy, live - {h})
  {
    assert forall g :: g in live - {h} ==> (live - {h})[g] == live[g];
    assert forall f, g :: SameBuf(live - {h}, f, g) ==> SameBuf(live, f, g);
  }

  /** Writing the descriptors of a new request leaves the chains of the others alone. */
  lemma AddChains(desc: seq<Desc>, ops: seq<Op>, infoB: seq<int>, status: seq<int>, live: map<nat, Req>,
      owner: seq<nat>,
                  h: nat, q: Req, desc1: seq<Desc>)
    requires Chains(desc, ops, infoB, status, live) && Claims(live, owner) && |owner| == NUM && Three(h, q)
    requires h !in live
    requires owner[h] == NUM && owner[q.i1] == NUM && owner[q.i2] == NUM && q.phase.Queued?
    requires |desc1| == NUM && Chained(desc1, h, q)
    requires forall i :: 0 <= i < NUM && owner[i] != NUM ==> desc1[i] == desc[i]
    ensures Chains(desc1, ops[h := q.op], infoB[h := q.b], status[h := 0xff], live[h := q])
  {
    forall g | g in live
      ensures Filed(desc1, ops[h := q.op], infoB[h := q.b], status[h := 0xff], g, live[g]) && g != h
    {
      assert Owned(owner, g, live[g]) && Filed(desc, ops, infoB, status, g, live[g]);
    }
  }

  lemma MovedChains(desc: seq<Desc>, ops: seq<Op>, infoB: seq<int>, status: seq<int>, live: map<nat, Req>, h: nat,
      ph: Phase)
    requires Chains(desc, ops, infoB, status, live) && h in live && h < NUM
    ensures Chains(desc, ops, infoB, if ph.Completed? then status[h := 0] else status, Moved(live, h, ph))
  {
    var status1 := if ph.Completed? then status[h := 0] else status;
    forall g | g in live
      ensures Filed(desc, ops, infoB, status1, g, Moved(live, h, ph)[g])
    {
      assert Filed(desc, ops, infoB, status, g, live[g]);
    }
  }

  lemma DropChains(desc: seq<Desc>, ops: seq<Op>, infoB: seq<int>, status: seq<int>, live: map<nat, Req>,
      owner: seq<nat>,
                   h: nat, desc1: seq<Desc>)
    requires Chains(desc, ops, infoB, status, live) && Claims(live, owner) && |owner| == NUM && h in live && h < NUM
    requires |desc1| == NUM && forall i :: 0 <= i < NUM && !Owns(h, live[h], i) ==> desc1[i] == desc[i]
    ensures Chains(desc1, ops, infoB[h := -1], status, live - {h})
  {
    assert Owned(owner, h, live[h]);
    forall g | g in live - {h}
      ensures Filed(desc1, ops, infoB[h := -1], status, g, live[g])
    {
      assert Owned(owner, g, live[g]) && Filed(desc, ops, infoB, status, g, live[g]);
    }
  }

  // ---------- the whole queue as a value ----------

  datatype View = View(free: seq<bool>, desc: seq<Desc>, ops: seq<Op>, infoB: seq<int>, status: seq<int>,
                       availRing: seq<nat>, usedRing: seq<nat>, busy: set<nat>, live: map<nat, Req>, owner: seq<nat>,
                       submitted: seq<nat>, fetched: nat, completed: seq<nat>, seen: nat)

  datatype Part = Ownership | Tables | Buffering | Available | Finishing

  ghost predicate Holds(u: Part, v: View) {
    match u
    case Ownership => Owners(v.free, v.live, v.owner)
    case Tables => Chains(v.desc, v.ops, v.infoB, v.status, v.live)
    case Buffering => Buffers(v.busy, v.live)
    case Available => Ring(v.availRing, v.submitted, v.fetched, v.live, Queued)
    case Finishing => Ring(v.usedRing, v.completed, v.seen, v.live, Completed)
  }

  predicate Sized(v: View) {
    && |v.free| == |v.desc| == |v.ops| == |v.infoB| == |v.status| == |v.availRing| == |v.usedRing| == |v.owner| == NUM
    && v.fetched <= |v.submitted| && v.seen <= |v.completed|
  }

  ghost predicate Consistent(v: View) {
    Sized(v) && forall u :: Holds(u, v)
  }

  lemma Opened(v: View)
    requires Consistent(v)
    ensures Owners(v.free, v.live, v.owner) && Chains(v.desc, v.ops, v.infoB, v.status, v.live)
    ensures Buffers(v.busy, v.live)
    ensures Ring(v.availRing, v.submitted, v.fetched, v.live, Queued)
    ensures Ring(v.usedRing, v.completed, v.seen, v.live, Completed)
  {
    assert Holds(Ownership, v) && Holds(Tables, v) && Holds(Buffering, v) && Holds(Available, v) && Holds(Finishing, v);
  }

  lemma Started(v: View, h: nat, q: Req, w: View)
    requires Consistent(v) && Three(h, q) && v.free[h] && v.free[q.i1] && v.free[q.i2] && q.phase.Queued?
    requires forall g :: g in v.live ==> v.live[g].b != q.b
    requires |w.desc| == NUM && Chained(w.desc, h, q)
    requires forall i :: 0 <= i < NUM && !v.free[i] ==> w.desc[i] == v.desc[i]
    requires w == v.(free := Taken(v.free, h, q.i1, q.i2, false), desc := w.desc, ops := v.ops[h := q.op],
                     infoB := v.infoB[h := q.b], status := v.status[h := 0xff],
                     availRing := v.availRing[|v.submitted| % NUM := h], busy := v.busy + {q.b}, live := v.live[h := q],
                     owner := Marked(v.owner, h, q.i1, q.i2, h), submitted := v.submitted + [h])
    ensures h !in v.live && Consistent(w)
  {
    assert h !in v.live by {
      assert Holds(Ownership, v);
      AddOwners(v.free, v.live, v.owner, h, q);
    }
    forall u
      ensures Holds(u, w)
    {
      match u
      case Ownership =>
        assert Holds(Ownership, v);
        AddOwners(v.free, v.live, v.owner, h, q);
      case Tables =>
        assert Holds(Tables, v);
        assert Holds(Ownership, v);
        AddChains(v.desc, v.ops, v.infoB, v.status, v.live, v.owner, h, q, w.desc);
      case Buffering =>
        assert Holds(Buffering, v);
        AddBuffers(v.busy, v.live, h, q);
      case Available =>
        assert Holds(Available, v);
        assert Holds(Ownership, v);
        RingShort(v.free, v.owner, v.availRing, v.submitted, v.fetched, v.live, Queued);
        RingPush(v.availRing, v.submitted, v.fetched, v.live, Queued, h, q);
      case Finishing =>
        assert Holds(Finishing, v);
        RingElsewhere(v.usedRing, v.completed, v.seen, v.live, Completed, w.live);
    }
  }

  lemma Unstarted(v: View, w: View)
    requires Consistent(v) && w == v.(desc := w.desc) && |w.desc| == NUM
    requires forall i :: 0 <= i < NUM && !v.free[i] ==> w.desc[i] == v.desc[i]
    ensures Consistent(w)
  {
    Opened(v);
    forall g | g in v.live
      ensures Filed(w.desc, v.ops, v.infoB, v.status, g, v.live[g])
    {
      assert Owned(v.owner, g, v.live[g]) && Filed(v.desc, v.ops, v.infoB, v.status, g, v.live[g]);
    }
  }

  /** The next request to fetch, as the device finds it. */
  lemma NextAvailable(v: View)
    requires Consistent(v) && v.fetched < |v.submitted|
    ensures var h := v.submitted[v.fetched];
            && h in v.live && v.live[h].phase.Queued? && h == v.availRing[v.fetched % NUM]
            && Chained(v.desc, h, v.live[h]) && v.ops[h] == v.live[h].op
  {
    Opened(v);
    var h := v.submitted[v.fetched];
    assert Filed(v.desc, v.ops, v.infoB, v.status, h, v.live[h]);
  }

  lemma Fetched(v: View, h: nat, w: View)
    requires Consistent(v) && v.fetched < |v.submitted| && h == v.submitted[v.fetched] && h < NUM && h in v.live
    requires v.live[h].phase.Queued?
    requires w == v.(live := Moved(v.live, h, InDevice), fetched := v.fetched + 1)
    ensures Consistent(w)
  {
    forall u
      ensures Holds(u, w)
    {
      match u
      case Ownership =>
        assert Holds(Ownership, v);
        MovedOwners(v.free, v.live, v.owner, h, InDevice);
      case Tables =>
        assert Holds(Tables, v);
        MovedChains(v.desc, v.ops, v.infoB, v.status, v.live, h, InDevice);
      case Buffering =>
        assert Holds(Buffering, v);
        MovedBuffers(v.busy, v.live, h, InDevice);
      case Available =>
        assert Holds(Available, v);
        RingPop(v.availRing, v.submitted, v.fetched, v.live, Queued, InDevice);
      case Finishing =>
        assert Holds(Finishing, v);
        RingElsewhere(v.usedRing, v.completed, v.seen, v.live, Completed, w.live);
    }
  }

  lemma Finished(v: View, h: nat, w: View)
    requires Consistent(v) && h < NUM && h in v.live && v.live[h].phase.InDevice?
    requires w == v.(status := v.status[h := 0], usedRing := v.usedRing[|v.completed| % NUM := h],
                     live := Moved(v.live, h, Completed), completed := v.completed + [h])
    ensures Consistent(w)
  {
    forall u
      ensures Holds(u, w)
    {
      match u
      case Ownership =>
        assert Holds(Ownership, v);
        MovedOwners(v.free, v.live, v.owner, h, Completed);
      case Tables =>
        assert Holds(Tables, v);
        MovedChains(v.desc, v.ops, v.infoB, v.status, v.live, h, Completed);
      case Buffering =>
        assert Holds(Buffering, v);
        MovedBuffers(v.busy, v.live, h, Completed);
      case Available =>
        assert Holds(Available, v);
        RingElsewhere(v.availRing, v.submitted, v.fetched, v.live, Queued, w.live);
      case Finishing =>
        assert Holds(Finishing, v);
        assert Holds(Ownership, v);
        RingShort(v.free, v.owner, v.usedRing, v.completed, v.seen, v.live, Completed);
        RingPush(v.usedRing, v.completed, v.seen, v.live, Completed, h, v.live[h].(phase := Completed));
    }
  }

  lemma LiveInRange(v: View, h: nat)
    requires Consistent(v) && h in v.live
    ensures Three(h, v.live[h]) && !v.free[h] && !v.free[v.live[h].i1] && !v.free[v.live[h].i2]
    ensures Chained(v.desc, h, v.live[h])
    ensures v.live[h].b !in v.busy ==> v.live[h].phase.Seen?
  {
    Opened(v);
    assert Owned(v.owner, h, v.live[h]) && Filed(v.desc, v.ops, v.infoB, v.status, h, v.live[h]);
  }

  lemma FewCompleted(v: View)
    requires Consistent(v)
    ensures v.seen <= |v.completed| <= v.seen + 2
  {
    Opened(v);
    RingShort(v.free, v.owner, v.usedRing, v.completed, v.seen, v.live, Completed);
  }

  /** Every completed request has been seen. */
  function AllSeen(live: map<nat, Req>): map<nat, Req> {
    map h | h in live :: if live[h].phase.Completed? then live[h].(phase := Seen) else live[h]
  }

  /** The buffers of completed requests. */
  function DoneBufs(live: map<nat, Req>): set<nat> {
    set h | h in live && live[h].phase.Completed? :: live[h].b
  }

  lemma SeesOne(live: map<nat, Req>, h: nat)
    requires h in live && live[h].phase.Completed?
    ensures AllSeen(Moved(live, h, Seen)) == AllSeen(live)
    ensures DoneBufs(Moved(live, h, Seen)) + {live[h].b} == DoneBufs(live)
  {
    var after := Moved(live, h, Seen);
    forall b | b in DoneBufs(live)
      ensures b in DoneBufs(after) + {live[h].b}
    {
      var g :| g in live && live[g].phase.Completed? && live[g].b == b;
      assert g == h || after[g] == live[g];
    }
    forall b | b in DoneBufs(after)
      ensures b in DoneBufs(live)
    {
      var g :| g in after && after[g].phase.Completed? && after[g].b == b;
      assert live[g] == after[g];
    }
  }

  /** When the used ring is empty no request is left in phase Completed. */
  lemma NoneCompleted(v: View)
    requires Consistent(v) && v.seen == |v.completed|
    ensures AllSeen(v.live) == v.live && DoneBufs(v.live) == {}
  {
    assert Holds(Finishing, v);
  }

  /** The indices differ, so there is an entry, and the driver's index names its slot. */
  lemma UsedEntry(v: View, usedIdx: nat, devUsedIdx: nat)
    requires Consistent(v) && usedIdx == Wrap(v.seen) && devUsedIdx == Wrap(|v.completed|) && usedIdx != devUsedIdx
    ensures v.seen < |v.completed| && usedIdx % NUM == v.seen % NUM
  {
    FewCompleted(v);
    SameIndex(v.seen, |v.completed|);
    SlotOf(v.seen);
  }

  /** The next completion, as the interrupt handler finds it. */
  lemma NextUsed(v: View)
    requires Consistent(v) && v.seen < |v.completed|
    ensures var h := v.completed[v.seen];
            && h in v.live && v.live[h].phase.Completed? && h < NUM && h == v.usedRing[v.seen % NUM]
            && v.infoB[h] == v.live[h].b && v.status[h] == 0
  {
    Opened(v);
    var h := v.completed[v.seen];
    assert Filed(v.desc, v.ops, v.infoB, v.status, h, v.live[h]);
  }

  lemma Noticed(v: View, h: nat, w: View)
    requires Consistent(v) && v.seen < |v.completed| && h == v.completed[v.seen] && h < NUM && h in v.live
    requires v.live[h].phase.Completed?
    requires w == v.(busy := v.busy - {v.live[h].b}, live := Moved(v.live, h, Seen), seen := v.seen + 1)
    ensures v.live[h].b in v.busy && Consistent(w)
  {
    assert v.live[h].b in v.busy by {
      assert Holds(Buffering, v);
    }
    forall u
      ensures Holds(u, w)
    {
      match u
      case Ownership =>
        assert Holds(Ownership, v);
        MovedOwners(v.free, v.live, v.owner, h, Seen);
      case Tables =>
        assert Holds(Tables, v);
        MovedChains(v.desc, v.ops, v.infoB, v.status, v.live, h, Seen);
      case Buffering =>
        assert Holds(Buffering, v);
        SeenBuffers(v.busy, v.live, h);
      case Available =>
        assert Holds(Available, v);
        RingElsewhere(v.availRing, v.submitted, v.fetched, v.live, Queued, w.live);
      case Finishing =>
        assert Holds(Finishing, v);
        RingPop(v.usedRing, v.completed, v.seen, v.live, Completed, Seen);
    }
  }

  lemma Dropped(v: View, h: nat, w: View)
    requires Consistent(v) && h in v.live && v.live[h].phase.Seen? && Three(h, v.live[h])
    requires |w.desc| == NUM && forall i :: 0 <= i < NUM && !Owns(h, v.live[h], i) ==> w.desc[i] == v.desc[i]
    requires w == v.(free := Taken(v.free, h, v.live[h].i1, v.live[h].i2, true), desc := w.desc,
             infoB := v.infoB[h := -1],
                     live := v.live - {h}, owner := Marked(v.owner, h, v.live[h].i1, v.live[h].i2, NUM))
    ensures Consistent(w)
  {
    forall u
      ensures Holds(u, w)
    {
      match u
      case Ownership =>
        assert Holds(Ownership, v);
        DropOwners(v.free, v.live, v.owner, h);
      case Tables =>
        assert Holds(Tables, v);
        assert Holds(Ownership, v);
        DropChains(v.desc, v.ops, v.infoB, v.status, v.live, v.owner, h, w.desc);
      case Buffering =>
        assert Holds(Buffering, v);
        DropBuffers(v.busy, v.live, h);
      case Available =>
        assert Holds(Available, v);
        RingElsewhere(v.availRing, v.submitted, v.fetched, v.live, Queued, w.live);
      case Finishing =>
        assert Holds(Finishing, v);
        RingElsewhere(v.usedRing, v.completed, v.seen, v.live, Completed, w.live);
    }
  }

  /** In every consistent queue: descriptors are conserved, two requests share none, and neither ring
      holds more than two entries that its reader has not taken, so no such entry is overwritten. */
  lemma QueueLaws(v: View, h: nat, g: nat, i: nat)
    requires Consistent(v)
    ensures FreeCount(v.free) + 3 * |v.live| == NUM
    ensures h in v.live && g in v.live && Owns(h, v.live[h], i) && Owns(g, v.live[g], i) ==> h == g
    ensures |v.submitted| - v.fetched <= 2 && |v.completed| - v.seen <= 2
  {
    Opened(v);
    assert h in v.live ==> Owned(v.owner, h, v.live[h]);
    assert g in v.live ==> Owned(v.owner, g, v.live[g]);
    RingShort(v.free, v.owner, v.availRing, v.submitted, v.fetched, v.live, Queued);
    RingShort(v.free, v.owner, v.usedRing, v.completed, v.seen, v.live, Completed);
  }

  // ---------- the driver and the device ----------

  datatype Half = Requests | Counters | Sleeping

  /** Since v the three descriptors of a request at h have been taken, and filled in when `filled`. */
  ghost predicate Prepared(v: View, w: View, h: nat, q: Req, filled: bool) {
    forall u :: PreparedBy(u, v, w, h, q, filled)
  }

  ghost predicate PreparedBy(u: Half, v: View, w: View, h: nat, q: Req, filled: bool) {
    match u
    case Requests =>
      && Consistent(v) && (forall g :: g in v.live ==> v.live[g].b != q.b) && q.phase.Queued?
      && Three(h, q) && v.free[h] && v.free[q.i1] && v.free[q.i2]
    case Counters =>
      && Three(h, q) && |v.free| == |v.ops| == |v.infoB| == |v.status| == NUM
      && w == v.(free := Taken(v.free, h, q.i1, q.i2, false), desc := w.desc,
                 ops := if filled then v.ops[h := q.op] else v.ops,
                 infoB := if filled then v.infoB[h := q.b] else v.infoB,
                 status := if filled then v.status[h := 0xff] else v.status)
    case Sleeping =>
      && |w.desc| == |v.free| == |v.desc| == NUM && (filled ==> Chained(w.desc, h, q))
      && forall i :: 0 <= i < NUM && !v.free[i] ==> w.desc[i] == v.desc[i]
  }

  lemma PreparedSizes(v: View, w: View, h: nat, q: Req)
    requires Prepared(v, w, h, q, true)
    ensures |w.availRing| == NUM && |w.owner| == NUM && Three(h, q)
  {
    assert PreparedBy(Requests, v, w, h, q, true) && PreparedBy(Counters, v, w, h, q, true);
  }

  lemma PreparedStarts(v: View, w: View, h: nat, q: Req, r: View)
    requires Prepared(v, w, h, q, true) && |w.availRing| == NUM && |w.owner| == NUM && Three(h, q)
    requires r == w.(availRing := w.availRing[|w.submitted| % NUM := h], busy := w.busy + {q.b}, live := w.live[h := q],
                     owner := Marked(w.owner, h, q.i1, q.i2, h), submitted := w.submitted + [h])
    ensures h !in v.live && Consistent(r) && w.live == v.live && w.submitted == v.submitted && w.busy == v.busy
  {
    assert PreparedBy(Requests, v, w, h, q, true) && PreparedBy(Counters, v, w, h, q, true);
    assert PreparedBy(Sleeping, v, w, h, q, true);
    Started(v, h, q, r);
  }

  class Disk {
    var free: seq<bool>
    var desc: seq<Desc>
    var ops: seq<Op>
    var infoB: seq<int>
    var status: seq<int>
    var availRing: seq<nat>
    var availIdx: nat
    var usedRing: seq<nat>
    var usedIdx: nat
    var devUsedIdx: nat
    var devAvailIdx: nat
    var busy: set<nat>
    /** Threads asleep on &disk.free[0], and buffers that a thread is asleep on. */
    var descSleepers: set<nat>
    var bufSleepers: set<nat>

    ghost var live: map<nat, Req>
    ghost var owner: seq<nat>
    /** Heads ever made available, how many of them the device has fetched, heads ever completed, and how
        many of those the interrupt handler has seen. */
    ghost var submitted: seq<nat>
    ghost var fetched: nat
    ghost var completed: seq<nat>
    ghost var seen: nat

    ghost function V(): View
      reads this
    {
      View(free, desc, ops, infoB, status, availRing, usedRing, busy, live, owner, submitted, fetched, completed, seen)
    }

    ghost predicate Valid()
      reads this
    {
      forall u :: Keeps(u)
    }

    ghost predicate Keeps(u: Half)
      reads this
    {
      match u
      case Requests => Consistent(V())
      case Counters => Indices()
      case Sleeping => SleepersWait()
    }

    /** The 16-bit indices count modulo 2^16. */
    ghost predicate Indices()
      reads this
    {
      && availIdx == Wrap(|submitted|) && devAvailIdx == Wrap(fetched)
      && devUsedIdx == Wrap(|completed|) && usedIdx == Wrap(seen)
    }

    lemma Open()
      requires Valid()
      ensures Consistent(V()) && Indices() && SleepersWait()
    {
      assert Keeps(Requests) && Keeps(Counters) && Keeps(Sleeping);
    }

    /** No wakeup is lost: a thread asleep for descriptors could not get three, and one asleep on a buffer has a
        request that is not done. */
    ghost predicate SleepersWait()
      reads this
    {
      (descSleepers != {} ==> FreeCount(free) < 3) && bufSleepers <= busy
    }

    constructor ()
      ensures Valid() && live == map[] && busy == {} && FreeCount(free) == NUM && descSleepers == bufSleepers == {}
    {
      free := seq(NUM, _ => true);
      desc := seq(NUM, _ => NODESC);
      ops := seq(NUM, _ => Op(false, 0));
      infoB, status := seq(NUM, _ => -1), seq(NUM, _ => 0);
      availRing, usedRing := seq(NUM, _ => 0), seq(NUM, _ => 0);
      availIdx, usedIdx, devUsedIdx, devAvailIdx, busy := 0, 0, 0, 0, {};
      descSleepers, bufSleepers := {}, {};
      live, owner, submitted, fetched, completed, seen := map[], seq(NUM, _ => NUM), [], 0, [], 0;
      new;
      FreeCountAll(free);
    }

    /** alloc_desc: the lowest free descriptor. */
    method AllocDesc() returns (r: int)
      requires |free| == NUM
      modifies this`free
      ensures r == -1 ==> free == old(free) && forall i :: 0 <= i < NUM ==> !free[i]
      ensures r != -1 ==> 0 <= r < NUM && old(free)[r] && free == old(free)[r := false]
      ensures r != -1 ==> forall i :: 0 <= i < r ==> !old(free)[i]
    {
      var i := 0;
      while i < NUM
        invariant 0 <= i <= NUM && free == old(free) && forall k :: 0 <= k < i ==> !free[k]
      {
        if free[i] {
          free := free[i := false];
          return i;
        }
        i := i + 1;
      }
      return -1;
    }

    /** free_desc; its panics are the precondition.  It wakes whoever waits for descriptors. */
    method FreeDesc(i: nat)
      requires |free| == |desc| == NUM && i < NUM && !free[i]
      modifies this`free, this`desc, this`descSleepers
      ensures free == old(free)[i := true] && desc == old(desc)[i := NODESC] && descSleepers == {}
    {
      desc := desc[i := NODESC];
      free := free[i := true];
      descSleepers := {};
    }

    /** free_chain: exactly the three descriptors of the request at h, found through the next links. */
    method FreeChain(h: nat, ghost q: Req)
      requires |free| == |desc| == NUM && Three(h, q) && Chained(desc, h, q)
      requires !free[h] && !free[q.i1] && !free[q.i2]
      modifies this`free, this`desc, this`descSleepers
      ensures free == Taken(old(free), h, q.i1, q.i2, true) && descSleepers == {}
      ensures |desc| == NUM && forall i :: 0 <= i < NUM && !Owns(h, q, i) ==> desc[i] == old(desc)[i]
    {
      var i, more := h, true;
      ghost var n := 0;
      while more
        invariant 0 <= n <= 3 && |free| == |desc| == NUM && (more <==> n < 3) && (n > 0 ==> descSleepers == {})
        invariant n < 3 ==> i == [h, q.i1, q.i2][n]
        invariant free == [old(free), old(free)[h := true], old(free)[h := true][q.i1 := true],
                  Taken(old(free), h, q.i1, q.i2, true)][n]
        invariant forall k :: 0 <= k < NUM && !Owns(h, q, k) ==> desc[k] == old(desc)[k]
        invariant forall k :: n <= k < 3 ==> desc[[h, q.i1, q.i2][k]] == old(desc)[[h, q.i1, q.i2][k]]
        decreases 3 - n
      {
        var flag, nxt := desc[i].hasNext, desc[i].next;
        FreeDesc(i);
        n := n + 1;
        more := flag;
        if flag {
          i := nxt;
        }
      }
    }

    /** alloc3_desc: three descriptors, or none and no change when fewer are free. */
    method Alloc3Desc() returns (ok: bool, idx: seq<nat>)
      requires |free| == |desc| == NUM
      modifies this`free, this`desc, this`descSleepers
      ensures ok <==> FreeCount(old(free)) >= 3
      ensures descSleepers <= old(descSleepers)
      ensures |desc| == NUM && forall i :: 0 <= i < NUM && !old(free)[i] ==> desc[i] == old(desc)[i]
      ensures !ok ==> free == old(free)
      ensures ok ==> |idx| == 3 && idx[0] < NUM && idx[1] < NUM && idx[2] < NUM
      ensures ok ==> idx[0] != idx[1] && idx[0] != idx[2] && idx[1] != idx[2]
      ensures ok ==> old(free)[idx[0]] && old(free)[idx[1]] && old(free)[idx[2]]
      ensures ok ==> free == Taken(old(free), idx[0], idx[1], idx[2], false)
    {
      idx := [];
      while |idx| < 3
        invariant |idx| <= 3 && |free| == NUM && desc == old(desc) && descSleepers == old(descSleepers)
        invariant FreeCount(free) + |idx| == FreeCount(old(free))
        invariant forall k :: 0 <= k < |idx| ==> idx[k] < NUM && old(free)[idx[k]]
        invariant forall i :: 0 <= i < NUM ==> (free[i] <==> old(free)[i] && i !in idx)
        invariant forall j, k :: 0 <= j < k < |idx| ==> idx[j] != idx[k]
      {
        ghost var free1 := free;
        var d := AllocDesc();
        if d == -1 {
          FreeCountNone(free);
          ReleaseAll(idx, old(free), old(desc));
          return false, [];
        }
        FreeCountSet(free1, d, false);
        idx := idx + [d];
      }
      ok := true;
    }

    method ReleaseAll(idx: seq<nat>, ghost free0: seq<bool>, ghost desc0: seq<Desc>)
      requires |free| == |desc| == |free0| == NUM && desc == desc0
      requires forall k :: 0 <= k < |idx| ==> idx[k] < NUM && free0[idx[k]]
      requires forall i :: 0 <= i < NUM ==> (free[i] <==> free0[i] && i !in idx)
      requires forall j, k :: 0 <= j < k < |idx| ==> idx[j] != idx[k]
      modifies this`free, this`desc, this`descSleepers
      ensures free == free0 && descSleepers <= old(descSleepers)
      ensures |desc| == NUM && forall i :: 0 <= i < NUM && !free0[i] ==> desc[i] == desc0[i]
    {
      var j := 0;
      while j < |idx|
        invariant 0 <= j <= |idx| && |free| == |desc| == NUM && descSleepers <= old(descSleepers)
        invariant forall i :: 0 <= i < NUM ==> (free[i] <==> free0[i] && i !in idx[j..])
        invariant forall i :: 0 <= i < NUM && !free0[i] ==> desc[i] == desc0[i]
      {
        assert idx[j..] == [idx[j]] + idx[j + 1..];
        FreeDesc(idx[j]);
        j := j + 1;
      }
    }

    /** virtio_disk_rw by thread t up to its wait, for a buffer that the caller has locked.  False means that
        there are too few descriptors and the caller is asleep; woken, it starts again. */
    method Start(t: nat, b: nat, write: bool, blockno: nat) returns (ok: bool, h: nat)
      requires Valid() && forall g :: g in live ==> live[g].b != b
      modifies this
      ensures Valid() && (ok <==> old(FreeCount(free)) >= 3)
      ensures !ok ==> live == old(live) && busy == old(busy) && submitted == old(submitted) && t in descSleepers
      ensures ok ==> h !in old(live) && h in live && live == old(live)[h := live[h]] && busy == old(busy) + {b}
      ensures ok ==> live[h].b == b && live[h].op == Op(write, blockno * (BSIZE / 512)) && live[h].phase == Queued
      ensures ok ==> submitted == old(submitted) + [h]
      ensures fetched == old(fetched) && completed == old(completed) && seen == old(seen)
    {
      Open();
      ghost var v := V();
      var op, i1, i2 := Op(write, blockno * (BSIZE / 512)), 0, 0;
      ok, h, i1, i2 := Reserve(t, b, op);
      if ok {
        Submit(h, i1, i2, b, op, v);
      }
    }

    /** alloc3_desc, or sleep. */
    method Reserve(t: nat, ghost b: nat, ghost op: Op) returns (ok: bool, h: nat, i1: nat, i2: nat)
      requires Valid() && forall g :: g in live ==> live[g].b != b
      modifies this`free, this`desc, this`descSleepers
      ensures ok <==> FreeCount(old(free)) >= 3
      ensures !ok ==> Valid() && t in descSleepers
      ensures ok ==> Indices() && descSleepers == {} && bufSleepers <= busy
      ensures ok ==> Prepared(old(V()), V(), h, Req(i1, i2, b, op, Queued), false)
    {
      Open();
      ghost var v := V();
      var idx;
      ok, idx := Alloc3Desc();
      h, i1, i2 := 0, 0, 0;
      if ok {
        h, i1, i2 := idx[0], idx[1], idx[2];
      } else {
        Unstarted(v, V());
        descSleepers := descSleepers + {t};
      }
    }

    /** The descriptors, the tables and the available ring are filled in. */
    method Submit(h: nat, i1: nat, i2: nat, b: nat, op: Op, ghost v: View)
      requires Prepared(v, V(), h, Req(i1, i2, b, op, Queued), false) && Indices() && descSleepers == {}
      requires bufSleepers <= busy
      modifies this`desc, this`ops, this`infoB, this`status, this`availRing, this`availIdx, this`busy, this`live,
            this`owner, this`submitted
      ensures Valid() && submitted == v.submitted + [h] && busy == v.busy + {b}
      ensures h !in v.live && live == v.live[h := Req(i1, i2, b, op, Queued)]
    {
      ghost var q := Req(i1, i2, b, op, Queued);
      assert PreparedBy(Requests, v, V(), h, q, false) && PreparedBy(Counters, v, V(), h, q, false);
      assert PreparedBy(Sleeping, v, V(), h, q, false);
      Format(h, i1, i2, b, op);
      Publish(h, Req(i1, i2, b, op, Queued), v);
    }

    method Publish(h: nat, q: Req, ghost v: View)
      requires Prepared(v, V(), h, q, true) && Indices() && descSleepers == {} && bufSleepers <= busy
      modifies this`availRing, this`availIdx, this`busy, this`live, this`owner, this`submitted
      ensures Valid() && submitted == v.submitted + [h] && busy == v.busy + {q.b}
      ensures h !in v.live && live == v.live[h := q]
    {
      ghost var w := V();
      PreparedSizes(v, w, h, q);
      Announce(h, q.b);
      Enlist(h, q, v, w);
    }

    /** b->disk = 1, and the two writes to the available ring. */
    method Announce(h: nat, b: nat)
      requires |availRing| == NUM && availIdx == Wrap(|submitted|)
      modifies this`busy, this`availRing, this`availIdx
      ensures busy == old(busy) + {b} && availRing == old(availRing)[|submitted| % NUM := h]
      ensures availIdx == Wrap(|submitted| + 1)
    {
      SlotOf(|submitted|);
      busy := busy + {b};
      availRing := availRing[availIdx % NUM := h];
      availIdx := Inc(availIdx);
    }

    ghost method Enlist(h: nat, q: Req, v: View, w: View)
      requires Prepared(v, w, h, q, true) && |w.availRing| == NUM && |w.owner| == NUM && Three(h, q)
      requires V() == w.(availRing := w.availRing[|w.submitted| % NUM := h], busy := w.busy + {q.b})
      modifies this`live, this`owner, this`submitted
      ensures Consistent(V()) && submitted == old(submitted) + [h] == v.submitted + [h] && busy == v.busy + {q.b}
      ensures h !in v.live && live == v.live[h := q]
    {
      live, owner, submitted := live[h := q], Marked(owner, h, q.i1, q.i2, h), submitted + [h];
      PreparedStarts(v, w, h, q, V());
    }

    method Format(h: nat, i1: nat, i2: nat, b: nat, op: Op)
      requires |desc| == |ops| == |infoB| == |status| == NUM && h < NUM && i1 < NUM && i2 < NUM && h != i1 && h != i2
      requires i1 != i2
      modifies this`desc, this`ops, this`infoB, this`status
      ensures ops == old(ops)[h := op] && infoB == old(infoB)[h := b] && status == old(status)[h := 0xff]
      ensures |desc| == NUM && Chained(desc, h, Req(i1, i2, b, op, Queued))
      ensures forall i :: 0 <= i < NUM && i != h && i != i1 && i != i2 ==> desc[i] == old(desc)[i]
    {
      ops := ops[h := op];
      desc := desc[h := Desc(OpAddr(h), 16, true, false, i1)];
      desc := desc[i1 := Desc(DataAddr(b), BSIZE, true, !op.write, i2)];
      status := status[h := 0xff];
      desc := desc[i2 := Desc(StatusAddr(h), 1, false, true, 0)];
      infoB := infoB[h := b];
    }

    /** The device takes the next available request; the chain it walks is the one submitted. */
    method Fetch() returns (h: nat, op: Op, data: Addr, deviceWrites: bool)
      requires Valid() && fetched < |submitted|
      modifies this`devAvailIdx, this`live, this`fetched
      ensures Valid() && fetched == old(fetched) + 1 && h == submitted[old(fetched)] && h in old(live)
      ensures live == Moved(old(live), h, InDevice)
      ensures op == old(live)[h].op && data == DataAddr(old(live)[h].b) && deviceWrites == !op.write
    {
      Open();
      ghost var v := V();
      NextAvailable(v);
      SlotOf(fetched);
      h := availRing[devAvailIdx % NUM];
      op := ops[h];
      var d := desc[h].next;
      data, deviceWrites := desc[d].addr, desc[d].deviceWrites;
      devAvailIdx := Inc(devAvailIdx);
      live, fetched := Moved(live, h, InDevice), fetched + 1;
      Fetched(v, h, V());
    }

    /** The device finishes any request it has fetched. */
    method Complete(h: nat)
      requires Valid() && h in live && live[h].phase == InDevice
      modifies this`status, this`usedRing, this`devUsedIdx, this`live, this`completed
      ensures Valid() && live == Moved(old(live), h, Completed) && completed == old(completed) + [h]
    {
      Open();
      ghost var v := V();
      LiveInRange(v, h);
      SlotOf(|completed|);
      status := status[h := 0];
      usedRing := usedRing[devUsedIdx % NUM := h];
      devUsedIdx := Inc(devUsedIdx);
      live, completed := Moved(live, h, Completed), completed + [h];
      Finished(v, h, V());
    }

    /** A round of the wait for b in virtio_disk_rw. */
    method SleepOn(b: nat)
      requires Valid() && b in busy
      modifies this`bufSleepers
      ensures Valid() && bufSleepers == old(bufSleepers) + {b}
    {
      Open();
      bufSleepers := bufSleepers + {b};
    }

    /** One round of virtio_disk_intr: it finds status 0 and clears the buffer of one request. */
    method IntrRound() returns (b: int)
      requires Valid() && usedIdx != devUsedIdx
      modifies this`usedIdx, this`busy, this`bufSleepers, this`live, this`seen
      ensures Valid() && old(seen) < |completed| && seen == old(seen) + 1 && completed[old(seen)] in old(live)
      ensures old(live)[completed[old(seen)]].phase.Completed? && live == Moved(old(live), completed[old(seen)], Seen)
      ensures b == old(live)[completed[old(seen)]].b && b in old(busy) && busy == old(busy) - {b}
      ensures bufSleepers == old(bufSleepers) - {b}
    {
      Open();
      ghost var v := V();
      UsedEntry(v, usedIdx, devUsedIdx);
      NextUsed(v);
      var id := usedRing[usedIdx % NUM];
      assert status[id] == 0;
      b := infoB[id];
      busy := busy - {b};
      bufSleepers := bufSleepers - {b};
      usedIdx := Inc(usedIdx);
      live, seen := Moved(live, id, Seen), seen + 1;
      Noticed(v, id, V());
    }

    /** virtio_disk_intr: exactly the completed requests become seen, exactly their buffers stop being busy, and
        exactly the threads asleep on those are woken. */
    method Interrupt()
      requires Valid()
      modifies this`usedIdx, this`busy, this`bufSleepers, this`live, this`seen
      ensures Valid() && seen == |completed|
      ensures live == AllSeen(old(live)) && busy == old(busy - DoneBufs(live))
      ensures bufSleepers == old(bufSleepers - DoneBufs(live))
    {
      Open();
      while usedIdx != devUsedIdx
        invariant Valid() && Indices() && seen <= |completed|
        invariant AllSeen(live) == old(AllSeen(live)) && busy - DoneBufs(live) == old(busy - DoneBufs(live))
        invariant bufSleepers - DoneBufs(live) == old(bufSleepers - DoneBufs(live))
        decreases |completed| - seen
      {
        ghost var before := live;
        var _ := IntrRound();
        SeesOne(before, completed[seen - 1]);
        assert Keeps(Counters);
      }
      Open();
      FewCompleted(V());
      SameIndex(seen, |completed|);
      NoneCompleted(V());
    }

    /** The end of virtio_disk_rw, once b->disk is 0. */
    method Finish(h: nat)
      requires Valid() && h in live && live[h].b !in busy
      modifies this
      ensures Valid() && live == old(live) - {h} && busy == old(busy)
      ensures FreeCount(free) == old(FreeCount(free)) + 3
      ensures submitted == old(submitted) && fetched == old(fetched) && completed == old(completed) && seen == old(seen)
    {
      Open();
      ghost var v := V();
      LiveInRange(v, h);
      TakenCount(free, h, live[h].i1, live[h].i2, true);
      Release(h, v);
      Forget(h, v);
    }

    method Release(h: nat, ghost v: View)
      requires V() == v && |free| == |desc| == |infoB| == NUM && h in live && Three(h, live[h])
      requires Chained(desc, h, live[h])
      requires !free[h] && !free[live[h].i1] && !free[live[h].i2]
      modifies this`free, this`desc, this`infoB, this`descSleepers
      ensures V() == v.(free := Taken(v.free, h, v.live[h].i1, v.live[h].i2, true), desc := desc,
              infoB := v.infoB[h := -1])
      ensures |desc| == NUM && descSleepers == {}
      ensures forall i :: 0 <= i < NUM && !Owns(h, v.live[h], i) ==> desc[i] == v.desc[i]
    {
      infoB := infoB[h := -1];
      FreeChain(h, live[h]);
    }

    ghost method Forget(h: nat, v: View)
      requires Consistent(v) && h in v.live && v.live[h].phase.Seen? && Three(h, v.live[h]) && |desc| == NUM
      requires V() == v.(free := Taken(v.free, h, v.live[h].i1, v.live[h].i2, true), desc := desc,
               infoB := v.infoB[h := -1])
      requires forall i :: 0 <= i < NUM && !Owns(h, v.live[h], i) ==> desc[i] == v.desc[i]
      modifies this`live, this`owner
      ensures Consistent(V()) && live == v.live - {h}
    {
      live, owner := v.live - {h}, Marked(v.owner, h, v.live[h].i1, v.live[h].i2, NUM);
      Dropped(v, h, V());
    }
  }
}
