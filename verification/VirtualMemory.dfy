/** kernel/vm.c, kernel/kalloc.c and the page-table parts of kernel/proc.c, over page numbers. */
module VirtualMemory {
  import opened PageTable
  import opened Sets
  import opened Sv39

  /** memset(pa, v, PGSIZE), seen as data and as table entries. */
  function Filled(v: nat): Data { seq(PGSIZE, _ => v) }

  function FilledTable(v: nat): (t: seq<Pte>)
    ensures |t| == ENTRIES && (v == 0 ==> t == Zeros())
  {
    var word := v * 0x0101_0101_0101_0101;
    seq(ENTRIES, _ => Pte(word / 1024, word % 1024))
  }

  /** PX(level, va) of an address on page vpn. */
  function Index(level: nat, vpn: nat): (i: nat)
    ensures i < ENTRIES
  {
    (if level == 0 then vpn else if level == 1 then vpn / ENTRIES else vpn / ENTRIES / ENTRIES) % ENTRIES
  }

  /** Table pages may have been added to the tree at r; nothing else has changed. */
  ghost predicate TableGrowth(vm: Vm, vm1: Vm, r: nat) {
    && r in vm.spaces && vm1.spaces.Keys == vm.spaces.Keys && vm1.owner.Keys == vm.owner.Keys
    && vm1.mem.Keys == vm.mem.Keys && vm.owner.Keys <= vm.mem.Keys
    && (forall q :: q in vm.spaces && q != r ==> vm1.spaces[q] == vm.spaces[q])
    && vm1.spaces[r].flat == vm.spaces[r].flat && vm1.spaces[r].user == vm.spaces[r].user
    && (forall h :: h in vm.spaces[r].l0 ==> h in vm1.spaces[r].l0)
    && (forall p :: p in vm.owner && vm.owner[p] != Free ==> vm1.owner[p] == vm.owner[p] && vm1.mem[p] == vm.mem[p])
    && (forall p :: p in vm.owner && vm.owner[p] == Free ==> vm1.owner[p] == Free || TableOwner(vm1.owner[p], r))
  }

  lemma TableGrowthTrans(vm: Vm, vm1: Vm, vm2: Vm, r: nat)
    requires TableGrowth(vm, vm1, r) && TableGrowth(vm1, vm2, r)
    ensures TableGrowth(vm, vm2, r)
  {
  }

  lemma SameGrowth(vm: Vm, r: nat)
    requires Good(vm) && r in vm.spaces
    ensures TableGrowth(vm, vm, r)
  {
    Opened(vm, r);
  }

  /** vm1 is vm with the free page p handed to the kernel and zeroed. */
  ghost predicate Zeroed(vm: Vm, vm1: Vm, p: nat) {
    && p in vm.owner && vm.owner[p] == Free && p in vm.mem && p in vm.pt && vm1.spaces == vm.spaces
    && vm1.owner == vm.owner[p := Kernel] && vm1.mem == vm.mem[p := Filled(0)] && vm1.pt == vm.pt[p := Zeros()]
  }

  lemma AddMidGrowth(vm: Vm, vm1: Vm, r: nat, i: nat, p: nat)
    requires Good(vm) && r in vm.spaces && Zeroed(vm, vm1, p) && r in vm1.pt && i < |vm1.pt[r]|
    ensures TableGrowth(vm, AddMid(vm1, r, i, p), r)
  {
    TableAdded(vm, vm1, AddMid(vm1, r, i, p), r, p, Mid(r, i));
  }

  /** A zeroed page that becomes a table page. */
  lemma TableAdded(vm: Vm, vm1: Vm, vm2: Vm, r: nat, p: nat, o: Owner)
    requires Good(vm) && r in vm.spaces && Zeroed(vm, vm1, p) && vm2.mem == vm1.mem && vm2.owner == vm1.owner[p := o]
    requires TableOwner(o, r)
    requires r in vm2.spaces && vm2.spaces == vm1.spaces[r := vm2.spaces[r]]
    requires vm2.spaces[r].flat == vm1.spaces[r].flat && vm2.spaces[r].user == vm1.spaces[r].user
    requires forall h :: h in vm1.spaces[r].l0 ==> h in vm2.spaces[r].l0
    ensures TableGrowth(vm, vm2, r)
  {
    Covered(vm);
  }

  /** The middle table is not the page just allocated. */
  lemma ZeroedElsewhere(vm: Vm, vm1: Vm, r: nat, h: nat, m: nat, p: nat)
    requires Good(vm) && r in vm.spaces && Zeroed(vm, vm1, p) && h / ENTRIES in vm.spaces[r].l1
    requires m == vm.spaces[r].l1[h / ENTRIES]
    requires m in vm.pt && |vm.pt[m]| == ENTRIES
    ensures m in vm1.pt && vm1.pt[m] == vm.pt[m]
  {
    Opened(vm, r);
    assert vm.owner[m] == Mid(r, h / ENTRIES);
  }

  lemma AddLowGrowth(vm: Vm, vm1: Vm, r: nat, h: nat, p: nat)
    requires Good(vm) && r in vm.spaces && Zeroed(vm, vm1, p) && h / ENTRIES in vm.spaces[r].l1
    requires vm1.spaces[r].l1[h / ENTRIES] in vm1.pt && |vm1.pt[vm1.spaces[r].l1[h / ENTRIES]]| == ENTRIES
    ensures TableGrowth(vm, AddLow(vm1, r, h, p), r)
  {
    TableAdded(vm, vm1, AddLow(vm1, r, h, p), r, p, Low(r, h));
  }

  lemma NotMapped(vm: Vm, r: nat, vpn: nat)
    requires Good(vm) && r in vm.spaces
    requires vpn / ENTRIES !in vm.spaces[r].l0 || vpn / ENTRIES / ENTRIES !in vm.spaces[r].l1
    ensures vpn / ENTRIES !in vm.spaces[r].l0 && vpn !in vm.spaces[r].flat
  {
    Opened(vm, r);
  }

  // ---------- the free list ----------

  ghost function FreePages(owner: map<nat, Owner>): set<nat> { set p | p in owner && owner[p] == Free }

  ghost function KernelPages(owner: map<nat, Owner>): set<nat> { set p | p in owner && owner[p] == Kernel }

  ghost function Uniform(s: set<nat>, o: Owner): map<nat, Owner> { map p | p in s :: o }

  /** The whole pages between two addresses. */
  function Whole(start: nat, end: nat): nat {
    if Pages(start) * PGSIZE <= end then end / PGSIZE - Pages(start) else 0
  }

  lemma WholeStep(start: nat, end: nat, p: nat)
    requires Pages(start) <= p
    ensures (p + 1) * PGSIZE <= end <==> p < Pages(start) + Whole(start, end)
  {
  }

  /** Memory before kinit; what it holds does not matter. */
  function Blank(lo: nat, n: nat): (r: (map<nat, seq<Pte>>, map<nat, Data>))
    ensures r.0.Keys == Range(lo, n) == r.1.Keys
  {
    if n == 0 then (map[], map[]) else
    var (pt, mem) := Blank(lo, n - 1);
    (pt[lo + n - 1 := []], mem[lo + n - 1 := []])
  }

  lemma Startup(vm: Vm, all: set<nat>)
    requires vm.spaces == map[] && vm.freelist == [] && vm.owner == Uniform(all, Kernel)
    requires vm.pt.Keys == all == vm.mem.Keys
    ensures Good(vm)
  {
    forall u
      ensures Holds(u, vm)
    {
      match u
      case Freelist =>
      case Backing =>
      case Claiming =>
      case Trees =>
    }
  }

  /** The free list holds each free page once. */
  lemma FreeCount(vm: Vm)
    requires Good(vm)
    ensures |vm.freelist| == |FreePages(vm.owner)|
  {
    assert Holds(Freelist, vm);
    ElementsSize(vm.freelist);
    assert Elements(vm.freelist) == FreePages(vm.owner);
  }

  /** The spaces and the pages that the kernel holds determine which pages are free: none is lost. */
  lemma OwnersDetermined(vm: Vm, vm1: Vm)
    requires Good(vm) && Good(vm1) && vm1.spaces == vm.spaces && vm1.owner.Keys == vm.owner.Keys
    requires KernelPages(vm1.owner) == KernelPages(vm.owner)
    ensures vm1.owner == vm.owner
  {
    forall p | p in vm.owner
      ensures vm1.owner[p] == vm.owner[p]
    {
      assert p in KernelPages(vm1.owner) <==> p in KernelPages(vm.owner);
      if vm.owner[p] != Free && vm.owner[p] != Kernel {
        Determined(vm, vm1, p);
      } else if vm1.owner[p] != Free && vm1.owner[p] != Kernel {
        Determined(vm1, vm, p);
      }
    }
  }

  lemma Determined(vm: Vm, vm1: Vm, p: nat)
    requires Good(vm) && Good(vm1) && vm1.spaces == vm.spaces && p in vm.owner && p in vm1.owner
    requires vm.owner[p] != Free && vm.owner[p] != Kernel
    ensures vm1.owner[p] == vm.owner[p]
  {
    assert Holds(Backing, vm) && Holds(Claiming, vm1);
    assert Backed(vm.owner, vm.spaces, p);
    var r := if vm.owner[p] == Root then p else vm.owner[p].root;
    assert SpaceOk(vm1.owner, r, vm1.spaces[r]);
  }

  // ---------- how many pages an operation takes ----------

  /** Table pages that walk has to make on the way to page v, when those for the prefixes l1 and l0 are there. */
  function Short(l1: set<nat>, l0: set<nat>, v: nat): nat {
    (if v / ENTRIES / ENTRIES in l1 then 0 else 1) + (if v / ENTRIES in l0 then 0 else 1)
  }

  /** Pages that it takes to map lo .. lo + n, with `each` new pages for every leaf. */
  ghost function Need(l1: set<nat>, l0: set<nat>, lo: nat, n: nat, each: nat): nat
    decreases n
  {
    if n == 0 then 0
    else each + Short(l1, l0, lo) + Need(l1 + {lo / ENTRIES / ENTRIES}, l0 + {lo / ENTRIES}, lo + 1, n - 1, each)
  }

  /** Free pages that would be left, below zero when there are too few. */
  ghost function Slack(vm: Vm, r: nat, lo: nat, n: nat, each: nat): int
    requires r in vm.spaces
  {
    |vm.freelist| - Need(vm.spaces[r].l1.Keys, vm.spaces[r].l0.Keys, lo, n, each)
  }

  /** Page v of the space at r was reached, and `each` pages were taken besides the tables that were missing. */
  ghost predicate Charged(vm: Vm, vm1: Vm, r: nat, v: nat, each: nat) {
    && r in vm.spaces && r in vm1.spaces
    && vm1.spaces[r].l1.Keys == vm.spaces[r].l1.Keys + {v / ENTRIES / ENTRIES}
    && vm1.spaces[r].l0.Keys == vm.spaces[r].l0.Keys + {v / ENTRIES}
    && |vm.freelist| == |vm1.freelist| + each + Short(vm.spaces[r].l1.Keys, vm.spaces[r].l0.Keys, v)
  }

  /** There were too few pages for that. */
  ghost predicate TooFew(vm: Vm, r: nat, v: nat, each: nat) {
    r in vm.spaces && |vm.freelist| < each + Short(vm.spaces[r].l1.Keys, vm.spaces[r].l0.Keys, v)
  }

  lemma SlackStep(vm: Vm, vm1: Vm, r: nat, lo: nat, n: nat, each: nat)
    requires Charged(vm, vm1, r, lo, each) && 0 < n
    ensures Slack(vm1, r, lo + 1, n - 1, each) == Slack(vm, r, lo, n, each)
  {
  }

  lemma SlackShort(vm: Vm, r: nat, lo: nat, n: nat, each: nat)
    requires TooFew(vm, r, lo, each) && 0 < n
    ensures Slack(vm, r, lo, n, each) < 0
  {
  }

  lemma Charge(vm: Vm, vm1: Vm, r: nat, lo: nat, n: nat, ok: bool)
    requires 0 < n && r in vm.spaces && (if ok then Charged(vm, vm1, r, lo, 1) else TooFew(vm, r, lo, 1))
    ensures ok ==> r in vm1.spaces && Slack(vm1, r, lo + 1, n - 1, 1) == Slack(vm, r, lo, n, 1)
    ensures !ok ==> Slack(vm, r, lo, n, 1) < 0
  {
    if ok {
      SlackStep(vm, vm1, r, lo, n, 1);
    } else {
      SlackShort(vm, r, lo, n, 1);
    }
  }

  /** The prefixes of lo .. lo + n that need a middle table, and those that need a lowest one. */
  ghost function Tops(lo: nat, n: nat): set<nat>
    decreases n
  {
    if n == 0 then {} else {lo / ENTRIES / ENTRIES} + Tops(lo + 1, n - 1)
  }

  ghost function Lows(lo: nat, n: nat): set<nat>
    decreases n
  {
    if n == 0 then {} else {lo / ENTRIES} + Lows(lo + 1, n - 1)
  }

  /** The tables for pages lo .. lo + k have been added. */
  ghost predicate Reached(vm: Vm, vm1: Vm, r: nat, lo: nat, k: nat) {
    && r in vm.spaces && r in vm1.spaces
    && vm1.spaces[r].l1.Keys == vm.spaces[r].l1.Keys + Tops(lo, k)
        && vm1.spaces[r].l0.Keys == vm.spaces[r].l0.Keys + Lows(lo, k)
  }

  lemma {:induction false} PrefixesMore(lo: nat, k: nat)
    ensures Tops(lo, k + 1) == Tops(lo, k) + {(lo + k) / ENTRIES / ENTRIES}
    ensures Lows(lo, k + 1) == Lows(lo, k) + {(lo + k) / ENTRIES}
    decreases k
  {
    if k > 0 {
      PrefixesMore(lo + 1, k - 1);
    }
  }

  lemma ReachedMore(vm: Vm, vm1: Vm, vm2: Vm, r: nat, lo: nat, k: nat)
    requires Reached(vm, vm1, r, lo, k) && Charged(vm1, vm2, r, lo + k, 0)
    ensures Reached(vm, vm2, r, lo, k + 1)
  {
    PrefixesMore(lo, k);
  }

  lemma OneMoreElement(s: set<nat>, t: set<nat>, x: nat)
    ensures |({x} + t) - s| == |t - (s + {x})| + if x in s then 0 else 1
  {
    if x in s {
      assert ({x} + t) - s == t - (s + {x});
    } else {
      assert ({x} + t) - s == (t - (s + {x})) + {x};
    }
  }

  /** The pages wanted, and one for each table that the range has and the tree does not. */
  lemma {:induction false} NeedIs(l1: set<nat>, l0: set<nat>, lo: nat, n: nat, each: nat)
    ensures Need(l1, l0, lo, n, each) == n * each + |Tops(lo, n) - l1| + |Lows(lo, n) - l0|
    decreases n
  {
    if n == 0 {
      assert {} - l1 == {} && {} - l0 == {};
    } else {
      var i: nat, h: nat, tops, lows := lo / ENTRIES / ENTRIES, lo / ENTRIES, Tops(lo + 1, n - 1), Lows(lo + 1, n - 1);
      NeedIs(l1 + {i}, l0 + {h}, lo + 1, n - 1, each);
      OneMoreElement(l1, tops, i);
      OneMoreElement(l0, lows, h);
      OneMoreTime(n, each);
      assert Tops(lo, n) == {i} + tops && Lows(lo, n) == {h} + lows;
    }
  }

  lemma OneMoreTime(n: nat, each: nat)
    requires n > 0
    ensures n * each == each + (n - 1) * each
  {
  }

  /** walk has gone down from `level`, making the next table if it was missing. */
  ghost predicate Went(vm: Vm, vm1: Vm, r: nat, v: nat, level: nat) {
    && r in vm.spaces && r in vm1.spaces
    && var sp, sp1 := vm.spaces[r], vm1.spaces[r];
       var i, h := v / ENTRIES / ENTRIES, v / ENTRIES;
       if level == 2 then
         sp1.l1.Keys == sp.l1.Keys + {i} && sp1.l0 == sp.l0 && |vm.freelist| == |vm1.freelist| + if i in sp.l1 then 0
             else 1
       else
         sp1.l0.Keys == sp.l0.Keys + {h} && sp1.l1 == sp.l1 && |vm.freelist| == |vm1.freelist| + if h in sp.l0 then 0
             else 1
  }

  lemma WentDown(vm: Vm, vm1: Vm, vm2: Vm, r: nat, v: nat)
    requires Went(vm, vm1, r, v, 2) && Went(vm1, vm2, r, v, 1)
    ensures Charged(vm, vm2, r, v, 0)
  {
  }

  lemma WentShort(vm: Vm, vm1: Vm, r: nat, v: nat)
    requires Went(vm, vm1, r, v, 2) && vm1.freelist == [] && v / ENTRIES !in vm1.spaces[r].l0
    ensures TooFew(vm, r, v, 0)
  {
  }

  // ---------- what an operation on the space at r leaves alone ----------

  predicate Outside(o: Owner, r: nat) {
    match o
    case Kernel => true
    case User(q, _) => q != r
    case _ => false
  }

  /** Other spaces, their pages with contents, and the kernel's pages with contents. */
  ghost predicate Around(vm: Vm, vm1: Vm, r: nat) {
    && vm1.owner.Keys == vm.owner.Keys && vm.owner.Keys <= vm.mem.Keys && vm1.owner.Keys <= vm1.mem.Keys
    && (forall q :: q in vm.spaces && q != r ==> q in vm1.spaces && vm1.spaces[q] == vm.spaces[q])
    && (forall q :: q in vm1.spaces && q != r ==> q in vm.spaces)
    && (forall p :: p in vm.owner && Outside(vm.owner[p], r) ==> vm1.owner[p] == vm.owner[p] && vm1.mem[p] == vm.mem[p])
    && (forall p :: p in vm.owner && vm1.owner[p] == Kernel ==> vm.owner[p] == Kernel)
  }

  lemma AroundTrans(vm: Vm, vm1: Vm, vm2: Vm, r: nat)
    requires Around(vm, vm1, r) && Around(vm1, vm2, r)
    ensures Around(vm, vm2, r)
  {
  }

  /** The space's own pages at the page numbers vs are mapped as before, with the same contents. */
  ghost predicate OwnKept(vm: Vm, vm1: Vm, r: nat, vs: set<nat>) {
    && r in vm.spaces && r in vm1.spaces
    && forall v :: v in vs && v in vm.spaces[r].flat ==>
         && v in vm1.spaces[r].flat && vm1.spaces[r].flat[v] == vm.spaces[r].flat[v]
         && SameData(vm.mem, vm1.mem, vm.spaces[r].flat[v].ppn)
  }

  predicate SameData(mem: map<nat, Data>, mem1: map<nat, Data>, p: nat) {
    (p in mem <==> p in mem1) && (p in mem ==> mem1[p] == mem[p])
  }

  lemma OwnKeptTrans(vm: Vm, vm1: Vm, vm2: Vm, r: nat, vs: set<nat>)
    requires OwnKept(vm, vm1, r, vs) && OwnKept(vm1, vm2, r, vs)
    ensures OwnKept(vm, vm2, r, vs)
  {
  }

  lemma UserPage(vm: Vm, r: nat, v: nat)
    requires Good(vm) && r in vm.spaces && v in vm.spaces[r].user
    ensures v in vm.spaces[r].flat
    ensures var p := vm.spaces[r].flat[v].ppn; p in vm.owner && vm.owner[p] == User(r, v) && p in vm.mem && p in vm.pt
  {
    Opened(vm, r);
  }

  lemma InRange(vm: Vm, r: nat, v: nat)
    requires Good(vm) && r in vm.spaces && v in vm.spaces[r].flat
    ensures v < MAXVPN && v / ENTRIES in vm.spaces[r].l0 && vm.spaces[r].flat[v].flags % 2 == 1
    ensures Leaf(vm.spaces[r].flat[v])
  {
    Opened(vm, r);
  }

  lemma Covered(vm: Vm)
    requires Good(vm)
    ensures vm.owner.Keys <= vm.mem.Keys
  {
    assert Holds(Trees, vm);
  }

  lemma GrowthAround(vm: Vm, vm1: Vm, r: nat)
    requires TableGrowth(vm, vm1, r)
    ensures Around(vm, vm1, r)
  {
  }

  lemma GrowthOwn(vm: Vm, vm1: Vm, r: nat)
    requires Good(vm) && TableGrowth(vm, vm1, r)
    ensures OwnKept(vm, vm1, r, vm.spaces[r].user)
  {
    forall v | v in vm.spaces[r].user && v in vm.spaces[r].flat
      ensures SameData(vm.mem, vm1.mem, vm.spaces[r].flat[v].ppn)
    {
      UserPage(vm, r, v);
    }
  }

  /** A change to a space: its leaves, and the rest. */
  datatype Aspect = Leaves | Rest

  /** One leaf has been added. */
  ghost predicate Mapped(vm: Vm, vm1: Vm, r: nat, vpn: nat, e: Pte, give: bool) {
    forall u :: MappedIn(u, vm, vm1, r, vpn, e, give)
  }

  ghost predicate MappedIn(u: Aspect, vm: Vm, vm1: Vm, r: nat, vpn: nat, e: Pte, give: bool) {
    match u
    case Leaves =>
      && r in vm.spaces && r in vm1.spaces && vm1.spaces[r].flat == vm.spaces[r].flat[vpn := e]
      && vm1.spaces[r].user == (if give then vm.spaces[r].user + {vpn} else vm.spaces[r].user)
    case Rest =>
      && r in vm.spaces && OwnKept(vm, vm1, r, vm.spaces[r].user) && (give ==> SameData(vm.mem, vm1.mem, e.ppn))
      && (if give then e.ppn in vm.owner && Around(vm.(owner := vm.owner[e.ppn := Free]), vm1, r)
          else Around(vm, vm1, r))
  }

  lemma MappedBy(vm: Vm, vm1: Vm, r: nat, vpn: nat, e: Pte, give: bool)
    requires Good(vm) && TableGrowth(vm, vm1, r) && vpn / ENTRIES in vm1.spaces[r].l0 && vpn !in vm.spaces[r].flat
    requires vm1.spaces[r].l0[vpn / ENTRIES] in vm1.pt && |vm1.pt[vm1.spaces[r].l0[vpn / ENTRIES]]| == ENTRIES
    requires give ==> e.ppn in vm.owner && vm.owner[e.ppn] == Kernel
    ensures Mapped(vm, SetLeaf(vm1, r, vpn, e, give), r, vpn, e, give)
  {
    GrowthOwn(vm, vm1, r);
    var vm2 := SetLeaf(vm1, r, vpn, e, give);
    assert OwnKept(vm, vm2, r, vm.spaces[r].user);
    if give {
      MappedGiven(vm, vm1, vm2, r, vpn, e);
    } else {
      GrowthAround(vm, vm1, r);
    }
  }

  lemma MappedGiven(vm: Vm, vm1: Vm, vm2: Vm, r: nat, vpn: nat, e: Pte)
    requires TableGrowth(vm, vm1, r) && e.ppn in vm.owner && vm.owner[e.ppn] == Kernel
    requires vm2.owner == vm1.owner[e.ppn := User(r, vpn)] && vm2.mem == vm1.mem
    requires vm2.spaces.Keys == vm1.spaces.Keys
    requires forall q :: q in vm1.spaces && q != r ==> vm2.spaces[q] == vm1.spaces[q]
    ensures Around(vm.(owner := vm.owner[e.ppn := Free]), vm2, r) && SameData(vm.mem, vm2.mem, e.ppn)
  {
  }

  /** Leaves for pages lo .. lo + k, naming consecutive pages from p on, have been added; none of these is the
      space's own. */
  ghost predicate Laid(vm: Vm, vm1: Vm, r: nat, lo: nat, k: nat, p: nat, flags: nat) {
    forall u :: LaidBy(u, vm, vm1, r, lo, k, p, flags)
  }

  ghost predicate LaidBy(u: Aspect, vm: Vm, vm1: Vm, r: nat, lo: nat, k: nat, p: nat, flags: nat) {
    match u
    case Leaves =>
      && r in vm.spaces && r in vm1.spaces && vm1.spaces[r].user == vm.spaces[r].user
      && vm1.spaces[r].flat == vm.spaces[r].flat + LeavesFor(lo, k, p, flags)
    case Rest => r in vm.spaces && Around(vm, vm1, r) && OwnKept(vm, vm1, r, vm.spaces[r].user)
  }

  ghost function LeavesFor(lo: nat, k: nat, p: nat, flags: nat): (m: map<nat, Pte>)
    ensures m.Keys == Range(lo, k)
  {
    if k == 0 then map[] else LeavesFor(lo, k - 1, p, flags)[lo + k - 1 := Pte(p + k - 1, flags)]
  }

  /** The pages that a range of addresses touches. */
  function PagesOf(va: nat, size: nat): nat
    requires size > 0
  {
    if va / PGSIZE <= (va + size - 1) / PGSIZE then (va + size - 1) / PGSIZE - va / PGSIZE + 1 else 0
  }

  lemma LastPage(va: nat, size: nat)
    requires size > 0 && va + size <= MAXVA
    ensures va / PGSIZE <= (va + size - 1) / PGSIZE < MAXVPN
  {
  }

  lemma LaidNone(vm: Vm, r: nat, lo: nat, p: nat, flags: nat)
    requires Good(vm) && r in vm.spaces
    ensures Laid(vm, vm, r, lo, 0, p, flags)
  {
    Covered(vm);
    assert vm.spaces[r].flat + map[] == vm.spaces[r].flat;
  }

  lemma LaidMore(vm: Vm, vm1: Vm, vm2: Vm, r: nat, lo: nat, k: nat, p: nat, flags: nat)
    requires Laid(vm, vm1, r, lo, k, p, flags) && Mapped(vm1, vm2, r, lo + k, Pte(p + k, flags), false)
    ensures Laid(vm, vm2, r, lo, k + 1, p, flags)
  {
    var e := Pte(p + k, flags);
    assert MappedIn(Leaves, vm1, vm2, r, lo + k, e, false);
    assert LaidBy(Leaves, vm, vm1, r, lo, k, p, flags);
    var more := k + 1;
    forall u
      ensures LaidBy(u, vm, vm2, r, lo, more, p, flags)
    {
      match u
      case Leaves =>
        assert (vm.spaces[r].flat + LeavesFor(lo, k, p, flags))[lo + k := Pte(p + k, flags)] == vm.spaces[r].flat
            + LeavesFor(lo, k + 1, p, flags);
      case Rest =>
        assert LaidBy(Rest, vm, vm1, r, lo, k, p, flags) && MappedIn(Rest, vm1, vm2, r, lo + k, e, false);
        AroundTrans(vm, vm1, vm2, r);
        OwnKeptTrans(vm, vm1, vm2, r, vm.spaces[r].user);
    }
  }

  lemma LaidGrowth(vm: Vm, vm1: Vm, vm2: Vm, r: nat, lo: nat, k: nat, p: nat, flags: nat)
    requires Good(vm1) && Laid(vm, vm1, r, lo, k, p, flags) && TableGrowth(vm1, vm2, r)
    ensures Laid(vm, vm2, r, lo, k, p, flags)
  {
    assert LaidBy(Leaves, vm, vm1, r, lo, k, p, flags);
    forall u
      ensures LaidBy(u, vm, vm2, r, lo, k, p, flags)
    {
      match u
      case Leaves =>
      case Rest =>
        assert LaidBy(Rest, vm, vm1, r, lo, k, p, flags);
        GrowthAround(vm1, vm2, r);
        GrowthOwn(vm1, vm2, r);
        AroundTrans(vm, vm1, vm2, r);
        OwnKeptTrans(vm, vm1, vm2, r, vm.spaces[r].user);
    }
  }

  /** Flat maps: page numbers lo .. lo + n taken out. */
  ghost function Minus(m: map<nat, Pte>, lo: nat, n: nat): map<nat, Pte> {
    map v | v in m && !(lo <= v < lo + n) :: m[v]
  }

  /** Leaves have been removed from the space at r, and their pages freed where these were its own. */
  ghost predicate Unmapped(vm: Vm, vm1: Vm, r: nat, lo: nat, n: nat) {
    && r in vm.spaces && r in vm1.spaces
    && vm1.spaces[r] == vm.spaces[r].(flat := Minus(vm.spaces[r].flat, lo, n), user := vm.spaces[r].user - Range(lo, n))
    && Around(vm, vm1, r) && OwnKept(vm, vm1, r, vm.spaces[r].user - Range(lo, n))
  }

  /** uvmunmap of n pages has dealt with the first k. */
  ghost predicate Shrinking(vm: Vm, vm1: Vm, r: nat, lo: nat, k: nat, n: nat, doFree: bool) {
    forall u :: ShrinkingBy(u, vm, vm1, r, lo, k, n, doFree)
  }

  ghost predicate ShrinkingBy(u: Aspect, vm: Vm, vm1: Vm, r: nat, lo: nat, k: nat, n: nat, doFree: bool) {
    match u
    case Leaves => Unmapped(vm, vm1, r, lo, k)
    case Rest => r in vm.spaces && forall v :: lo <= v < lo + n ==>
        v in vm.spaces[r].flat && (doFree <==> v in vm.spaces[r].user)
  }

  lemma UnmappedNone(vm: Vm, r: nat, lo: nat)
    requires Good(vm) && r in vm.spaces
    ensures Unmapped(vm, vm, r, lo, 0)
  {
    Covered(vm);
    assert Minus(vm.spaces[r].flat, lo, 0) == vm.spaces[r].flat;
    assert vm.spaces[r].user - Range(lo, 0) == vm.spaces[r].user;
  }

  /** One more leaf. */
  lemma UnmappedMore(vm: Vm, vm1: Vm, vm2: Vm, r: nat, lo: nat, k: nat)
    requires Unmapped(vm, vm1, r, lo, k) && Unmapped(vm1, vm2, r, lo + k, 1)
    ensures Unmapped(vm, vm2, r, lo, k + 1)
  {
    AroundTrans(vm, vm1, vm2, r);
    var sp := vm.spaces[r];
    assert Minus(Minus(sp.flat, lo, k), lo + k, 1) == Minus(sp.flat, lo, k + 1);
    assert sp.user - Range(lo, k) - Range(lo + k, 1) == sp.user - Range(lo, k + 1);
    UnmappedOwn(vm, vm1, vm2, r, lo, k);
  }

  lemma UnmappedOwn(vm: Vm, vm1: Vm, vm2: Vm, r: nat, lo: nat, k: nat)
    requires Unmapped(vm, vm1, r, lo, k) && Unmapped(vm1, vm2, r, lo + k, 1)
    ensures OwnKept(vm, vm2, r, vm.spaces[r].user - Range(lo, k + 1))
  {
    forall v | v in vm.spaces[r].user - Range(lo, k + 1) && v in vm.spaces[r].flat
      ensures v in vm2.spaces[r].flat && vm2.spaces[r].flat[v] == vm.spaces[r].flat[v]
      ensures SameData(vm.mem, vm2.mem, vm.spaces[r].flat[v].ppn)
    {
      assert v in vm.spaces[r].user - Range(lo, k) && v in vm1.spaces[r].user - Range(lo + k, 1);
    }
  }

  /** Clearing one leaf, before any page is freed. */
  lemma ClearedOne(vm: Vm, r: nat, vpn: nat, vm2: Vm)
    requires Good(vm) && r in vm.spaces && vpn in vm.spaces[r].flat && vm2.spaces.Keys == vm.spaces.Keys
    requires vm2.owner.Keys == vm.owner.Keys
    requires vm2.spaces[r] == vm.spaces[r].(flat := vm.spaces[r].flat - {vpn}, user := vm.spaces[r].user - {vpn})
    requires forall q :: q in vm.spaces && q != r ==> vm2.spaces[q] == vm.spaces[q]
    requires var p := vm.spaces[r].flat[vpn].ppn;
             if vpn in vm.spaces[r].user
             then p in vm.owner && vm.owner[p] == User(r, vpn) && vm2.owner == vm.owner[p := Free]
                 && vm2.mem == vm.mem[p := Filled(1)]
             else vm2.owner == vm.owner && vm2.mem == vm.mem
    ensures Unmapped(vm, vm2, r, vpn, 1)
  {
    Covered(vm);
    var sp := vm.spaces[r];
    assert sp.flat - {vpn} == Minus(sp.flat, vpn, 1);
    assert Range(vpn, 1) == {vpn};
    forall v | v in sp.user - {vpn} && v in sp.flat
      ensures SameData(vm.mem, vm2.mem, sp.flat[v].ppn)
    {
      UserPage(vm, r, v);
    }
  }

  /** Flags and contents that new pages are to have, by page number. */
  datatype Want = Want(flags: nat, data: Data)

  ghost function Alike(lo: nat, k: nat, w: Want): map<nat, Want> { map v | v in Range(lo, k) :: w }

  /** Pages lo .. lo + k of the space at r have been added, each its own, as wanted. */
  ghost predicate Enlarged(vm: Vm, vm1: Vm, r: nat, lo: nat, k: nat, want: map<nat, Want>) {
    && r in vm.spaces && r in vm1.spaces && vm1.spaces[r].user == vm.spaces[r].user + Range(lo, k)
    && vm1.spaces[r].flat.Keys == vm.spaces[r].flat.Keys + Range(lo, k)
    && (forall v :: v in vm.spaces[r].flat ==> vm1.spaces[r].flat[v] == vm.spaces[r].flat[v])
    && (forall v :: lo <= v < lo + k ==> HasPage(vm1, r, v, want))
    && Around(vm, vm1, r) && OwnKept(vm, vm1, r, vm.spaces[r].user)
  }

  ghost predicate HasPage(vm: Vm, r: nat, v: nat, want: map<nat, Want>) {
    && v in want && r in vm.spaces && v in vm.spaces[r].flat && vm.spaces[r].flat[v].flags == want[v].flags
    && vm.spaces[r].flat[v].ppn in vm.mem && vm.mem[vm.spaces[r].flat[v].ppn] == want[v].data
  }

  /** A loop that adds pages keeps Enlarged folded. */
  ghost predicate Growing(vm: Vm, vm1: Vm, r: nat, lo: nat, k: nat, want: map<nat, Want>) {
    forall u :: GrowingBy(u, vm, vm1, r, lo, k, want)
  }

  ghost predicate GrowingBy(u: Aspect, vm: Vm, vm1: Vm, r: nat, lo: nat, k: nat, want: map<nat, Want>) {
    match u
    case Leaves => Enlarged(vm, vm1, r, lo, k, want)
    case Rest => r in vm.spaces && vm.spaces[r].user <= vm.spaces[r].flat.Keys
  }

  lemma EnlargedNone(vm: Vm, r: nat, lo: nat, want: map<nat, Want>)
    requires Good(vm) && r in vm.spaces
    ensures Growing(vm, vm, r, lo, 0, want)
  {
    UserMapped(vm, r);
    Covered(vm);
    assert Range(lo, 0) == {};
  }

  /** A step from Enlarged to a state with one more page. */
  lemma EnlargedMore(vm: Vm, vm1: Vm, vm2: Vm, r: nat, lo: nat, k: nat, want: map<nat, Want>)
    requires Enlarged(vm, vm1, r, lo, k, want) && Enlarged(vm1, vm2, r, lo + k, 1, want)
    requires vm.spaces[r].user <= vm.spaces[r].flat.Keys
    ensures Enlarged(vm, vm2, r, lo, k + 1, want)
  {
    AroundTrans(vm, vm1, vm2, r);
    assert Range(lo, k + 1) == Range(lo, k) + Range(lo + k, 1);
    assert OwnKept(vm1, vm2, r, vm.spaces[r].user);
    OwnKeptTrans(vm, vm1, vm2, r, vm.spaces[r].user);
    forall v | lo <= v < lo + k + 1
      ensures HasPage(vm2, r, v, want)
    {
      if v < lo + k {
        assert HasPage(vm1, r, v, want) && v in vm1.spaces[r].user;
      }
    }
  }

  /** Adding pages and removing them again. */
  lemma EnlargedUndone(vm: Vm, vm1: Vm, vm2: Vm, r: nat, lo: nat, k: nat, want: map<nat, Want>)
    requires Enlarged(vm, vm1, r, lo, k, want) && Unmapped(vm1, vm2, r, lo, k)
    requires vm.spaces[r].flat.Keys !! Range(lo, k) && vm.spaces[r].user <= vm.spaces[r].flat.Keys
    ensures vm2.spaces[r].flat == vm.spaces[r].flat && vm2.spaces[r].user == vm.spaces[r].user
    ensures Around(vm, vm2, r) && OwnKept(vm, vm2, r, vm.spaces[r].user)
  {
    AroundTrans(vm, vm1, vm2, r);
    assert vm2.spaces[r].user == vm.spaces[r].user;
    OwnKeptTrans(vm, vm1, vm2, r, vm.spaces[r].user);
  }

  /** Growth of the tables alone changes neither. */
  lemma GrowthUndone(vm: Vm, vm1: Vm, vm2: Vm, r: nat, lo: nat, k: nat, want: map<nat, Want>)
    requires Good(vm1) && Enlarged(vm, vm1, r, lo, k, want) && TableGrowth(vm1, vm2, r)
    requires vm.spaces[r].user <= vm.spaces[r].flat.Keys
    ensures Enlarged(vm, vm2, r, lo, k, want)
  {
    GrowthAround(vm1, vm2, r);
    GrowthOwn(vm1, vm2, r);
    AroundTrans(vm, vm1, vm2, r);
    assert OwnKept(vm1, vm2, r, vm.spaces[r].user);
    OwnKeptTrans(vm, vm1, vm2, r, vm.spaces[r].user);
    forall v | lo <= v < lo + k
      ensures HasPage(vm2, r, v, want)
    {
      assert HasPage(vm1, r, v, want) && v in vm1.spaces[r].user;
    }
  }

  /** vm1 is vm with the free page p handed to the kernel, whatever p now holds. */
  ghost predicate Taken(vm: Vm, vm1: Vm, p: nat) {
    && p in vm.owner && vm.owner[p] == Free && p in vm.mem && vm1.spaces == vm.spaces
        && vm1.owner == vm.owner[p := Kernel]
    && vm1.mem.Keys == vm.mem.Keys && forall q :: q in vm.mem && q != p ==> vm1.mem[q] == vm.mem[q]
  }

  /** A page taken from the free list, and mapped: seen from before it was taken. */
  lemma PoppedMapped(vm: Vm, vm1: Vm, vm2: Vm, r: nat, v: nat, p: nat, e: Pte)
    requires Good(vm) && r in vm.spaces && Taken(vm, vm1, p) && e.ppn == p && v !in vm.spaces[r].flat
    requires Mapped(vm1, vm2, r, v, e, true)
    ensures Around(vm, vm2, r) && OwnKept(vm, vm2, r, vm.spaces[r].user)
    ensures p in vm1.mem && p in vm2.mem && vm2.mem[p] == vm1.mem[p]
  {
    assert MappedIn(Leaves, vm1, vm2, r, v, e, true) && MappedIn(Rest, vm1, vm2, r, v, e, true);
    Covered(vm);
    assert vm1.owner[p := Free] == vm.owner;
    forall w | w in vm.spaces[r].user && w in vm.spaces[r].flat
      ensures SameData(vm.mem, vm2.mem, vm.spaces[r].flat[w].ppn)
    {
      UserPage(vm, r, w);
    }
  }

  lemma EnlargedOne(vm: Vm, vm1: Vm, vm2: Vm, r: nat, v: nat, p: nat, want: map<nat, Want>)
    requires Good(vm) && r in vm.spaces && Taken(vm, vm1, p) && v !in vm.spaces[r].flat
    requires v in want && vm1.mem[p] == want[v].data && Mapped(vm1, vm2, r, v, Pte(p, want[v].flags), true)
    ensures Enlarged(vm, vm2, r, v, 1, want)
  {
    PoppedMapped(vm, vm1, vm2, r, v, p, Pte(p, want[v].flags));
    assert MappedIn(Leaves, vm1, vm2, r, v, Pte(p, want[v].flags), true);
    assert Range(v, 1) == {v};
  }

  /** ... or given back because no table page could be had. */
  lemma PoppedReturned(vm: Vm, vm1: Vm, vm2: Vm, vm3: Vm, r: nat, p: nat)
    requires Good(vm) && r in vm.spaces && Taken(vm, vm1, p)
    requires TableGrowth(vm1, vm2, r) && vm3.spaces == vm2.spaces && vm3.owner == vm2.owner[p := Free]
    requires vm3.mem == vm2.mem[p := Filled(1)]
    ensures TableGrowth(vm, vm3, r)
  {
    Covered(vm);
  }

  /** The flat map, the space's own pages and everything outside are as they were. */
  ghost predicate Restored(vm: Vm, vm1: Vm, r: nat) {
    && r in vm.spaces && r in vm1.spaces && vm1.spaces[r].flat == vm.spaces[r].flat
        && vm1.spaces[r].user == vm.spaces[r].user
    && Around(vm, vm1, r) && OwnKept(vm, vm1, r, vm.spaces[r].user)
  }

  lemma UserMapped(vm: Vm, r: nat)
    requires Good(vm) && r in vm.spaces
    ensures vm.spaces[r].user <= vm.spaces[r].flat.Keys
  {
    Opened(vm, r);
  }

  lemma UserLeaf(xperm: nat)
    requires xperm in {0, PTE_W, PTE_X, PTE_W + PTE_X}
    ensures WithValid(PTE_R + PTE_U + xperm) == PTE_V + PTE_R + PTE_U + xperm
    ensures Leaf(Pte(0, WithValid(PTE_R + PTE_U + xperm)))
  {
  }

  // ---------- copying a space ----------

  /** What page v of the space at o has. */
  ghost predicate AsIn(vm: Vm, o: nat, v: nat, want: map<nat, Want>) {
    && o in vm.spaces && v in vm.spaces[o].user && v in vm.spaces[o].flat && v in want
        && vm.spaces[o].flat[v].ppn in vm.mem
    && want[v] == Want(vm.spaces[o].flat[v].flags, vm.mem[vm.spaces[o].flat[v].ppn])
  }

  /** The first n pages of the space at o. */
  ghost function Copies(vm: Vm, o: nat, n: nat): (want: map<nat, Want>)
    requires Good(vm) && o in vm.spaces && Range(0, n) <= vm.spaces[o].user
    ensures forall v: nat :: v in want <==> v < n
    ensures forall v: nat {:trigger AsIn(vm, o, v, want)} :: v < n ==> AsIn(vm, o, v, want)
  {
    assert forall v :: v in vm.spaces[o].user ==> v in vm.spaces[o].flat && vm.spaces[o].flat[v].ppn in vm.mem by {
      Opened(vm, o);
    }
    map v | v in Range(0, n) :: Want(vm.spaces[o].flat[v].flags, vm.mem[vm.spaces[o].flat[v].ppn])
  }

  /** Work on the space at r leaves the pages of o alone. */
  lemma StillAsIn(vm: Vm, vm1: Vm, o: nat, r: nat, v: nat, want: map<nat, Want>)
    requires Good(vm) && AsIn(vm, o, v, want) && Around(vm, vm1, r) && o != r
    ensures AsIn(vm1, o, v, want)
  {
    UserPage(vm, o, v);
  }

  /** No page is mapped as a space's own twice. */
  lemma OwnPages(vm: Vm, r: nat, v: nat, q: nat, w: nat)
    requires Good(vm) && r in vm.spaces && v in vm.spaces[r].user && q in vm.spaces && w in vm.spaces[q].user
    requires v in vm.spaces[r].flat && w in vm.spaces[q].flat && vm.spaces[r].flat[v].ppn == vm.spaces[q].flat[w].ppn
    ensures r == q && v == w
  {
    UserPage(vm, r, v);
    UserPage(vm, q, w);
  }

  // ---------- sizes in pages ----------

  /** The pages of a space of sz bytes. */
  function Pages(sz: nat): nat {
    if sz == 0 then 0 else if sz <= PGSIZE then 1 else 1 + Pages(sz - PGSIZE)
  }

  function Span(oldsz: nat, newsz: nat): nat { if Pages(oldsz) <= Pages(newsz) then Pages(newsz) - Pages(oldsz) else 0 }

  lemma {:induction false} PagesIs(sz: nat)
    ensures Pages(sz) * PGSIZE == PGROUNDUP(sz) && Pages(sz) == PGROUNDUP(sz) / PGSIZE
    ensures sz <= Pages(sz) * PGSIZE < sz + PGSIZE
  {
    if sz > PGSIZE {
      PagesIs(sz - PGSIZE);
    }
  }

  lemma PagesMonotone(a: nat, b: nat)
    ensures a <= b ==> Pages(a) <= Pages(b)
    ensures PGROUNDUP(a) < PGROUNDUP(b) <==> Pages(a) < Pages(b)
    ensures PGROUNDUP(a) <= PGROUNDUP(b) ==> (PGROUNDUP(b) - PGROUNDUP(a)) / PGSIZE == Pages(b) - Pages(a)
  {
    PagesIs(a);
    PagesIs(b);
  }

  /** Page v starts below sz exactly when it is one of the pages. */
  lemma PageBelow(v: nat, sz: nat)
    ensures v * PGSIZE < sz <==> v < Pages(sz)
  {
    PagesIs(sz);
  }

  /** A new, empty space. */
  lemma Created(vm: Vm, vm1: Vm, r: nat)
    requires Good(vm) && r in vm.owner && vm.owner[r] == Free && vm1.owner == vm.owner[r := Root]
    requires vm1.spaces == vm.spaces[r := EMPTY] && vm1.mem == vm.mem[r := Filled(0)]
    ensures Around(vm, vm1, r)
  {
    Covered(vm);
  }

  // ---------- tearing a tree down ----------

  /** Table pages below prefix i of the root. */
  ghost function Below(sp: Space, i: nat): set<nat> {
    (set k | k in sp.l1 && k < i :: sp.l1[k]) + (set h | h in sp.l0 && h / ENTRIES < i :: sp.l0[h])
  }

  /** Lowest table pages under prefix i, up to index j. */
  ghost function Under(sp: Space, i: nat, j: nat): set<nat> {
    set h | h in sp.l0 && i * ENTRIES <= h < i * ENTRIES + j :: sp.l0[h]
  }

  ghost function Freed(owner: map<nat, Owner>, s: set<nat>): map<nat, Owner> {
    map p | p in owner :: if p in s then Free else owner[p]
  }

  /** No table page is used twice. */
  ghost predicate Distinct(r: nat, sp: Space) {
    && (forall i, k :: i in sp.l1 && k in sp.l1 && sp.l1[i] == sp.l1[k] ==> i == k)
    && (forall h, k :: h in sp.l0 && k in sp.l0 && sp.l0[h] == sp.l0[k] ==> h == k)
    && (forall i, h :: i in sp.l1 && h in sp.l0 ==> sp.l1[i] != sp.l0[h])
    && r !in sp.l1.Values && r !in sp.l0.Values
  }

  /** A tree that is being torn down.  Its table pages had all become the kernel's; those in `gone` are free by
      now, the others are as they were, except that entries of `open` are being cleared. */
  ghost predicate Dying(vm0: Vm, vm: Vm, r: nat, sp: Space, gone: set<nat>, open: set<nat>) {
    && vm.spaces == vm0.spaces && vm.owner == Freed(vm0.owner, gone)
    && vm.mem.Keys == vm0.mem.Keys && vm.pt.Keys == vm0.pt.Keys
    && (forall p :: p in vm0.mem && p !in TablePages(r, sp) ==> vm.mem[p] == vm0.mem[p])
    && (forall p :: p in vm0.pt && p in TablePages(r, sp) && p !in gone && p !in open ==> vm.pt[p] == vm0.pt[p])
  }

  datatype Doom = Shaped | Standing | Held

  ghost predicate DoomedBy(u: Doom, vm0: Vm, r: nat, sp: Space) {
    match u
    case Shaped => Shape(sp) && Distinct(r, sp) && sp.flat == map[]
    case Standing => Tree(vm0.pt, r, sp)
    case Held => forall p :: p in TablePages(r, sp) ==>
        p in vm0.owner && vm0.owner[p] == Kernel && p in vm0.pt && p in vm0.mem
  }

  /** A tree without leaves whose pages have all become the kernel's. */
  ghost predicate Doomed(vm0: Vm, r: nat, sp: Space) {
    forall u :: DoomedBy(u, vm0, r, sp)
  }

  lemma UnderStep(sp: Space, i: nat, j: nat)
    ensures Under(sp, i, j + 1) == Under(sp, i, j) + if i * ENTRIES + j in sp.l0 then {sp.l0[i * ENTRIES + j]} else {}
  {
  }

  lemma BelowStep(sp: Space, i: nat)
    ensures Below(sp, i + 1) == Below(sp, i) + Under(sp, i, ENTRIES) + if i in sp.l1 then {sp.l1[i]} else {}
  {
    forall h | h in sp.l0
      ensures h / ENTRIES < i + 1 <==> h / ENTRIES < i || i * ENTRIES <= h < i * ENTRIES + ENTRIES
    {
    }
    assert (set k | k in sp.l1 && k < i + 1 :: sp.l1[k]) == (set k | k in sp.l1 && k < i :: sp.l1[k]) + if i in sp.l1
        then {sp.l1[i]} else {};
    assert (set h | h in sp.l0 && h / ENTRIES < i + 1 :: sp.l0[h])
        == (set h | h in sp.l0 && h / ENTRIES < i :: sp.l0[h]) + Under(sp, i, ENTRIES);
  }

  lemma BelowNone(sp: Space, i: nat)
    requires Shape(sp) && i !in sp.l1
    ensures Under(sp, i, ENTRIES) == {}
  {
    forall h | h in sp.l0
      ensures !(i * ENTRIES <= h < i * ENTRIES + ENTRIES)
    {
      if i * ENTRIES <= h < i * ENTRIES + ENTRIES {
        Compose(i, h - i * ENTRIES);
      }
    }
  }

  /** The lowest tables of a space without leaves are empty. */
  lemma DyingPage(vm0: Vm, r: nat, sp: Space, h: nat)
    requires Doomed(vm0, r, sp) && h in sp.l0
    ensures sp.l0[h] in TablePages(r, sp) && sp.l0[h] in vm0.pt && vm0.pt[sp.l0[h]] == Zeros() && sp.l0[h] != r
    ensures sp.l0[h] !in sp.l1.Values
  {
    assert DoomedBy(Shaped, vm0, r, sp) && DoomedBy(Standing, vm0, r, sp) && DoomedBy(Held, vm0, r, sp);
    assert Page(vm0.pt, sp.l0[h], sp.flat, h * ENTRIES);
    assert sp.l0[h] in sp.l0.Values;
  }

  /** A child found through an entry of m is still the kernel's and empty. */
  lemma DyingChild(vm0: Vm, vm: Vm, r: nat, sp: Space, gone: set<nat>, m: nat, i: nat, h: nat)
    requires Doomed(vm0, r, sp) && Dying(vm0, vm, r, sp, gone, {r, m}) && i in sp.l1 && m == sp.l1[i] && h in sp.l0
    requires sp.l0[h] !in gone && m !in gone
    ensures var c := sp.l0[h];
            && c in TablePages(r, sp) && c != r && c in vm.owner && vm.owner[c] == Kernel && c in vm.pt
                && vm.pt[c] == Zeros() && c != m
            && m in vm.owner && vm.owner[m] == Kernel && m in TablePages(r, sp)
  {
    assert DoomedBy(Shaped, vm0, r, sp) && DoomedBy(Held, vm0, r, sp);
    DyingPage(vm0, r, sp, h);
    assert m in sp.l1.Values;
  }

  lemma DyingFreed(vm0: Vm, vm: Vm, vm1: Vm, r: nat, sp: Space, gone: set<nat>, open: set<nat>, p: nat)
    requires Dying(vm0, vm, r, sp, gone, open) && p in vm0.owner && p in TablePages(r, sp) && p in vm.mem && p in vm.pt
    requires vm1.spaces == vm.spaces && vm1.owner == vm.owner[p := Free] && vm1.mem == vm.mem[p := Filled(1)]
    requires vm1.pt == vm.pt[p := FilledTable(1)]
    ensures Dying(vm0, vm1, r, sp, gone + {p}, open)
  {
    FreedMore(vm0.owner, gone, p);
  }

  lemma DyingOpen(vm0: Vm, vm: Vm, vm1: Vm, r: nat, sp: Space, gone: set<nat>, open: set<nat>, p: nat)
    requires Dying(vm0, vm, r, sp, gone, open) && p in open && p in vm.pt
    requires vm1.spaces == vm.spaces && vm1.owner == vm.owner && vm1.mem == vm.mem && vm1.pt.Keys == vm.pt.Keys
    requires forall q :: q in vm.pt && q != p ==> vm1.pt[q] == vm.pt[q]
    ensures Dying(vm0, vm1, r, sp, gone, open)
  {
  }

  lemma DirEntry(m: map<nat, nat>, k: nat, e: Pte)
    requires e == Get(Dirs(m), k)
    ensures e.flags % 2 == 1 <==> k in m
    ensures k in m ==> e.ppn == m[k] && !Leaf(e)
  {
  }

  ghost function Child(sp: Space, h: nat): set<nat> {
    if h in sp.l0 then {sp.l0[h]} else {}
  }

  ghost predicate Reclaimable(vm0: Vm, vm: Vm, r: nat, sp: Space, c: set<nat>) {
    forall p :: p in c ==> p in vm0.owner && p in vm.owner && vm.owner[p] == Kernel && p in vm.pt && vm.pt[p] == Zeros()
                           && p in TablePages(r, sp) && p in vm.mem
  }

  /** What a round on the middle table of prefix i finds at index j. */
  lemma MidRound(vm0: Vm, vm: Vm, r: nat, sp: Space, gone: set<nat>, i: nat, h: nat, m: nat, e: Pte)
    requires Doomed(vm0, r, sp) && i in sp.l1 && m == sp.l1[i] && m !in gone && (h in sp.l0 ==> sp.l0[h] !in gone)
    requires (e.flags % 2 == 1 <==> h in sp.l0) && (h in sp.l0 ==> e.ppn == sp.l0[h])
    requires Dying(vm0, vm, r, sp, gone, {r, m})
    ensures m in vm.owner && vm.owner[m] == Kernel
    ensures var c := Child(sp, h);
            m !in c && r !in c && c == (if e.flags % 2 == 1 then {e.ppn} else {})
            && Reclaimable(vm0, vm, r, sp, c)
  {
    assert m in vm0.owner && vm0.owner[m] == Kernel by {
      assert DoomedBy(Held, vm0, r, sp);
      assert m in sp.l1.Values;
    }
    if h in sp.l0 {
      DyingChild(vm0, vm, r, sp, gone, m, i, h);
    }
  }

  lemma MidFacts(vm0: Vm, r: nat, sp: Space, i: nat, j: nat, m: nat, e: Pte)
    requires Doomed(vm0, r, sp) && i in sp.l1 && m == sp.l1[i] && j < ENTRIES && m in vm0.pt && |vm0.pt[m]| == ENTRIES
    requires e == vm0.pt[m][j]
    ensures var (h, gone) := (i * ENTRIES + j, Below(sp, i) + Under(sp, i, j));
            && (e.flags % 2 == 1 <==> h in sp.l0) && (h in sp.l0 ==> e.ppn == sp.l0[h]) && !Leaf(e)
            && m !in gone && (h in sp.l0 ==> sp.l0[h] !in gone)
  {
    assert DoomedBy(Shaped, vm0, r, sp) && DoomedBy(Standing, vm0, r, sp);
    MidEntry(vm0, r, sp, i, j, m, e);
    MidStanding(r, sp, i, j);
  }

  lemma MidGone(sp: Space, i: nat, j: nat)
    ensures Below(sp, i) + Under(sp, i, j) + Child(sp, i * ENTRIES + j) == Below(sp, i) + Under(sp, i, j + 1)
  {
    UnderStep(sp, i, j);
  }

  lemma MidEntry(vm0: Vm, r: nat, sp: Space, i: nat, j: nat, m: nat, e: Pte)
    requires Tree(vm0.pt, r, sp) && i in sp.l1 && m == sp.l1[i] && j < ENTRIES && m in vm0.pt
    requires |vm0.pt[m]| == ENTRIES && e == vm0.pt[m][j]
    ensures var h := i * ENTRIES + j;
            (e.flags % 2 == 1 <==> h in sp.l0) && (h in sp.l0 ==> e.ppn == sp.l0[h])
            && !Leaf(e)
  {
    assert Page(vm0.pt, sp.l1[i], Dirs(sp.l0), i * ENTRIES);
    DirEntry(sp.l0, i * ENTRIES + j, e);
  }

  /** The middle table and the child at index j are not among the pages gone. */
  lemma MidStanding(r: nat, sp: Space, i: nat, j: nat)
    requires Distinct(r, sp) && i in sp.l1 && j < ENTRIES
    ensures var gone := Below(sp, i) + Under(sp, i, j);
            sp.l1[i] !in gone && (i * ENTRIES + j in sp.l0 ==> sp.l0[i * ENTRIES + j] !in gone)
  {
    Compose(i, j);
  }

  lemma MidStarts(vm0: Vm, vm: Vm, r: nat, sp: Space, i: nat, m: nat)
    requires Doomed(vm0, r, sp) && i in sp.l1 && m == sp.l1[i] && Dying(vm0, vm, r, sp, Below(sp, i), {r})
    ensures m in vm.owner && vm.owner[m] == Kernel && m in vm.mem && r in vm.pt && r != m
    ensures m in vm.pt && m in vm0.pt && vm.pt[m] == vm0.pt[m] && |vm0.pt[m]| == ENTRIES && Under(sp, i, 0) == {}
    ensures Dying(vm0, vm, r, sp, Below(sp, i) + Under(sp, i, 0), {r, m})
  {
    assert DoomedBy(Shaped, vm0, r, sp) && DoomedBy(Standing, vm0, r, sp) && DoomedBy(Held, vm0, r, sp);
    assert m in sp.l1.Values;
    assert Page(vm0.pt, sp.l1[i], Dirs(sp.l0), i * ENTRIES);
    MidStanding(r, sp, i, 0);
    assert Below(sp, i) + Under(sp, i, 0) == Below(sp, i);
  }

  lemma MidEnds(vm0: Vm, vm: Vm, vm1: Vm, r: nat, sp: Space, i: nat, m: nat)
    requires Doomed(vm0, r, sp) && i in sp.l1 && m == sp.l1[i]
    requires Dying(vm0, vm, r, sp, Below(sp, i) + Under(sp, i, ENTRIES), {r, m})
    requires m in vm.mem && m in vm.pt
    requires vm1.spaces == vm.spaces && vm1.owner == vm.owner[m := Free] && vm1.mem == vm.mem[m := Filled(1)]
    requires vm1.pt == vm.pt[m := FilledTable(1)]
    ensures Dying(vm0, vm1, r, sp, Below(sp, i + 1), {r})
  {
    assert DoomedBy(Shaped, vm0, r, sp) && DoomedBy(Held, vm0, r, sp);
    assert m in sp.l1.Values;
    DyingFreed(vm0, vm, vm1, r, sp, Below(sp, i) + Under(sp, i, ENTRIES), {r, m}, m);
    BelowStep(sp, i);
  }

  /** The root's entries from index i on are as they were. */
  ghost predicate RowFrom(row: seq<Pte>, l1: map<nat, nat>, i: nat) {
    |row| == ENTRIES && forall k :: i <= k < ENTRIES ==> row[k] == Get(Dirs(l1), k)
  }

  datatype Raze = Gone | Row

  ghost predicate RazedBy(u: Raze, vm0: Vm, vm: Vm, r: nat, sp: Space, i: nat) {
    match u
    case Gone => Dying(vm0, vm, r, sp, Below(sp, i), {r})
    case Row => r in vm.pt && RowFrom(vm.pt[r], sp.l1, i)
  }

  /** freewalk has dealt with the entries of the root below i. */
  ghost predicate Razed(vm0: Vm, vm: Vm, r: nat, sp: Space, i: nat) {
    forall u :: RazedBy(u, vm0, vm, r, sp, i)
  }

  lemma RootStarts(vm0: Vm, r: nat, sp: Space)
    requires Doomed(vm0, r, sp)
    ensures Razed(vm0, vm0, r, sp, 0)
  {
    assert Below(sp, 0) == {};
    assert DoomedBy(Standing, vm0, r, sp);
    assert Page(vm0.pt, r, Dirs(sp.l1), 0);
    assert Freed(vm0.owner, {}) == vm0.owner;
    assert forall k :: 0 <= k < ENTRIES ==> vm0.pt[r][k] == Get(Dirs(sp.l1), 0 + k);
  }

  /** The root itself is freed last. */
  lemma RootStands(vm0: Vm, vm: Vm, r: nat, sp: Space, i: nat)
    requires Doomed(vm0, r, sp) && Dying(vm0, vm, r, sp, Below(sp, i), {r})
    ensures r !in Below(sp, i) && r in vm.owner && vm.owner[r] == Kernel && r in vm.mem && r in vm.pt
  {
    assert DoomedBy(Held, vm0, r, sp) && DoomedBy(Shaped, vm0, r, sp);
  }

  lemma NothingBelow(vm0: Vm, r: nat, sp: Space, i: nat)
    requires Doomed(vm0, r, sp) && i !in sp.l1
    ensures Below(sp, i + 1) == Below(sp, i)
  {
    assert DoomedBy(Shaped, vm0, r, sp);
    BelowStep(sp, i);
    BelowNone(sp, i);
  }

  lemma RootEnds(vm0: Vm, vm: Vm, vm1: Vm, r: nat, sp: Space)
    requires Doomed(vm0, r, sp) && Dying(vm0, vm, r, sp, Below(sp, ENTRIES), {r}) && r in vm.mem && r in vm.pt
    requires vm1.spaces == vm.spaces && vm1.owner == vm.owner[r := Free] && vm1.mem == vm.mem[r := Filled(1)]
    requires vm1.pt == vm.pt[r := FilledTable(1)]
    ensures Dying(vm0, vm1, r, sp, TablePages(r, sp), {r})
  {
    assert DoomedBy(Held, vm0, r, sp);
    DyingFreed(vm0, vm, vm1, r, sp, Below(sp, ENTRIES), {r}, r);
    AllBelow(vm0, r, sp);
    assert Below(sp, ENTRIES) + {r} == TablePages(r, sp);
  }

  lemma AllBelow(vm0: Vm, r: nat, sp: Space)
    requires Doomed(vm0, r, sp)
    ensures Below(sp, ENTRIES) == sp.l1.Values + sp.l0.Values
  {
    assert DoomedBy(Shaped, vm0, r, sp);
    assert forall h :: h in sp.l0 ==> h / ENTRIES < ENTRIES;
  }

  lemma DissolvedDoomed(vm: Vm, r: nat)
    requires Good(vm) && r in vm.spaces && vm.spaces[r].flat == map[]
    ensures Doomed(Dissolved(vm, r), r, vm.spaces[r])
  {
    var vm0, sp := Dissolved(vm, r), vm.spaces[r];
    forall u
      ensures DoomedBy(u, vm0, r, sp)
    {
      Opened(vm, r);
      match u
      case Shaped => OnceEach(vm, r);
      case Standing =>
      case Held =>
        forall p | p in TablePages(r, sp)
          ensures p in vm0.owner && vm0.owner[p] == Kernel && p in vm0.pt && p in vm0.mem
        {
          TableIn(vm, r, p);
          DissolvedOwners(vm, r, p);
        }
    }
  }

  lemma TableIn(vm: Vm, r: nat, p: nat)
    requires Good(vm) && r in vm.spaces && p in TablePages(r, vm.spaces[r])
    ensures p in vm.owner
  {
    Opened(vm, r);
    var sp := vm.spaces[r];
    if p in sp.l1.Values {
      var i :| i in sp.l1 && sp.l1[i] == p;
    } else if p in sp.l0.Values {
      var h :| h in sp.l0 && sp.l0[h] == p;
    }
  }

  lemma OnceEach(vm: Vm, r: nat)
    requires Good(vm) && r in vm.spaces
    ensures Distinct(r, vm.spaces[r])
  {
    Opened(vm, r);
    var sp := vm.spaces[r];
    forall i | i in sp.l1
      ensures vm.owner[sp.l1[i]] == Mid(r, i)
    {
    }
    forall h | h in sp.l0
      ensures vm.owner[sp.l0[h]] == Low(r, h)
    {
    }
  }

  lemma Freewalked(vm: Vm, vm0: Vm, vm1: Vm, r: nat, sp: Space)
    requires Good(vm) && r in vm.spaces && sp == vm.spaces[r] && vm0 == Dissolved(vm, r)
    requires Good(vm1) && Dying(vm0, vm1, r, sp, TablePages(r, sp), {r})
    ensures vm1.owner == Freed(vm.owner, TablePages(r, sp)) && Around(vm, vm1, r)
  {
    Covered(vm);
    Covered(vm1);
    assert r in vm.owner && vm.owner[r] == Root by {
      Opened(vm, r);
    }
    forall p | p in vm.owner
      ensures p == r || TableOwner(vm.owner[p], r) <==> p in TablePages(r, sp)
    {
      DissolvedOwners(vm, r, p);
    }
  }

  /** No page belongs to a space at r any more. */
  ghost predicate NobodyAt(vm: Vm, r: nat) {
    r !in vm.spaces && forall p :: p in vm.owner ==>
        !TableOwner(vm.owner[p], r) && (vm.owner[p].User? ==> vm.owner[p].root != r)
  }

  lemma NobodyLeft(vm: Vm, r: nat)
    requires Good(vm) && r !in vm.spaces
    ensures NobodyAt(vm, r)
  {
    assert Holds(Backing, vm);
    forall p | p in vm.owner
      ensures !TableOwner(vm.owner[p], r) && (vm.owner[p].User? ==> vm.owner[p].root != r)
    {
      assert Backed(vm.owner, vm.spaces, p);
    }
  }

  lemma OnlyOne(vm: Vm, vm1: Vm, vm2: Vm, r: nat)
    requires Around(vm, vm1, r) && r in vm.spaces && r in vm1.spaces && vm2.spaces == vm1.spaces - {r}
    ensures vm2.spaces == vm.spaces - {r}
  {
  }

  lemma FreedMore(owner: map<nat, Owner>, s: set<nat>, p: nat)
    requires p in owner
    ensures Freed(owner, s)[p := Free] == Freed(owner, s + {p})
  {
  }

  class Machine {
    var freelist: seq<nat>
    var pt: map<nat, seq<Pte>>
    var mem: map<nat, Data>
    ghost var owner: map<nat, Owner>
    ghost var spaces: map<nat, Space>

    ghost function V(): Vm
      reads this
    {
      Vm(freelist, pt, mem, owner, spaces)
    }

    ghost predicate Valid()
      reads this
    {
      Good(V())
    }

    /** kinit: every whole page from `end` to `phystop` is free. */
    constructor (end: nat, phystop: nat)
      ensures Valid() && spaces == map[] && owner == Uniform(Range(Pages(end), Whole(end, phystop)), Free)
    {
      new;
      spaces := map[];
      ghost var all := Range(Pages(end), Whole(end, phystop));
      owner := Uniform(all, Kernel);
      freelist := [];
      var blank := Blank(Pages(end), Whole(end, phystop));
      pt, mem := blank.0, blank.1;
      Startup(V(), all);
      Freerange(end, phystop);
    }

    /** freerange. */
    method Freerange(paStart: nat, paEnd: nat)
      requires Valid()
      requires forall p :: p in Range(Pages(paStart), Whole(paStart, paEnd)) ==> p in owner && owner[p] == Kernel
      modifies this
      ensures Valid() && spaces == old(spaces)
      ensures owner == Freed(old(owner), Range(Pages(paStart), Whole(paStart, paEnd)))
    {
      PagesIs(paStart);
      ghost var lo := Pages(paStart);
      var p := PGROUNDUP(paStart) / PGSIZE;
      WholeStep(paStart, paEnd, p);
      assert owner == Freed(owner, Range(lo, 0));
      while (p + 1) * PGSIZE <= paEnd
        invariant lo <= p <= lo + Whole(paStart, paEnd) && Valid() && spaces == old(spaces)
        invariant owner == Freed(old(owner), Range(lo, p - lo))
        invariant (p + 1) * PGSIZE <= paEnd <==> p < lo + Whole(paStart, paEnd)
        decreases paEnd - p * PGSIZE
      {
        FreedMore(old(owner), Range(lo, p - lo), p);
        Kfree(p);
        p := p + 1;
        assert Range(lo, p - lo) == Range(lo, p - 1 - lo) + {p - 1};
        WholeStep(paStart, paEnd, p);
      }
    }

    /** availmemory: the bytes in free pages. */
    method Availmemory() returns (avail: nat)
      requires Valid()
      ensures avail == PGSIZE * |FreePages(owner)|
    {
      avail := 0;
      var k := 0;
      while k < |freelist|
        invariant 0 <= k <= |freelist| && avail == PGSIZE * k
      {
        avail := avail + PGSIZE;
        k := k + 1;
      }
      FreeCount(V());
    }

    /** kalloc: any free page, filled with 5s, or -1. */
    method Kalloc() returns (p: int)
      requires Valid()
      modifies this
      ensures Valid() && spaces == old(spaces)
      ensures p == -1 ==> old(freelist) == [] && V() == old(V())
      ensures p != -1 ==> p >= 0 && p in old(owner) && old(owner)[p] == Free && owner == old(owner)[p := Kernel]
      ensures p != -1 ==> p in old(pt) && p in old(mem) && mem == old(mem)[p := Filled(5)]
      ensures p != -1 ==> pt == old(pt)[p := FilledTable(5)]
      ensures p != -1 ==> old(freelist) == [p] + freelist
    {
      ghost var vm := V();
      if freelist == [] {
        return -1;
      }
      var q := freelist[0];
      ghost var o := owner;
      assert q in owner && q in pt && q in mem by {
        assert Holds(Freelist, vm) && Holds(Trees, vm);
      }
      freelist := freelist[1..];
      mem := mem[q := Filled(5)];
      pt := pt[q := FilledTable(5)];
      owner := owner[q := Kernel];
      PopGood(vm, V(), q);
      p := q;
    }

    /** kfree of a page that only the kernel holds. */
    method Kfree(p: nat)
      requires Valid() && p in owner && owner[p] == Kernel
      modifies this
      ensures Valid() && spaces == old(spaces) && owner == old(owner)[p := Free] && freelist == [p] + old(freelist)
      ensures mem == old(mem)[p := Filled(1)] && pt == old(pt)[p := FilledTable(1)]
    {
      ghost var vm := V();
      assert p in pt && p in mem by {
        assert Holds(Trees, vm);
      }
      mem := mem[p := Filled(1)];
      pt := pt[p := FilledTable(1)];
      freelist := [p] + freelist;
      owner := owner[p := Free];
      PushGood(vm, V(), p);
    }

    /** memset(p, 0, PGSIZE) on a page that only the kernel holds. */
    method Clear(p: nat)
      requires Valid() && p in owner && owner[p] == Kernel
      modifies this`mem, this`pt
      ensures Valid() && mem == old(mem)[p := Filled(0)] && pt == old(pt)[p := Zeros()]
    {
      ghost var vm := V();
      assert Holds(Trees, vm) && Holds(Freelist, vm);
      mem := mem[p := Filled(0)];
      pt := pt[p := FilledTable(0)];
      assert Holds(Freelist, V());
      FreeMove(vm, V(), p, Kernel);
    }

    /** The table page that walk has reached when `level` levels are left. */
    ghost predicate At(r: nat, vpn: nat, level: nat, page: nat)
      reads this
    {
      && r in spaces && level <= 2
      && (level == 2 ==> page == r)
      && (level == 1 ==> vpn / ENTRIES / ENTRIES in spaces[r].l1 && page == spaces[r].l1[vpn / ENTRIES / ENTRIES])
      && (level == 0 ==> vpn / ENTRIES in spaces[r].l0 && page == spaces[r].l0[vpn / ENTRIES])
    }

    /** The next table page is missing. */
    ghost predicate Missing(r: nat, vpn: nat, level: nat)
      reads this
    {
      && r in spaces
      && (if level == 2 then vpn / ENTRIES / ENTRIES !in spaces[r].l1
          else vpn / ENTRIES / ENTRIES in spaces[r].l1 && vpn / ENTRIES !in spaces[r].l0)
    }

    /** kalloc and memset for a table page. */
    method NewTable() returns (p: int)
      requires Valid()
      modifies this
      ensures Valid()
      ensures p == -1 ==> old(freelist) == [] && V() == old(V())
      ensures p != -1 ==> p >= 0 && Zeroed(old(V()), V(), p) && |old(freelist)| == |freelist| + 1
    {
      p := Kalloc();
      if p != -1 {
        Clear(p);
      }
    }

    /** A round of walk that has to make the middle table. */
    method LinkMid(r: nat, i: nat) returns (p: int)
      requires Valid() && r in spaces && i < MAXTOP && i !in spaces[r].l1
      modifies this
      ensures Valid() && TableGrowth(old(V()), V(), r)
      ensures p == -1 ==> old(freelist) == [] && V() == old(V())
      ensures p != -1 ==> p >= 0 && i in spaces[r].l1 && spaces[r].l1[i] == p && |old(freelist)| == |freelist| + 1
      ensures p != -1 ==> spaces[r].l1.Keys == old(spaces[r].l1.Keys) + {i} && spaces[r].l0 == old(spaces[r].l0)
    {
      ghost var vm := V();
      SameGrowth(vm, r);
      p := NewTable();
      if p != -1 {
        ghost var vm1 := V();
        AddMidGood(vm1, r, i, p);
        AddMidGrowth(vm, vm1, r, i, p);
        pt := pt[r := pt[r][i := Dir(p)]];
        owner := owner[p := Mid(r, i)];
        spaces := spaces[r := spaces[r].(l1 := spaces[r].l1[i := p])];
        assert V() == AddMid(vm1, r, i, p);
      }
    }

    /** A round of walk that has to make the lowest table, in the middle table m. */
    method LinkLow(r: nat, h: nat, m: nat) returns (p: int)
      requires Valid() && r in spaces && h < MAXHI && h !in spaces[r].l0
      requires h / ENTRIES in spaces[r].l1 && m == spaces[r].l1[h / ENTRIES] && m in pt && |pt[m]| == ENTRIES
      modifies this
      ensures Valid() && TableGrowth(old(V()), V(), r)
      ensures p == -1 ==> old(freelist) == [] && V() == old(V())
      ensures p != -1 ==> p >= 0 && h in spaces[r].l0 && spaces[r].l0[h] == p && |old(freelist)| == |freelist| + 1
      ensures p != -1 ==> spaces[r].l0.Keys == old(spaces[r].l0.Keys) + {h} && spaces[r].l1 == old(spaces[r].l1)
    {
      ghost var vm := V();
      SameGrowth(vm, r);
      p := NewTable();
      if p != -1 {
        ghost var vm1 := V();
        ZeroedElsewhere(vm, vm1, r, h, m, p);
        AddLowGood(vm1, r, h, p);
        AddLowGrowth(vm, vm1, r, h, p);
        pt := pt[m := pt[m][h % ENTRIES := Dir(p)]];
        owner := owner[p := Low(r, h)];
        spaces := spaces[r := spaces[r].(l0 := spaces[r].l0[h := p])];
      }
    }

    /** One round of walk's loop. */
    method Descend(r: nat, vpn: nat, level: nat, page: nat, alloc: bool) returns (next: int)
      requires Valid() && vpn < MAXVPN && 1 <= level <= 2 && At(r, vpn, level, page)
      modifies this
      ensures Valid() && TableGrowth(old(V()), V(), r) && (!alloc ==> V() == old(V()))
      ensures next != -1 ==> next >= 0 && At(r, vpn, level - 1, next) && Went(old(V()), V(), r, vpn, level)
      ensures next == -1 ==> V() == old(V()) && Missing(r, vpn, level) && (alloc ==> freelist == [])
    {
      VpnDigits(vpn);
      SameGrowth(V(), r);
      ghost var hi: nat := vpn / ENTRIES;
      if level == 2 {
        ReadTop(V(), r, Index(2, vpn));
      } else {
        ReadMid(V(), r, hi);
      }
      var e := pt[page][Index(level, vpn)];
      if e.flags % 2 == 1 {
        return e.ppn;
      }
      if !alloc {
        return -1;
      }
      if level == 2 {
        next := LinkMid(r, vpn / ENTRIES / ENTRIES);
      } else {
        next := LinkLow(r, vpn / ENTRIES, page);
      }
    }

    /** walk: the slot of vpn's leaf entry, or false. */
    method Walk(r: nat, vpn: nat, alloc: bool) returns (ok: bool, t: nat, j: nat)
      requires Valid() && r in spaces && vpn < MAXVPN
      modifies this
      ensures Valid() && TableGrowth(old(V()), V(), r) && (!alloc ==> V() == old(V()))
      ensures ok ==> SlotOf(spaces[r], vpn, t, j) && t in pt && |pt[t]| == ENTRIES
      ensures ok ==> pt[t][j] == Get(spaces[r].flat, vpn)
      ensures !ok ==> vpn / ENTRIES !in spaces[r].l0 && vpn !in spaces[r].flat && (alloc ==> freelist == [])
      ensures ok ==> Charged(old(V()), V(), r, vpn, 0)
      ensures !ok && alloc ==> TooFew(old(V()), r, vpn, 0)
    {
      ghost var vm := V();
      SameGrowth(vm, r);
      var level: nat, page: nat := 2, r;
      while level > 0
        invariant 0 <= level <= 2 && Valid() && At(r, vpn, level, page)
        invariant TableGrowth(vm, V(), r) && (!alloc ==> V() == vm) && (level == 2 ==> V() == vm)
        invariant (level == 1 ==> Went(vm, V(), r, vpn, 2)) && (level == 0 ==> Charged(vm, V(), r, vpn, 0))
      {
        ghost var vm1 := V();
        var next := Descend(r, vpn, level, page, alloc);
        TableGrowthTrans(vm, vm1, V(), r);
        if next == -1 {
          NotMapped(V(), r, vpn);
          if level == 1 && alloc {
            WentShort(vm, V(), r, vpn);
          }
          return false, 0, 0;
        }
        if level == 1 {
          WentDown(vm, vm1, V(), r, vpn);
        }
        level, page := level - 1, next;
      }
      ReadLow(V(), r, vpn);
      return true, page, vpn % ENTRIES;
    }

    /** One round of mappages: false when walk cannot get a table page.  With give, the page at ppn, so
        far the kernel's, becomes the space's own. */
    method MapPage(r: nat, vpn: nat, ppn: nat, perm: nat, ghost give: bool) returns (ok: bool)
      requires Valid() && r in spaces && vpn < MAXVPN && vpn !in spaces[r].flat && Leaf(Pte(ppn, WithValid(perm)))
      requires give ==> ppn in owner && owner[ppn] == Kernel
      modifies this
      ensures Valid() && r in spaces && spaces.Keys == old(spaces.Keys)
      ensures !ok ==> TableGrowth(old(V()), V(), r) && freelist == [] && TooFew(old(V()), r, vpn, 0)
      ensures ok ==> Mapped(old(V()), V(), r, vpn, Pte(ppn, WithValid(perm)), give) && Charged(old(V()), V(), r, vpn, 0)
    {
      ghost var vm := V();
      var t, j;
      ok, t, j := Walk(r, vpn, true);
      if !ok {
        return;
      }
      assert pt[t][j].flags % 2 == 0;
      PutLeaf(r, vpn, t, j, Pte(ppn, WithValid(perm)), give, vm);
    }

    method PutLeaf(r: nat, vpn: nat, t: nat, j: nat, e: Pte, ghost give: bool, ghost vm: Vm)
      requires Good(vm) && Valid() && TableGrowth(vm, V(), r) && SlotOf(spaces[r], vpn, t, j) && t in pt
      requires |pt[t]| == ENTRIES
      requires vpn < MAXVPN && vpn !in spaces[r].flat && e.flags % 2 == 1 && Leaf(e)
      requires give ==> e.ppn in vm.owner && vm.owner[e.ppn] == Kernel
      modifies this`pt, this`owner, this`spaces
      ensures Valid() && Mapped(vm, V(), r, vpn, e, give) && spaces.Keys == old(spaces.Keys)
      ensures spaces[r].l1 == old(spaces[r].l1) && spaces[r].l0 == old(spaces[r].l0)
    {
      ghost var vm1 := V();
      SetLeafGood(vm1, r, vpn, e, give);
      MappedBy(vm, vm1, r, vpn, e, give);
      pt := pt[t := pt[t][j := e]];
      owner := if give then owner[e.ppn := User(r, vpn)] else owner;
      spaces := spaces[r := spaces[r].(flat := spaces[r].flat[vpn := e],
                                       user := if give then spaces[r].user + {vpn} else spaces[r].user)];
      assert V() == SetLeaf(vm1, r, vpn, e, give);
    }

    /** mappages of pages that are not the space's own: exactly the range is mapped, or k < n pages of it. */
    method Mappages(r: nat, va: nat, size: nat, pa: nat, perm: nat) returns (ok: bool, ghost k: nat)
      requires Valid() && r in spaces && size > 0 && va + size <= MAXVA && Leaf(Pte(0, WithValid(perm)))
      requires forall v :: va / PGSIZE <= v <= (va + size - 1) / PGSIZE ==> v !in spaces[r].flat
      modifies this
      ensures Valid() && Laid(old(V()), V(), r, va / PGSIZE, k, pa / PGSIZE, WithValid(perm))
      ensures spaces.Keys == old(spaces.Keys)
      ensures ok ==> k == PagesOf(va, size)
      ensures !ok ==> k < PagesOf(va, size) && freelist == []
      ensures ok <==> Slack(old(V()), r, va / PGSIZE, PagesOf(va, size), 0) >= 0
      ensures ok ==> Slack(old(V()), r, va / PGSIZE, PagesOf(va, size), 0) == |freelist|
      ensures ok ==> Reached(old(V()), V(), r, va / PGSIZE, k)
    {
      LastPage(va, size);
      ok, k := MapRange(r, va / PGSIZE, (va + size - 1) / PGSIZE, pa / PGSIZE, perm);
    }

    /** Its loop, over page numbers. */
    method MapRange(r: nat, lo: nat, last: nat, p0: nat, perm: nat) returns (ok: bool, ghost k: nat)
      requires Valid() && r in spaces && lo <= last < MAXVPN && Leaf(Pte(0, WithValid(perm)))
      requires forall v :: lo <= v <= last ==> v !in spaces[r].flat
      modifies this
      ensures Valid() && Laid(old(V()), V(), r, lo, k, p0, WithValid(perm)) && spaces.Keys == old(spaces.Keys)
      ensures if ok then k == last + 1 - lo else k < last + 1 - lo && freelist == []
      ensures ok <==> Slack(old(V()), r, lo, last + 1 - lo, 0) >= 0
      ensures ok ==> Slack(old(V()), r, lo, last + 1 - lo, 0) == |freelist| && Reached(old(V()), V(), r, lo, k)
    {
      ghost var vm := V();
      var a, p := lo, p0;
      LaidNone(vm, r, lo, p, WithValid(perm));
      k := 0;
      while true
        invariant a == lo + k <= last && p == p0 + k
        invariant Valid() && Laid(vm, V(), r, lo, k, p0, WithValid(perm)) && spaces.Keys == vm.spaces.Keys
        invariant Slack(V(), r, a, last + 1 - a, 0) == Slack(vm, r, lo, last + 1 - lo, 0) && Reached(vm, V(), r, lo, k)
        decreases last - a
      {
        ghost var vm1 := V();
        ok, k := MapRound(r, lo, k, p0, a, p, perm, vm);
        if !ok {
          SlackShort(vm1, r, a, last + 1 - a, 0);
          return;
        }
        SlackStep(vm1, V(), r, a, last + 1 - a, 0);
        ReachedMore(vm, vm1, V(), r, lo, k - 1);
        if a == last {
          return;
        }
        a, p := a + 1, p + 1;
      }
    }

    method MapRound(r: nat, ghost lo: nat, ghost k: nat, ghost p0: nat, a: nat, p: nat, perm: nat, ghost vm: Vm)
      returns (ok: bool, ghost done: nat)
      requires Valid() && Laid(vm, V(), r, lo, k, p0, WithValid(perm)) && a == lo + k < MAXVPN && p == p0 + k
      requires r in vm.spaces && a !in vm.spaces[r].flat && Leaf(Pte(0, WithValid(perm)))
      modifies this
      ensures Valid() && Laid(vm, V(), r, lo, done, p0, WithValid(perm)) && spaces.Keys == old(spaces.Keys)
      ensures done == if ok then k + 1 else k
      ensures !ok ==> freelist == [] && TooFew(old(V()), r, a, 0)
      ensures ok ==> Charged(old(V()), V(), r, a, 0)
    {
      ghost var vm1 := V();
      assert LaidBy(Leaves, vm, vm1, r, lo, k, p0, WithValid(perm));
      ok := MapPage(r, a, p, perm, false);
      if ok {
        LaidMore(vm, vm1, V(), r, lo, k, p0, WithValid(perm));
        done := k + 1;
      } else {
        LaidGrowth(vm, vm1, V(), r, lo, k, p0, WithValid(perm));
        done := k;
      }
    }

    /** uvmcreate: a new space without pages, or -1. */
    method Uvmcreate() returns (r: int)
      requires Valid()
      modifies this
      ensures Valid()
      ensures r == -1 ==> V() == old(V()) && freelist == []
      ensures r != -1 ==> r >= 0 && r !in old(spaces) && spaces == old(spaces)[r := EMPTY] && Around(old(V()), V(), r)
      ensures r != -1 ==> |old(freelist)| == |freelist| + 1
    {
      ghost var vm := V();
      r := NewTable();
      if r != -1 {
        ghost var vm1 := V();
        NewRootGood(vm1, r);
        owner := owner[r := Root];
        spaces := spaces[r := EMPTY];
        Created(vm, V(), r);
      }
    }

    /** One round of uvmunmap.  The page is freed after its entry is cleared; the two touch different pages. */
    method UnmapPage(r: nat, vpn: nat, doFree: bool)
      requires Valid() && r in spaces && vpn in spaces[r].flat && (doFree <==> vpn in spaces[r].user)
      modifies this
      ensures Valid() && Unmapped(old(V()), V(), r, vpn, 1)
    {
      ghost var vm := V();
      InRange(vm, r, vpn);
      var ok, t, j := Walk(r, vpn, false);
      var e := pt[t][j];
      assert e.flags % 2 == 1 && e.flags != PTE_V;
      ClearLeafGood(vm, r, vpn);
      pt := pt[t := pt[t][j := NONE]];
      owner := if vpn in spaces[r].user then owner[e.ppn := Kernel] else owner;
      spaces := spaces[r := spaces[r].(flat := spaces[r].flat - {vpn}, user := spaces[r].user - {vpn})];
      assert V() == ClearLeaf(vm, r, vpn);
      if doFree {
        Kfree(e.ppn);
      }
      ClearedOne(vm, r, vpn, V());
    }

    /** uvmunmap of n pages from page number lo on: the mappings must exist. */
    method Uvmunmap(r: nat, lo: nat, n: nat, doFree: bool)
      requires Valid() && r in spaces
      requires forall v :: lo <= v < lo + n ==> v in spaces[r].flat && (doFree <==> v in spaces[r].user)
      modifies this
      ensures Valid() && Unmapped(old(V()), V(), r, lo, n)
    {
      ghost var vm := V();
      UnmappedNone(vm, r, lo);
      assert forall u :: ShrinkingBy(u, vm, vm, r, lo, 0, n, doFree);
      var k := 0;
      while k < n
        invariant 0 <= k <= n && Valid() && Shrinking(vm, V(), r, lo, k, n, doFree)
      {
        UnmapRound(r, lo, k, n, doFree, vm);
        k := k + 1;
      }
      assert ShrinkingBy(Leaves, vm, V(), r, lo, n, n, doFree);
    }

    method UnmapRound(r: nat, lo: nat, k: nat, n: nat, doFree: bool, ghost vm: Vm)
      requires Valid() && k < n && Shrinking(vm, V(), r, lo, k, n, doFree)
      modifies this
      ensures Valid() && Shrinking(vm, V(), r, lo, k + 1, n, doFree)
    {
      assert ShrinkingBy(Leaves, vm, V(), r, lo, k, n, doFree) && ShrinkingBy(Rest, vm, V(), r, lo, k, n, doFree);
      ghost var vm1 := V();
      UnmapPage(r, lo + k, doFree);
      UnmappedMore(vm, vm1, V(), r, lo, k);
    }

    /** A page taken from the free list of vm and filled is mapped at v, or goes back when walk fails. */
    method PlacePage(r: nat, v: nat, p: nat, perm: nat, ghost vm: Vm, ghost want: map<nat, Want>) returns (ok: bool)
      requires Good(vm) && Valid() && r in spaces && v < MAXVPN && v !in spaces[r].flat && Leaf(Pte(p, WithValid(perm)))
      requires Taken(vm, V(), p) && v in want && p in mem && want[v] == Want(WithValid(perm), mem[p])
      requires |vm.freelist| == |freelist| + 1
      modifies this
      ensures Valid() && spaces.Keys == old(spaces.Keys)
      ensures ok ==> Growing(vm, V(), r, v, 1, want) && Charged(vm, V(), r, v, 1)
      ensures !ok ==> TableGrowth(vm, V(), r) && TooFew(vm, r, v, 1)
    {
      ghost var vm1 := V();
      ok := MapPage(r, v, p, perm, true);
      if ok {
        EnlargedOne(vm, vm1, V(), r, v, p, want);
        UserMapped(vm, r);
      } else {
        ghost var vm2 := V();
        Kfree(p);
        PoppedReturned(vm, vm1, vm2, V(), r, p);
      }
    }

    /** One round of uvmalloc: a zeroed page is mapped at v, or nothing but table pages changes. */
    method AllocPage(r: nat, v: nat, perm: nat, ghost want: map<nat, Want>) returns (ok: bool)
      requires Valid() && r in spaces && v < MAXVPN && v !in spaces[r].flat && Leaf(Pte(0, WithValid(perm)))
      requires v in want && want[v] == Want(WithValid(perm), Filled(0))
      modifies this
      ensures Valid() && spaces.Keys == old(spaces.Keys)
      ensures ok ==> Growing(old(V()), V(), r, v, 1, want) && Charged(old(V()), V(), r, v, 1)
      ensures !ok ==> TableGrowth(old(V()), V(), r) && TooFew(old(V()), r, v, 1)
    {
      ghost var vm := V();
      SameGrowth(vm, r);
      var p := Kalloc();
      if p == -1 {
        return false;
      }
      Clear(p);
      ok := PlacePage(r, v, p, perm, vm, want);
    }

    /** uvmdealloc: the pages above newsz are unmapped and freed. */
    method Uvmdealloc(r: nat, oldsz: nat, newsz: nat) returns (sz: nat)
      requires Valid() && r in spaces
      requires forall v :: Pages(newsz) <= v < Pages(oldsz) ==> v in spaces[r].flat && v in spaces[r].user
      modifies this
      ensures Valid() && sz == (if newsz >= oldsz then oldsz else newsz)
      ensures Unmapped(old(V()), V(), r, Pages(newsz), Span(newsz, oldsz))
    {
      PagesMonotone(newsz, oldsz);
      PagesIs(newsz);
      UnmappedNone(V(), r, Pages(newsz));
      if newsz >= oldsz {
        return oldsz;
      }
      if PGROUNDUP(newsz) < PGROUNDUP(oldsz) {
        Uvmunmap(r, PGROUNDUP(newsz) / PGSIZE, (PGROUNDUP(oldsz) - PGROUNDUP(newsz)) / PGSIZE, true);
      }
      return newsz;
    }

    /** One round of uvmalloc, with the clean-up when it fails. */
    method GrowRound(r: nat, lo: nat, k: nat, perm: nat, ghost left: nat, ghost vm: Vm, ghost want: map<nat, Want>)
        returns (ok: bool)
      requires Valid() && Growing(vm, V(), r, lo, k, want) && Leaf(Pte(0, WithValid(perm)))
      requires lo + k in want && want[lo + k] == Want(WithValid(perm), Filled(0))
      requires lo + k < MAXVPN && r in vm.spaces && r in spaces && left > 0
      requires forall v :: lo <= v <= lo + k ==> v !in vm.spaces[r].flat
      modifies this
      ensures Valid() && r in spaces
      ensures ok ==> Growing(vm, V(), r, lo, k + 1, want)
      ensures ok ==> Slack(V(), r, lo + k + 1, left - 1, 1) == old(Slack(V(), r, lo + k, left, 1))
      ensures !ok ==> Restored(vm, V(), r) && old(Slack(V(), r, lo + k, left, 1)) < 0
    {
      assert GrowingBy(Leaves, vm, V(), r, lo, k, want) && GrowingBy(Rest, vm, V(), r, lo, k, want);
      ghost var vm1 := V();
      var v := lo + k;
      ok := AllocPage(r, v, perm, want);
      Charge(vm1, V(), r, v, left, ok);
      Settle(r, lo, k, v, ok, vm, vm1, want);
    }

    /** After a round that tried to add page v to vm1: on failure the pages added so far go. */
    method Settle(r: nat, lo: nat, k: nat, ghost v: nat, ok: bool, ghost vm: Vm, ghost vm1: Vm, ghost want: map<nat,
        Want>)
      requires Valid() && Good(vm1) && Growing(vm, vm1, r, lo, k, want) && r in vm.spaces
      requires forall v :: lo <= v < lo + k ==> v !in vm.spaces[r].flat
      requires v == lo + k && (ok ==> Growing(vm1, V(), r, v, 1, want))
      requires !ok ==> TableGrowth(vm1, V(), r)
      modifies this
      ensures Valid() && r in spaces
      ensures ok ==> Growing(vm, V(), r, lo, k + 1, want) && V() == old(V())
      ensures !ok ==> Restored(vm, V(), r)
    {
      assert GrowingBy(Leaves, vm, vm1, r, lo, k, want) && GrowingBy(Rest, vm, vm1, r, lo, k, want);
      if ok {
        assert GrowingBy(Leaves, vm1, V(), r, v, 1, want);
        EnlargedMore(vm, vm1, V(), r, lo, k, want);
      } else {
        GrowthUndone(vm, vm1, V(), r, lo, k, want);
        Undo(r, lo, k, want, vm);
      }
    }

    /** uvmalloc: the space grows to newsz, or on failure is what it was, but for table pages.  xperm is
        some of PTE_W and PTE_X. */
    method Uvmalloc(r: nat, oldsz: nat, newsz: nat, xperm: nat) returns (sz: nat)
      requires Valid() && r in spaces && xperm in {0, PTE_W, PTE_X, PTE_W + PTE_X}
      requires newsz >= oldsz ==> Pages(newsz) <= MAXVPN
      requires newsz >= oldsz ==> forall v :: Pages(oldsz) <= v < Pages(newsz) ==> v !in spaces[r].flat
      modifies this
      ensures Valid() && r in spaces && (newsz < oldsz ==> sz == oldsz && V() == old(V()))
      ensures newsz >= oldsz ==>
        if Slack(old(V()), r, Pages(oldsz), Span(oldsz, newsz), 1) >= 0
        then sz == newsz && Enlarged(old(V()), V(), r, Pages(oldsz), Span(oldsz, newsz),
                                     Alike(Pages(oldsz), Span(oldsz, newsz),
                                         Want(PTE_V + PTE_R + PTE_U + xperm, Filled(0))))
        else sz == 0 && Restored(old(V()), V(), r)
    {
      if newsz < oldsz {
        return oldsz;
      }
      UserLeaf(xperm);
      PagesMonotone(oldsz, newsz);
      PagesIs(oldsz);
      var ok := Enlarge(r, PGROUNDUP(oldsz) / PGSIZE, newsz, PTE_R + PTE_U + xperm);
      return if ok then newsz else 0;
    }

    /** The loop of uvmalloc, from page lo up to newsz. */
    method Enlarge(r: nat, lo: nat, newsz: nat, perm: nat) returns (ok: bool)
      requires Valid() && r in spaces && lo <= Pages(newsz) <= MAXVPN && Leaf(Pte(0, WithValid(perm)))
      requires forall v :: lo <= v < Pages(newsz) ==> v !in spaces[r].flat
      modifies this
      ensures Valid() && r in spaces
      ensures ok ==> Enlarged(old(V()), V(), r, lo, Pages(newsz) - lo,
              Alike(lo, Pages(newsz) - lo, Want(WithValid(perm), Filled(0))))
      ensures !ok ==> Restored(old(V()), V(), r)
      ensures ok <==> Slack(old(V()), r, lo, Pages(newsz) - lo, 1) >= 0
    {
      ghost var vm := V();
      ghost var want := Alike(lo, Pages(newsz) - lo, Want(WithValid(perm), Filled(0)));
      EnlargedNone(vm, r, lo, want);
      PageBelow(lo, newsz);
      var k := 0;
      while (lo + k) * PGSIZE < newsz
        invariant 0 <= k <= Pages(newsz) - lo && ((lo + k) * PGSIZE < newsz <==> lo + k < Pages(newsz))
        invariant Valid() && r in spaces && Growing(vm, V(), r, lo, k, want)
        invariant Slack(V(), r, lo + k, Pages(newsz) - lo - k, 1) == Slack(vm, r, lo, Pages(newsz) - lo, 1)
        decreases Pages(newsz) - lo - k
      {
        ok := GrowRound(r, lo, k, perm, Pages(newsz) - lo - k, vm, want);
        if !ok {
          return;
        }
        k := k + 1;
        PageBelow(lo + k, newsz);
      }
      assert GrowingBy(Leaves, vm, V(), r, lo, k, want);
      ok := true;
    }

    /** uvmdealloc(pagetable, a, oldsz) after k rounds. */
    method Undo(r: nat, lo: nat, k: nat, ghost want: map<nat, Want>, ghost vm: Vm)
      requires Valid() && r in spaces && Enlarged(vm, V(), r, lo, k, want)
      requires vm.spaces[r].user <= vm.spaces[r].flat.Keys && forall v :: lo <= v < lo + k ==> v !in vm.spaces[r].flat
      modifies this
      ensures Valid() && Restored(vm, V(), r)
    {
      ghost var vm1 := V();
      Uvmunmap(r, lo, k, true);
      EnlargedUndone(vm, vm1, V(), r, lo, k, want);
    }

    /** memmove of a whole page into a page that only the kernel holds. */
    method CopyBytes(p: nat, q: nat)
      requires Valid() && p in owner && owner[p] == Kernel && q in mem && q in pt
      modifies this`mem, this`pt
      ensures Valid() && mem == old(mem)[p := old(mem)[q]] && pt == old(pt)[p := old(pt)[q]]
    {
      ghost var vm := V();
      assert Holds(Trees, vm) && Holds(Freelist, vm);
      mem := mem[p := mem[q]];
      pt := pt[p := pt[q]];
      assert Holds(Freelist, V());
      FreeMove(vm, V(), p, Kernel);
    }

    /** One round of uvmcopy. */
    method CopyPage(o: nat, r: nat, v: nat, ghost want: map<nat, Want>) returns (ok: bool)
      requires Valid() && AsIn(V(), o, v, want) && r in spaces && v !in spaces[r].flat
      modifies this
      ensures Valid() && spaces.Keys == old(spaces.Keys)
      ensures ok ==> Growing(old(V()), V(), r, v, 1, want) && Charged(old(V()), V(), r, v, 1)
      ensures !ok ==> TableGrowth(old(V()), V(), r) && TooFew(old(V()), r, v, 1)
    {
      ghost var vm := V();
      SameGrowth(vm, r);
      InRange(vm, o, v);
      UserPage(vm, o, v);
      var found, t, j := Walk(o, v, false);
      assert found && pt[t][j].flags % 2 == 1;
      var e := pt[t][j];
      var p := Kalloc();
      if p == -1 {
        return false;
      }
      CopyBytes(p, e.ppn);
      ok := PlacePage(r, v, p, e.flags, vm, want);
    }

    method CopyRound(o: nat, r: nat, k: nat, ghost left: nat, ghost vm: Vm, ghost want: map<nat, Want>)
        returns (ok: bool)
      requires Good(vm) && Valid() && Growing(vm, V(), r, 0, k, want) && AsIn(vm, o, k, want) && o != r
      requires r in vm.spaces && r in spaces && left > 0 && forall v :: 0 <= v <= k ==> v !in vm.spaces[r].flat
      modifies this
      ensures Valid() && r in spaces
      ensures ok ==> Growing(vm, V(), r, 0, k + 1, want)
      ensures ok ==> Slack(V(), r, k + 1, left - 1, 1) == old(Slack(V(), r, k, left, 1))
      ensures !ok ==> Restored(vm, V(), r) && old(Slack(V(), r, k, left, 1)) < 0
    {
      assert GrowingBy(Leaves, vm, V(), r, 0, k, want) && GrowingBy(Rest, vm, V(), r, 0, k, want);
      ghost var vm1 := V();
      StillAsIn(vm, vm1, o, r, k, want);
      ok := CopyPage(o, r, k, want);
      Charge(vm1, V(), r, k, left, ok);
      Settle(r, 0, k, k, ok, vm, vm1, want);
    }

    /** uvmcopy: the first sz bytes of o appear in r on pages of its own, with equal flags and contents, or
        r has the leaves it had. */
    method Uvmcopy(o: nat, r: nat, sz: nat) returns (ok: bool)
      requires Valid() && o in spaces && r in spaces && o != r && Range(0, Pages(sz)) <= spaces[o].user
      requires Range(0, Pages(sz)) !! spaces[r].flat.Keys
      modifies this
      ensures Valid() && r in spaces
      ensures ok ==> Enlarged(old(V()), V(), r, 0, Pages(sz), old(Copies(V(), o, Pages(sz))))
      ensures !ok ==> Restored(old(V()), V(), r)
      ensures ok <==> Slack(old(V()), r, 0, Pages(sz), 1) >= 0
    {
      ghost var vm, want := V(), Copies(V(), o, Pages(sz));
      EnlargedNone(vm, r, 0, want);
      PageBelow(0, sz);
      var k := 0;
      while k * PGSIZE < sz
        invariant 0 <= k <= Pages(sz) && (k * PGSIZE < sz <==> k < Pages(sz))
        invariant Valid() && r in spaces && Growing(vm, V(), r, 0, k, want)
        invariant Slack(V(), r, k, Pages(sz) - k, 1) == Slack(vm, r, 0, Pages(sz), 1)
        decreases Pages(sz) - k
      {
        ok := CopyRound(o, r, k, Pages(sz) - k, vm, want);
        if !ok {
          return;
        }
        k := k + 1;
        PageBelow(k, sz);
      }
      assert GrowingBy(Leaves, vm, V(), r, 0, k, want);
      ok := true;
    }

    /** pagetable[i] = 0 in a page that only the kernel holds. */
    method ClearEntry(p: nat, i: nat)
      requires Valid() && p in owner && owner[p] == Kernel && p in pt && i < |pt[p]|
      modifies this`pt
      ensures Valid() && pt == old(pt)[p := old(pt)[p][i := NONE]]
    {
      ghost var vm := V();
      assert Holds(Freelist, vm);
      pt := pt[p := pt[p][i := NONE]];
      assert Holds(Freelist, V());
      FreeMove(vm, V(), p, Kernel);
    }

    /** freewalk on a lowest table: no entry is valid. */
    method FreeLow(p: nat)
      requires Valid() && p in owner && owner[p] == Kernel && p in pt && pt[p] == Zeros()
      modifies this
      ensures Valid() && spaces == old(spaces) && owner == old(owner)[p := Free]
      ensures mem == old(mem)[p := Filled(1)] && pt == old(pt)[p := FilledTable(1)]
    {
      var i := 0;
      while i < ENTRIES
        invariant 0 <= i <= ENTRIES && V() == old(V())
      {
        assert pt[p][i].flags % 2 == 0;
        i := i + 1;
      }
      Kfree(p);
    }

    /** One round of freewalk on the middle table m, which serves prefix i. */
    method FreeMidEntry(m: nat, j: nat, ghost c: set<nat>, ghost r: nat, ghost sp: Space, ghost gone: set<nat>,
        ghost vm0: Vm)
      requires Valid() && j < ENTRIES && m in pt && |pt[m]| == ENTRIES && m !in c && r in pt && r != m && r !in c
      requires Dying(vm0, V(), r, sp, gone, {r, m}) && m in owner && owner[m] == Kernel
      requires c == (if pt[m][j].flags % 2 == 1 then {pt[m][j].ppn} else {}) && !Leaf(pt[m][j])
      requires Reclaimable(vm0, V(), r, sp, c)
      modifies this
      ensures Valid() && Dying(vm0, V(), r, sp, gone + c, {r, m}) && m in owner && owner[m] == Kernel && r in pt
      ensures pt[r] == old(pt)[r]
      ensures m in pt && |pt[m]| == ENTRIES && forall k :: j < k < ENTRIES ==> pt[m][k] == old(pt)[m][k]
    {
      ghost var vm := V();
      var e := pt[m][j];
      if e.flags % 2 == 1 && !Leaf(e) {
        assert e.ppn in c;
        FreeLow(e.ppn);
        DyingFreed(vm0, vm, V(), r, sp, gone, {r, m}, e.ppn);
        ghost var vm1 := V();
        ClearEntry(m, j);
        DyingOpen(vm0, vm1, V(), r, sp, gone + c, {r, m}, m);
      } else {
        assert gone + c == gone;
      }
    }

    method FreeMidRound(m: nat, ghost i: nat, j: nat, ghost r: nat, ghost sp: Space, ghost vm0: Vm)
      requires Doomed(vm0, r, sp) && Valid() && i in sp.l1 && m == sp.l1[i] && j < ENTRIES && m in pt
      requires |pt[m]| == ENTRIES
      requires m in vm0.pt && |vm0.pt[m]| == ENTRIES && pt[m][j] == vm0.pt[m][j] && r in pt && r != m
      requires Dying(vm0, V(), r, sp, Below(sp, i) + Under(sp, i, j), {r, m})
      modifies this
      ensures Valid() && Dying(vm0, V(), r, sp, Below(sp, i) + Under(sp, i, j + 1), {r, m}) && m in owner
      ensures owner[m] == Kernel
      ensures r in pt && pt[r] == old(pt)[r]
      ensures m in pt && |pt[m]| == ENTRIES && forall k :: j < k < ENTRIES ==> pt[m][k] == old(pt)[m][k]
    {
      ghost var h: nat, gone := i * ENTRIES + j, Below(sp, i) + Under(sp, i, j);
      MidFacts(vm0, r, sp, i, j, m, pt[m][j]);
      MidGone(sp, i, j);
      MidRound(vm0, V(), r, sp, gone, i, h, m, pt[m][j]);
      FreeMidEntry(m, j, Child(sp, h), r, sp, gone, vm0);
    }

    /** freewalk on the middle table m of prefix i. */
    method FreeMid(m: nat, ghost i: nat, ghost r: nat, ghost sp: Space, ghost vm0: Vm)
      requires Doomed(vm0, r, sp) && Valid() && i in sp.l1 && m == sp.l1[i] && Dying(vm0, V(), r, sp, Below(sp, i), {r})
      modifies this
      ensures Valid() && Dying(vm0, V(), r, sp, Below(sp, i + 1), {r}) && r in pt && pt[r] == old(pt)[r]
    {
      MidStarts(vm0, V(), r, sp, i, m);
      var j := 0;
      while j < ENTRIES
        invariant 0 <= j <= ENTRIES && Valid() && m in pt && |pt[m]| == ENTRIES && m in owner && owner[m] == Kernel
        invariant Dying(vm0, V(), r, sp, Below(sp, i) + Under(sp, i, j), {r, m})
        invariant r in pt && pt[r] == old(pt)[r] && forall k :: j <= k < ENTRIES ==> pt[m][k] == vm0.pt[m][k]
      {
        FreeMidRound(m, i, j, r, sp, vm0);
        j := j + 1;
      }
      ghost var vm := V();
      Kfree(m);
      MidEnds(vm0, vm, V(), r, sp, i, m);
    }

    /** One round of freewalk on the root. */
    method FreeRootRound(r: nat, i: nat, ghost sp: Space, ghost vm0: Vm)
      requires Doomed(vm0, r, sp) && Valid() && i < ENTRIES && Razed(vm0, V(), r, sp, i)
      modifies this
      ensures Valid() && Razed(vm0, V(), r, sp, i + 1)
    {
      assert RazedBy(Gone, vm0, V(), r, sp, i) && RazedBy(Row, vm0, V(), r, sp, i);
      RootStands(vm0, V(), r, sp, i);
      var e := pt[r][i];
      DirEntry(sp.l1, i, e);
      if e.flags % 2 == 1 && !Leaf(e) {
        FreeMid(e.ppn, i, r, sp, vm0);
        ghost var vm := V();
        RootStands(vm0, vm, r, sp, i + 1);
        ClearEntry(r, i);
        DyingOpen(vm0, vm, V(), r, sp, Below(sp, i + 1), {r}, r);
      } else {
        assert e.flags % 2 == 0;
        NothingBelow(vm0, r, sp, i);
      }
    }

    /** freewalk on the root, for a tree without leaves: every table page is freed, each once. */
    method FreeRoot(r: nat, ghost sp: Space, ghost vm0: Vm)
      requires Doomed(vm0, r, sp) && Valid() && V() == vm0
      modifies this
      ensures Valid() && Dying(vm0, V(), r, sp, TablePages(r, sp), {r})
    {
      RootStarts(vm0, r, sp);
      var i := 0;
      while i < ENTRIES
        invariant 0 <= i <= ENTRIES && Valid() && Razed(vm0, V(), r, sp, i)
      {
        FreeRootRound(r, i, sp, vm0);
        i := i + 1;
      }
      FreeRootPage(r, sp, vm0);
    }

    method FreeRootPage(r: nat, ghost sp: Space, ghost vm0: Vm)
      requires Doomed(vm0, r, sp) && Valid() && Razed(vm0, V(), r, sp, ENTRIES)
      modifies this
      ensures Valid() && Dying(vm0, V(), r, sp, TablePages(r, sp), {r})
    {
      ghost var vm := V();
      assert RazedBy(Gone, vm0, vm, r, sp, ENTRIES);
      RootStands(vm0, vm, r, sp, ENTRIES);
      Kfree(r);
      RootEnds(vm0, vm, V(), r, sp);
    }

    /** freewalk of a space without leaves. */
    method Freewalk(r: nat)
      requires Valid() && r in spaces && spaces[r].flat == map[]
      modifies this
      ensures Valid() && spaces == old(spaces) - {r} && owner == Freed(old(owner), old(TablePages(r, spaces[r])))
      ensures Around(old(V()), V(), r)
    {
      ghost var vm, sp := V(), spaces[r];
      DissolvedGood(vm, r);
      ghost var vm0 := Dissolved(vm, r);
      DissolvedDoomed(vm, r);
      owner, spaces := vm0.owner, vm0.spaces;
      FreeRoot(r, sp, vm0);
      Freewalked(vm, vm0, V(), r, sp);
    }

    /** uvmfree of a space whose only leaves are its own pages below sz: all its pages become free. */
    method Uvmfree(r: nat, sz: nat)
      requires Valid() && r in spaces && spaces[r].flat.Keys == Range(0, Pages(sz))
      requires spaces[r].user == Range(0, Pages(sz))
      modifies this
      ensures Valid() && spaces == old(spaces) - {r} && Around(old(V()), V(), r) && NobodyAt(V(), r)
    {
      ghost var vm := V();
      UnmappedNone(vm, r, 0);
      if sz > 0 {
        PagesIs(sz);
        Uvmunmap(r, 0, PGROUNDUP(sz) / PGSIZE, true);
      }
      ghost var vm1 := V();
      assert spaces[r].flat == map[];
      Freewalk(r);
      AroundTrans(vm, vm1, V(), r);
      OnlyOne(vm, vm1, V(), r);
      NobodyLeft(V(), r);
    }
  }
}
