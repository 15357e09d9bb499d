/** The memory of a process: proc_pagetable, proc_freepagetable, allocproc, freeproc, growproc and the
    memory part of fork (kernel/proc.c), over the operations of kernel/vm.c. */
module ProcMemory {
  import opened PageTable
  import opened Sets
  import opened Sv39
  import opened VirtualMemory

  const TRAMPOLINE_VPN: nat := MAXVPN - 1
  const TRAPFRAME_VPN: nat := MAXVPN - 2

  /** The space at r belongs to a process of sz bytes: its own pages are those below sz, and the two
      topmost pages are mapped besides. */
  ghost predicate ProcSpace(vm: Vm, r: nat, sz: nat) {
    && r in vm.spaces && Pages(sz) <= TRAPFRAME_VPN && vm.spaces[r].user == Range(0, Pages(sz))
    && vm.spaces[r].flat.Keys == Range(0, Pages(sz)) + {TRAMPOLINE_VPN, TRAPFRAME_VPN}
  }

  /** Nothing but the free list's order may differ. */
  ghost predicate Conserved(vm: Vm, vm1: Vm) {
    vm1.owner == vm.owner && vm1.spaces == vm.spaces
  }

  lemma AroundKernel(vm: Vm, vm1: Vm, r: nat)
    requires Around(vm, vm1, r)
    ensures KernelPages(vm1.owner) == KernelPages(vm.owner)
  {
  }

  /** A space that was not there before and is gone again. */
  lemma CameAndWent(vm: Vm, vm1: Vm, r: nat)
    requires Good(vm) && Good(vm1) && Around(vm, vm1, r) && r !in vm.spaces && r !in vm1.spaces
    ensures Conserved(vm, vm1)
  {
    AroundKernel(vm, vm1, r);
    assert vm1.spaces == vm.spaces;
    OwnersDetermined(vm, vm1);
  }

  /** Since vm the space at r has been made; its leaves are those of flat, and no page is its own. */
  ghost predicate Begun(vm: Vm, vm1: Vm, r: nat, flat: map<nat, Pte>) {
    forall u :: BegunBy(u, vm, vm1, r, flat)
  }

  ghost predicate BegunBy(u: Aspect, vm: Vm, vm1: Vm, r: nat, flat: map<nat, Pte>) {
    match u
    case Leaves => r !in vm.spaces && r in vm1.spaces && vm1.spaces[r].flat == flat && vm1.spaces[r].user == {}
    case Rest => Around(vm, vm1, r)
  }

  lemma BegunMore(vm: Vm, vm1: Vm, vm2: Vm, r: nat, flat: map<nat, Pte>, flat2: map<nat, Pte>)
    requires Begun(vm, vm1, r, flat) && Around(vm1, vm2, r)
    requires r in vm2.spaces && vm2.spaces[r].flat == flat2 && vm2.spaces[r].user == {}
    ensures Begun(vm, vm2, r, flat2)
  {
    forall u
      ensures BegunBy(u, vm, vm2, r, flat2)
    {
      assert BegunBy(u, vm, vm1, r, flat);
      match u
      case Leaves =>
      case Rest => AroundTrans(vm, vm1, vm2, r);
    }
  }

  /** The prefixes of the two topmost pages, which share both their tables. */
  const TOP: nat := TRAMPOLINE_VPN / ENTRIES / ENTRIES
  const HIGH: nat := TRAMPOLINE_VPN / ENTRIES

  lemma TopTables()
    ensures TRAPFRAME_VPN / ENTRIES / ENTRIES == TOP && TRAPFRAME_VPN / ENTRIES == HIGH
  {
  }

  /** Whether a page was mapped, and at what cost in pages. */
  ghost predicate Accounted(vm: Vm, vm1: Vm, r: nat, v: nat, ok: bool) {
    forall u :: AccountedBy(u, vm, vm1, r, v, ok)
  }

  ghost predicate AccountedBy(u: Aspect, vm: Vm, vm1: Vm, r: nat, v: nat, ok: bool) {
    match u
    case Leaves => ok ==> Charged(vm, vm1, r, v, 0)
    case Rest => ok <==> !TooFew(vm, r, v, 0)
  }

  /** A page table as proc_pagetable makes it has one middle and one lowest table. */
  ghost predicate NewTables(vm: Vm, r: int) {
    r >= 0 && r in vm.spaces && vm.spaces[r].l1.Keys == {TOP} && vm.spaces[r].l0.Keys == {HIGH}
  }

  /** The trampoline's tables serve the trapframe too, so mapping it cannot fail. */
  lemma SecondMapped(vm: Vm, vm1: Vm, r: nat, ok: bool)
    requires Accounted(vm, vm1, r, TRAPFRAME_VPN, ok) && r in vm.spaces && vm.spaces[r].l1.Keys == {TOP}
    requires vm.spaces[r].l0.Keys == {HIGH}
    ensures ok && r in vm1.spaces && |vm1.freelist| == |vm.freelist| && vm1.spaces[r].l1.Keys == {TOP}
    ensures vm1.spaces[r].l0.Keys == {HIGH}
  {
    TopTables();
    assert AccountedBy(Leaves, vm, vm1, r, TRAPFRAME_VPN, ok) && AccountedBy(Rest, vm, vm1, r, TRAPFRAME_VPN, ok);
    assert {TOP} + {TOP} == {TOP} && {HIGH} + {HIGH} == {HIGH};
  }

  lemma FirstMapped(vm: Vm, vm1: Vm, r: nat, ok: bool)
    requires Accounted(vm, vm1, r, TRAMPOLINE_VPN, ok) && r in vm.spaces && vm.spaces[r] == EMPTY
    ensures ok <==> |vm.freelist| >= 2
    ensures ok ==> r in vm1.spaces && |vm.freelist| == |vm1.freelist| + 2 && vm1.spaces[r].l1.Keys == {TOP}
    ensures ok ==> vm1.spaces[r].l0.Keys == {HIGH}
  {
    assert AccountedBy(Leaves, vm, vm1, r, TRAMPOLINE_VPN, ok) && AccountedBy(Rest, vm, vm1, r, TRAMPOLINE_VPN, ok);
  }

  lemma OneAccounted(vm: Vm, vm1: Vm, r: nat, v: nat, ok: bool)
    requires r in vm.spaces && (ok <==> Slack(vm, r, v, 1, 0) >= 0)
    requires ok ==> Slack(vm, r, v, 1, 0) == |vm1.freelist| && Reached(vm, vm1, r, v, 1)
    ensures Accounted(vm, vm1, r, v, ok)
  {
    var l1, l0 := vm.spaces[r].l1.Keys, vm.spaces[r].l0.Keys;
    assert Need(l1 + {v / ENTRIES / ENTRIES}, l0 + {v / ENTRIES}, v + 1, 0, 0) == 0;
    assert Tops(v, 1) == {v / ENTRIES / ENTRIES} && Lows(v, 1) == {v / ENTRIES};
  }

  lemma OnePage(vpn: nat)
    ensures vpn * PGSIZE / PGSIZE == vpn && (vpn * PGSIZE + PGSIZE - 1) / PGSIZE == vpn
  {
  }

  lemma LaidOne(vm: Vm, vm1: Vm, r: nat, vpn: nat, k: nat, p: nat, flags: nat)
    requires Laid(vm, vm1, r, vpn, k, p, flags) && k <= 1
    ensures r in vm.spaces && r in vm1.spaces && vm1.spaces[r].user == vm.spaces[r].user && Around(vm, vm1, r)
    ensures vm1.spaces[r].flat == if k == 1 then vm.spaces[r].flat[vpn := Pte(p, flags)] else vm.spaces[r].flat
  {
    assert Around(vm, vm1, r) by {
      assert LaidBy(Rest, vm, vm1, r, vpn, k, p, flags);
    }
    assert LaidBy(Leaves, vm, vm1, r, vpn, k, p, flags);
    assert LeavesFor(vpn, k, p, flags) == if k == 1 then map[vpn := Pte(p, flags)] else map[];
  }

  ghost function Just(x: int): set<nat> { if x >= 0 then {x} else {} }

  /** The contents of other spaces' pages are as before. */
  ghost predicate OthersKept(vm: Vm, vm1: Vm, r: int) {
    && vm.owner.Keys <= vm.mem.Keys && vm.owner.Keys <= vm1.mem.Keys
    && forall p :: p in vm.owner && vm.owner[p].User? && vm.owner[p].root != r ==> vm1.mem[p] == vm.mem[p]
  }

  /** What a slot of the process table holds. */
  ghost predicate Holding(vm: Vm, trapframe: int, pagetable: int, sz: nat) {
    && (trapframe != -1 ==> trapframe >= 0 && trapframe in vm.owner && vm.owner[trapframe] == Kernel)
    && (pagetable != -1 ==> pagetable >= 0 && ProcSpace(vm, pagetable, sz))
  }

  datatype Facet = Slot | Spaces | Kernels | Others

  /** Since vm a process of sz bytes has been made, and nothing else. */
  ghost predicate Joined(vm: Vm, vm1: Vm, trapframe: int, r: int, sz: nat) {
    forall u :: JoinedBy(u, vm, vm1, trapframe, r, sz)
  }

  ghost predicate JoinedBy(u: Facet, vm: Vm, vm1: Vm, trapframe: int, r: int, sz: nat) {
    match u
    case Slot => trapframe >= 0 && r >= 0 && Holding(vm1, trapframe, r, sz)
    case Spaces => r >= 0 && r !in vm.spaces && r in vm1.spaces && vm1.spaces - {r} == vm.spaces
        && vm1.owner.Keys == vm.owner.Keys
    case Kernels => trapframe >= 0 && KernelPages(vm1.owner) == KernelPages(vm.owner) + {trapframe}
        && trapframe !in KernelPages(vm.owner)
    case Others => OthersKept(vm, vm1, r)
  }

  lemma JoinedStart(vm: Vm, vm1: Vm, vm2: Vm, p: nat, r: nat)
    requires Good(vm) && Taken(vm, vm1, p) && Around(vm1, vm2, r) && r !in vm1.spaces && ProcSpace(vm2, r, 0)
    ensures Joined(vm, vm2, p, r, 0)
  {
    forall u
      ensures JoinedBy(u, vm, vm2, p, r, 0)
    {
      match u
      case Slot =>
      case Spaces =>
      case Kernels => AroundKernel(vm1, vm2, r);
      case Others => Covered(vm);
    }
  }

  lemma JoinedMore(vm: Vm, vm1: Vm, vm2: Vm, trapframe: nat, r: nat, sz: nat)
    requires Good(vm) && Good(vm1) && Joined(vm, vm1, trapframe, r, 0) && Around(vm1, vm2, r) && ProcSpace(vm2, r, sz)
    ensures Joined(vm, vm2, trapframe, r, sz)
  {
    forall u
      ensures JoinedBy(u, vm, vm2, trapframe, r, sz)
    {
      assert JoinedBy(u, vm, vm1, trapframe, r, 0);
      match u
      case Slot =>
      case Spaces =>
      case Kernels => AroundKernel(vm1, vm2, r);
      case Others => JoinedOthers(vm, vm1, vm2, trapframe, r);
    }
  }

  lemma JoinedOthers(vm: Vm, vm1: Vm, vm2: Vm, trapframe: nat, r: nat)
    requires Good(vm) && Good(vm1) && Joined(vm, vm1, trapframe, r, 0) && Around(vm1, vm2, r)
    ensures OthersKept(vm, vm2, r)
  {
    assert JoinedBy(Others, vm, vm1, trapframe, r, 0) && JoinedBy(Spaces, vm, vm1, trapframe, r, 0);
    forall p | p in vm.owner && vm.owner[p].User? && vm.owner[p].root != r
      ensures vm2.mem[p] == vm.mem[p]
    {
      assert Holds(Backing, vm) && Holds(Claiming, vm1);
      assert Backed(vm.owner, vm.spaces, p);
      var q := vm.owner[p].root;
      assert SpaceOk(vm1.owner, q, vm1.spaces[q]);
    }
  }

  lemma GrownSpace(vm: Vm, vm1: Vm, r: nat, sz: nat, newsz: nat, want: map<nat, Want>)
    requires ProcSpace(vm, r, sz) && sz <= newsz && Pages(newsz) <= TRAPFRAME_VPN
    requires Enlarged(vm, vm1, r, Pages(sz), Span(sz, newsz), want)
    ensures ProcSpace(vm1, r, newsz)
  {
    PagesMonotone(sz, newsz);
    assert Range(0, Pages(newsz)) == Range(0, Pages(sz)) + Range(Pages(sz), Span(sz, newsz));
  }

  lemma ShrunkSpace(vm: Vm, vm1: Vm, r: nat, sz: nat, newsz: nat)
    requires ProcSpace(vm, r, sz) && newsz <= sz && Unmapped(vm, vm1, r, Pages(newsz), Span(newsz, sz))
    ensures ProcSpace(vm1, r, newsz)
  {
    PagesMonotone(newsz, sz);
    assert Range(0, Pages(newsz)) == Range(0, Pages(sz)) - Range(Pages(newsz), Span(newsz, sz));
    assert vm1.spaces[r].flat.Keys == vm.spaces[r].flat.Keys - Range(Pages(newsz), Span(newsz, sz));
  }

  /** Making another process's page table does not change what is to be copied. */
  lemma SameCopies(vm: Vm, vm1: Vm, trapframe: int, o: nat, r: int, n: nat)
    requires Good(vm) && Good(vm1) && o in vm.spaces && Range(0, n) <= vm.spaces[o].user
    requires Joined(vm, vm1, trapframe, r, 0)
    ensures o in vm1.spaces && vm1.spaces[o] == vm.spaces[o] && Copies(vm1, o, n) == Copies(vm, o, n)
  {
    assert JoinedBy(Spaces, vm, vm1, trapframe, r, 0) && JoinedBy(Others, vm, vm1, trapframe, r, 0);
    assert o in vm1.spaces - {r};
    var a, b := Copies(vm, o, n), Copies(vm1, o, n);
    forall v: nat | v < n
      ensures a[v] == b[v]
    {
      assert AsIn(vm, o, v, a) && AsIn(vm1, o, v, b);
      UserPage(vm, o, v);
    }
  }

  /** The first n pages of r in vm are those of o in vm0, on pages of r's own. */
  ghost predicate Copied(vm: Vm, r: int, vm0: Vm, o: nat, n: nat) {
    && Good(vm0) && o in vm0.spaces && Range(0, n) <= vm0.spaces[o].user
    && r >= 0 && forall v :: 0 <= v < n ==> HasPage(vm, r, v, Copies(vm0, o, n))
  }

  lemma Forked(vm: Vm, vm1: Vm, vm2: Vm, trapframe: nat, r: nat, o: nat, sz: nat)
    requires Good(vm) && Good(vm1) && ProcSpace(vm, o, sz) && ProcSpace(vm1, r, 0) && Joined(vm, vm1, trapframe, r, 0)
    requires Enlarged(vm1, vm2, r, 0, Pages(sz), Copies(vm, o, Pages(sz)))
    ensures Joined(vm, vm2, trapframe, r, sz) && Copied(vm2, r, vm, o, Pages(sz))
  {
    GrownSpace(vm1, vm2, r, 0, sz, Copies(vm, o, Pages(sz)));
    JoinedMore(vm, vm1, vm2, trapframe, r, sz);
  }

  class Process {
    var trapframe: int
    var pagetable: int
    var sz: nat

    /** An UNUSED slot. */
    constructor ()
      ensures trapframe == -1 && pagetable == -1 && sz == 0
    {
      trapframe, pagetable, sz := -1, -1, 0;
    }

    /** mappages of one page into a page table that is being made. */
    static method MapTop(m: Machine, r: nat, vpn: nat, ppn: nat, perm: nat, ghost vm: Vm, ghost flat: map<nat, Pte>)
        returns (ok: bool)
      requires m.Valid() && Begun(vm, m.V(), r, flat) && vpn < MAXVPN && vpn !in flat && Leaf(Pte(0, WithValid(perm)))
      modifies m
      ensures m.Valid() && Begun(vm, m.V(), r, if ok then flat[vpn := Pte(ppn, WithValid(perm))] else flat)
      ensures Accounted(old(m.V()), m.V(), r, vpn, ok)
    {
      ghost var vm1 := m.V();
      assert BegunBy(Leaves, vm, vm1, r, flat);
      OnePage(vpn);
      OnePage(ppn);
      ghost var k;
      ok, k := m.Mappages(r, vpn * PGSIZE, PGSIZE, ppn * PGSIZE, perm);
      LaidOne(vm1, m.V(), r, vpn, k, ppn, WithValid(perm));
      OneAccounted(vm1, m.V(), r, vpn, ok);
      BegunMore(vm, vm1, m.V(), r, flat, if ok then flat[vpn := Pte(ppn, WithValid(perm))] else flat);
    }

    /** uvmunmap of one such page. */
    static method UnmapTop(m: Machine, r: nat, vpn: nat, ghost vm: Vm, ghost flat: map<nat, Pte>)
      requires m.Valid() && Begun(vm, m.V(), r, flat) && vpn in flat
      modifies m
      ensures m.Valid() && Begun(vm, m.V(), r, flat - {vpn})
    {
      ghost var vm1 := m.V();
      assert BegunBy(Leaves, vm, vm1, r, flat);
      m.Uvmunmap(r, vpn, 1, false);
      assert Minus(flat, vpn, 1) == flat - {vpn};
      BegunMore(vm, vm1, m.V(), r, flat, flat - {vpn});
    }

    /** uvmfree(pagetable, 0) of an empty page table. */
    static method Discard(m: Machine, r: nat, ghost vm: Vm)
      requires m.Valid() && Good(vm) && Begun(vm, m.V(), r, map[])
      modifies m
      ensures m.Valid() && Conserved(vm, m.V())
    {
      ghost var vm1 := m.V();
      assert BegunBy(Leaves, vm, vm1, r, map[]) && BegunBy(Rest, vm, vm1, r, map[]);
      m.Uvmfree(r, 0);
      AroundTrans(vm, vm1, m.V(), r);
      CameAndWent(vm, m.V(), r);
    }

    /** proc_pagetable: a page table with only the trampoline and the trapframe, made of three pages, or -1 and
        nothing lost when there are fewer.  The clean-up after the second mappages is never reached. */
    method ProcPagetable(m: Machine, trampoline: nat) returns (r: int)
      requires m.Valid() && trapframe >= 0
      modifies m
      ensures m.Valid()
      ensures r == -1 <==> |old(m.freelist)| < 3
      ensures r == -1 ==> Conserved(old(m.V()), m.V())
      ensures r != -1 ==> |old(m.freelist)| == |m.freelist| + 3 && NewTables(m.V(), r)
      ensures r != -1 ==> r >= 0 && r !in old(m.spaces) && ProcSpace(m.V(), r, 0) && Around(old(m.V()), m.V(), r)
      ensures r != -1 ==> m.spaces[r].flat[TRAMPOLINE_VPN] == Pte(trampoline, PTE_V + PTE_R + PTE_X)
                          && m.spaces[r].flat[TRAPFRAME_VPN] == Pte(trapframe, PTE_V + PTE_R + PTE_W)
    {
      ghost var vm := m.V();
      r := m.Uvmcreate();
      if r == -1 {
        return;
      }
      assert forall u :: BegunBy(u, vm, m.V(), r, map[]);
      ghost var vm1 := m.V();
      var ok := MapTop(m, r, TRAMPOLINE_VPN, trampoline, PTE_R + PTE_X, vm, map[]);
      FirstMapped(vm1, m.V(), r, ok);
      if !ok {
        Discard(m, r, vm);
        return -1;
      }
      ghost var flat := map[TRAMPOLINE_VPN := Pte(trampoline, PTE_V + PTE_R + PTE_X)];
      ghost var vm2, q := m.V(), r;
      ok := MapTop(m, r, TRAPFRAME_VPN, trapframe, PTE_R + PTE_W, vm, flat);
      ghost var vm3 := m.V();
      if !ok {
        UnmapTop(m, r, TRAMPOLINE_VPN, vm, flat);
        assert flat - {TRAMPOLINE_VPN} == map[];
        Discard(m, r, vm);
        r := -1;
      }
      SecondMapped(vm2, vm3, q, ok);
      flat := flat[TRAPFRAME_VPN := Pte(trapframe, PTE_V + PTE_R + PTE_W)];
      assert BegunBy(Leaves, vm, m.V(), r, flat) && BegunBy(Rest, vm, m.V(), r, flat);
    }

    /** proc_freepagetable: every page of the space becomes free. */
    static method ProcFreepagetable(m: Machine, r: nat, sz: nat)
      requires m.Valid() && ProcSpace(m.V(), r, sz)
      modifies m
      ensures m.Valid() && m.spaces == old(m.spaces) - {r} && Around(old(m.V()), m.V(), r) && NobodyAt(m.V(), r)
    {
      ghost var vm := m.V();
      Strip(m, r, sz);
      ghost var vm1 := m.V();
      m.Uvmfree(r, sz);
      AroundTrans(vm, vm1, m.V(), r);
      OnlyOne(vm, vm1, m.V(), r);
    }

    /** Its two calls of uvmunmap. */
    static method Strip(m: Machine, r: nat, sz: nat)
      requires m.Valid() && ProcSpace(m.V(), r, sz)
      modifies m
      ensures m.Valid() && r in m.spaces && Around(old(m.V()), m.V(), r)
      ensures m.spaces[r].flat.Keys == Range(0, Pages(sz)) && m.spaces[r].user == Range(0, Pages(sz))
    {
      ghost var vm := m.V();
      m.Uvmunmap(r, TRAMPOLINE_VPN, 1, false);
      ghost var vm1 := m.V();
      m.Uvmunmap(r, TRAPFRAME_VPN, 1, false);
      AroundTrans(vm, vm1, m.V(), r);
      assert m.spaces[r].flat.Keys == vm.spaces[r].flat.Keys - {TRAMPOLINE_VPN, TRAPFRAME_VPN};
    }

    /** freeproc, as far as memory goes. */
    method Freeproc(m: Machine)
      requires m.Valid() && Holding(m.V(), trapframe, pagetable, sz)
      modifies this, m
      ensures m.Valid() && trapframe == -1 && pagetable == -1 && sz == 0
      ensures m.spaces == old(m.spaces) - Just(old(pagetable)) && m.owner.Keys == old(m.owner.Keys)
      ensures KernelPages(m.owner) == old(KernelPages(m.owner)) - Just(old(trapframe))
      ensures OthersKept(old(m.V()), m.V(), old(pagetable))
    {
      Covered(m.V());
      if trapframe != -1 {
        m.Kfree(trapframe);
      }
      trapframe := -1;
      ghost var vm1 := m.V();
      if pagetable != -1 {
        ProcFreepagetable(m, pagetable, sz);
        AroundKernel(vm1, m.V(), pagetable);
      }
      pagetable, sz := -1, 0;
    }

    /** allocproc, as far as memory goes: it takes four pages, or fails for lack of them and nothing is lost. */
    method Allocproc(m: Machine, trampoline: nat) returns (ok: bool)
      requires m.Valid() && trapframe == -1 && pagetable == -1 && sz == 0
      modifies this, m
      ensures m.Valid() && sz == 0 && (ok <==> |old(m.freelist)| >= 4)
      ensures ok ==> |old(m.freelist)| == |m.freelist| + 4 && NewTables(m.V(), pagetable)
      ensures ok ==> Joined(old(m.V()), m.V(), trapframe, pagetable, 0)
      ensures !ok ==> trapframe == -1 && pagetable == -1 && Conserved(old(m.V()), m.V())
    {
      ghost var vm := m.V();
      trapframe := m.Kalloc();
      if trapframe == -1 {
        Abandon(m, vm);
        return false;
      }
      ghost var vm1 := m.V();
      pagetable := ProcPagetable(m, trampoline);
      if pagetable == -1 {
        Abandon(m, vm);
        return false;
      }
      JoinedStart(vm, vm1, m.V(), trapframe, pagetable);
      return true;
    }

    /** growproc.  The new size is computed modulo 2^64, so shrinking below zero changes nothing. */
    method Growproc(m: Machine, n: int) returns (ok: bool)
      requires m.Valid() && pagetable >= 0 && ProcSpace(m.V(), pagetable, sz) && -0x8000_0000 <= n < 0x8000_0000
      requires sz < 0x1_0000_0000_0000_0000 - 0x8000_0000 && (n > 0 ==> Pages(sz + n) <= TRAPFRAME_VPN)
      modifies this, m
      ensures m.Valid() && trapframe == old(trapframe) && pagetable == old(pagetable)
      ensures ProcSpace(m.V(), pagetable, sz) && Around(old(m.V()), m.V(), pagetable)
      ensures OwnKept(old(m.V()), m.V(), pagetable, Range(0, Pages(if n > 0 then old(sz) else sz)))
      ensures ok ==> sz == if old(sz) + n >= 0 then old(sz) + n else old(sz)
      ensures !ok ==> sz == old(sz)
      ensures !ok <==> n > 0 && Slack(old(m.V()), pagetable, Pages(old(sz)), Span(old(sz), old(sz) + n), 1) < 0
    {
      if n > 0 {
        ok := Expand(m, sz + n);
      } else {
        Shrink(m, (sz + n) % 0x1_0000_0000_0000_0000);
        ok := true;
      }
    }

    method Expand(m: Machine, newsz: nat) returns (ok: bool)
      requires m.Valid() && pagetable >= 0 && ProcSpace(m.V(), pagetable, sz) && sz < newsz
      requires Pages(newsz) <= TRAPFRAME_VPN
      modifies this, m
      ensures m.Valid() && trapframe == old(trapframe) && pagetable == old(pagetable)
      ensures sz == if ok then newsz else old(sz)
      ensures ProcSpace(m.V(), pagetable, sz) && Around(old(m.V()), m.V(), pagetable)
      ensures OwnKept(old(m.V()), m.V(), pagetable, Range(0, Pages(old(sz))))
      ensures ok <==> Slack(old(m.V()), pagetable, Pages(old(sz)), Span(old(sz), newsz), 1) >= 0
    {
      ghost var vm := m.V();
      var sz1 := m.Uvmalloc(pagetable, sz, newsz, PTE_W);
      if sz1 == 0 {
        return false;
      }
      GrownSpace(vm, m.V(), pagetable, sz, newsz,
          Alike(Pages(sz), Span(sz, newsz), Want(PTE_V + PTE_R + PTE_U + PTE_W, Filled(0))));
      sz := sz1;
      return true;
    }

    method Shrink(m: Machine, newsz: nat)
      requires m.Valid() && pagetable >= 0 && ProcSpace(m.V(), pagetable, sz)
      modifies this, m
      ensures m.Valid() && trapframe == old(trapframe) && pagetable == old(pagetable)
      ensures sz == if newsz < old(sz) then newsz else old(sz)
      ensures ProcSpace(m.V(), pagetable, sz) && Around(old(m.V()), m.V(), pagetable)
      ensures OwnKept(old(m.V()), m.V(), pagetable, Range(0, Pages(sz)))
    {
      ghost var vm := m.V();
      PagesMonotone(sz, newsz);
      PagesMonotone(newsz, sz);
      var sz1 := m.Uvmdealloc(pagetable, sz, newsz);
      ShrunkSpace(vm, m.V(), pagetable, sz, if newsz < sz then newsz else sz);
      sz := sz1;
    }

    /** freeproc of a process made since vm. */
    method Abandon(m: Machine, ghost vm: Vm)
      requires m.Valid() && Good(vm) && Holding(m.V(), trapframe, pagetable, sz) && vm.owner.Keys == m.owner.Keys
      requires m.spaces - Just(pagetable) == vm.spaces
      requires KernelPages(m.owner) - Just(trapframe) == KernelPages(vm.owner)
      modifies this, m
      ensures m.Valid() && trapframe == -1 && pagetable == -1 && sz == 0 && Conserved(vm, m.V())
    {
      Freeproc(m);
      OwnersDetermined(vm, m.V());
    }

    /** fork, as far as memory goes: the child has equal pages of its own, or there are too few pages for that
        and nothing is lost. */
    method Fork(np: Process, m: Machine, trampoline: nat) returns (ok: bool)
      requires m.Valid() && np != this && np.trapframe == -1 && np.pagetable == -1 && np.sz == 0
      requires pagetable >= 0 && ProcSpace(m.V(), pagetable, sz)
      modifies np, m
      ensures m.Valid() && (ok <==> |old(m.freelist)| >= 4 + Need({TOP}, {HIGH}, 0, Pages(sz), 1))
      ensures ok ==> np.sz == sz && Joined(old(m.V()), m.V(), np.trapframe, np.pagetable, sz)
      ensures ok ==> Copied(m.V(), np.pagetable, old(m.V()), pagetable, Pages(sz))
      ensures !ok ==> np.trapframe == -1 && np.pagetable == -1 && Conserved(old(m.V()), m.V())
    {
      ghost var vm := m.V();
      ok := np.Allocproc(m, trampoline);
      if ok {
        ok := CopyMemory(np, m, vm);
      }
    }

    method CopyMemory(np: Process, m: Machine, ghost vm: Vm) returns (ok: bool)
      requires m.Valid() && np != this && np.sz == 0 && pagetable >= 0 && Good(vm) && ProcSpace(vm, pagetable, sz)
      requires Joined(vm, m.V(), np.trapframe, np.pagetable, 0) && NewTables(m.V(), np.pagetable)
      modifies np, m
      ensures m.Valid() && (ok <==> |old(m.freelist)| >= Need({TOP}, {HIGH}, 0, Pages(sz), 1))
      ensures ok ==> np.sz == sz && Joined(vm, m.V(), np.trapframe, np.pagetable, sz)
      ensures ok ==> Copied(m.V(), np.pagetable, vm, pagetable, Pages(sz))
      ensures !ok ==> np.trapframe == -1 && np.pagetable == -1 && Conserved(vm, m.V())
    {
      ghost var vm1 := m.V();
      assert JoinedBy(Spaces, vm, vm1, np.trapframe, np.pagetable, 0);
      assert JoinedBy(Slot, vm, vm1, np.trapframe, np.pagetable, 0);
      SameCopies(vm, vm1, np.trapframe, pagetable, np.pagetable, Pages(sz));
      ok := m.Uvmcopy(pagetable, np.pagetable, sz);
      if !ok {
        JoinedMore(vm, vm1, m.V(), np.trapframe, np.pagetable, 0);
        np.Unfork(m, vm);
        return;
      }
      Forked(vm, vm1, m.V(), np.trapframe, np.pagetable, pagetable, sz);
      np.sz := sz;
    }

    method Unfork(m: Machine, ghost vm: Vm)
      requires m.Valid() && Good(vm) && sz == 0 && Joined(vm, m.V(), trapframe, pagetable, 0)
      modifies this, m
      ensures m.Valid() && trapframe == -1 && pagetable == -1 && sz == 0 && Conserved(vm, m.V())
    {
      ghost var vm1 := m.V();
      assert JoinedBy(Spaces, vm, vm1, trapframe, pagetable, 0) && JoinedBy(Slot, vm, vm1, trapframe, pagetable, 0)
             && JoinedBy(Kernels, vm, vm1, trapframe, pagetable, 0);
      Abandon(m, vm);
    }
  }
}
