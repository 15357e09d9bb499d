/** Page ownership and three-level trees: the values behind kernel/vm.c and kernel/kalloc.c.

    Pages are numbered.  A user address space is described by the flat map from virtual page number to
    leaf entry that its tree stands for, and by the table pages that make the tree up. */
module PageTable {
  import opened Sv39

  type Data = seq<nat>

  /** What every page of allocatable memory is used for. */
  datatype Owner =
    | Free
    | Kernel
    | Root
    | Mid(root: nat, i: nat)
    | Low(root: nat, hi: nat)
    | User(root: nat, vpn: nat)

  /** l1 and l0: the table pages below the root, by prefix of the page numbers they serve; flat: the leaf
      entries; user: the page numbers whose page belongs to the space. */
  datatype Space = Space(l1: map<nat, nat>, l0: map<nat, nat>, flat: map<nat, Pte>, user: set<nat>)

  datatype Vm = Vm(freelist: seq<nat>, pt: map<nat, seq<Pte>>, mem: map<nat, Data>, owner: map<nat, Owner>,
      spaces: map<nat, Space>)

  const EMPTY: Space := Space(map[], map[], map[], {})

  // ---------- the tree stands for the space ----------

  /** Table page p has, at each index j, the entry that m gives for first + j. */
  ghost predicate Page(pt: map<nat, seq<Pte>>, p: nat, m: map<nat, Pte>, first: nat) {
    p in pt && |pt[p]| == ENTRIES && forall j :: 0 <= j < ENTRIES ==> pt[p][j] == Get(m, first + j)
  }

  function Get(m: map<nat, Pte>, k: nat): Pte { if k in m then m[k] else NONE }

  function Dirs(m: map<nat, nat>): map<nat, Pte> { map k | k in m :: Dir(m[k]) }

  ghost predicate Tree(pt: map<nat, seq<Pte>>, r: nat, sp: Space) {
    && Page(pt, r, Dirs(sp.l1), 0)
    && (forall i {:trigger sp.l1[i]} :: i in sp.l1 ==> Page(pt, sp.l1[i], Dirs(sp.l0), i * ENTRIES))
    && (forall h {:trigger sp.l0[h]} :: h in sp.l0 ==> Page(pt, sp.l0[h], sp.flat, h * ENTRIES))
  }

  ghost predicate Shape(sp: Space) {
    && (forall i :: i in sp.l1 ==> i < MAXTOP)
    && (forall h :: h in sp.l0 ==> h < MAXHI && h / ENTRIES in sp.l1)
    && (forall v :: v in sp.flat ==> v < MAXVPN && v / ENTRIES in sp.l0 && Valid(sp.flat[v]) && Leaf(sp.flat[v]))
    && sp.user <= sp.flat.Keys
  }

  /** The space's pages say so in the owner map. */
  ghost predicate Claims(owner: map<nat, Owner>, r: nat, sp: Space) {
    && r in owner && owner[r] == Root
    && (forall i :: i in sp.l1 ==> sp.l1[i] in owner && owner[sp.l1[i]] == Mid(r, i))
    && (forall h :: h in sp.l0 ==> sp.l0[h] in owner && owner[sp.l0[h]] == Low(r, h))
    && (forall v :: v in sp.user && v in sp.flat ==> sp.flat[v].ppn in owner && owner[sp.flat[v].ppn] == User(r, v))
  }

  /** A page said to be in use is where the owner map says. */
  ghost predicate Backed(owner: map<nat, Owner>, spaces: map<nat, Space>, p: nat)
    requires p in owner
  {
    match owner[p]
    case Free => true
    case Kernel => true
    case Root => p in spaces
    case Mid(r, i) => r in spaces && i in spaces[r].l1 && spaces[r].l1[i] == p
    case Low(r, h) => r in spaces && h in spaces[r].l0 && spaces[r].l0[h] == p
    case User(r, v) => r in spaces && v in spaces[r].user && v in spaces[r].flat && spaces[r].flat[v].ppn == p
  }

  // ---------- the invariant ----------

  datatype Part = Freelist | Backing | Claiming | Trees

  ghost predicate SpaceOk(owner: map<nat, Owner>, r: nat, sp: Space) {
    Shape(sp) && Claims(owner, r, sp)
  }

  ghost predicate Holds(u: Part, vm: Vm) {
    match u
    case Freelist =>
      && (forall j, k :: 0 <= j < k < |vm.freelist| ==> vm.freelist[j] != vm.freelist[k])
      && (forall p :: p in vm.owner ==> (p in vm.freelist <==> vm.owner[p] == Free))
      && (forall p :: p in vm.freelist ==> p in vm.owner)
    case Backing => forall p {:trigger Backed(vm.owner, vm.spaces, p)} :: p in vm.owner ==>
        Backed(vm.owner, vm.spaces, p)
    case Claiming =>
      forall r {:trigger SpaceOk(vm.owner, r, vm.spaces[r])} :: r in vm.spaces ==> SpaceOk(vm.owner, r, vm.spaces[r])
    case Trees =>
      && (forall p :: p in vm.owner ==> p in vm.pt && p in vm.mem)
      && forall r {:trigger Tree(vm.pt, r, vm.spaces[r])} :: r in vm.spaces ==> Tree(vm.pt, r, vm.spaces[r])
  }

  /** Free pages, table pages, user pages and pages held by the kernel partition memory, and every tree stands
      for its space. */
  ghost predicate Good(vm: Vm) {
    forall u :: Holds(u, vm)
  }

  // ---------- one space changes ----------

  /** Pages that a change to the space at r may touch. */
  predicate Mine(o: Owner, r: nat) {
    match o
    case Kernel => true
    case Mid(q, _) => q == r
    case Low(q, _) => q == r
    case User(q, _) => q == r
    case _ => false
  }

  ghost predicate OwnersMove(owner: map<nat, Owner>, owner1: map<nat, Owner>, r: nat) {
    && owner1.Keys == owner.Keys
    && forall q :: q in owner ==> owner1[q] == owner[q] || (Mine(owner[q], r) && Mine(owner1[q], r))
  }

  ghost predicate PagesMove(pt: map<nat, seq<Pte>>, pt1: map<nat, seq<Pte>>, owner: map<nat, Owner>, r: nat) {
    && pt1.Keys == pt.Keys
    && forall q :: q in owner && q in pt && q != r && !Mine(owner[q], r) ==> pt1[q] == pt[q]
  }

  ghost predicate BackedMine(owner: map<nat, Owner>, spaces: map<nat, Space>, r: nat) {
    forall q {:trigger Backed(owner, spaces, q)} :: q in owner && Mine(owner[q], r) ==> Backed(owner, spaces, q)
  }

  lemma OtherClaims(owner: map<nat, Owner>, owner1: map<nat, Owner>, r: nat, q: nat, sp: Space)
    requires OwnersMove(owner, owner1, r) && q != r && SpaceOk(owner, q, sp)
    ensures SpaceOk(owner1, q, sp)
  {
  }

  lemma OtherTree(pt: map<nat, seq<Pte>>, pt1: map<nat, seq<Pte>>, owner: map<nat, Owner>, r: nat, q: nat, sp: Space)
    requires PagesMove(pt, pt1, owner, r) && r in owner && owner[r] == Root && q != r && SpaceOk(owner, q, sp)
    requires Tree(pt, q, sp)
    ensures Tree(pt1, q, sp)
  {
    forall i | i in sp.l1
      ensures Page(pt1, sp.l1[i], Dirs(sp.l0), i * ENTRIES)
    {
      assert owner[sp.l1[i]] == Mid(q, i);
      assert Page(pt, sp.l1[i], Dirs(sp.l0), i * ENTRIES);
    }
    forall h | h in sp.l0
      ensures Page(pt1, sp.l0[h], sp.flat, h * ENTRIES)
    {
      assert owner[sp.l0[h]] == Low(q, h);
      assert Page(pt, sp.l0[h], sp.flat, h * ENTRIES);
    }
  }

  lemma SpaceChange(vm: Vm, vm1: Vm, r: nat, sp1: Space)
    requires Good(vm) && r in vm.spaces
    requires vm1.freelist == vm.freelist && vm1.spaces == vm.spaces[r := sp1] && vm1.mem.Keys == vm.mem.Keys
    requires OwnersMove(vm.owner, vm1.owner, r) && PagesMove(vm.pt, vm1.pt, vm.owner, r)
    requires SpaceOk(vm1.owner, r, sp1) && Tree(vm1.pt, r, sp1) && BackedMine(vm1.owner, vm1.spaces, r)
    ensures Good(vm1)
  {
    forall u
      ensures Holds(u, vm1)
    {
      match u
      case Freelist => assert Holds(Freelist, vm);
      case Backing =>
        assert Holds(Backing, vm);
        forall q | q in vm1.owner
          ensures Backed(vm1.owner, vm1.spaces, q)
        {
          assert Backed(vm.owner, vm.spaces, q);
        }
      case Claiming =>
        assert Holds(Claiming, vm);
        forall q | q in vm1.spaces
          ensures SpaceOk(vm1.owner, q, vm1.spaces[q])
        {
          assert SpaceOk(vm.owner, q, vm.spaces[q]);
          if q != r {
            OtherClaims(vm.owner, vm1.owner, r, q, vm.spaces[q]);
          }
        }
      case Trees =>
        assert Holds(Trees, vm) && Holds(Claiming, vm);
        assert SpaceOk(vm.owner, r, vm.spaces[r]);
        forall q | q in vm1.spaces
          ensures Tree(vm1.pt, q, vm1.spaces[q])
        {
          assert SpaceOk(vm.owner, q, vm.spaces[q]) && Tree(vm.pt, q, vm.spaces[q]);
          if q != r {
            OtherTree(vm.pt, vm1.pt, vm.owner, r, q, vm.spaces[q]);
          }
        }
    }
  }

  lemma Opened(vm: Vm, r: nat)
    requires Good(vm) && r in vm.spaces
    ensures SpaceOk(vm.owner, r, vm.spaces[r]) && Tree(vm.pt, r, vm.spaces[r])
    ensures forall q :: q in vm.owner && Mine(vm.owner[q], r) ==> Backed(vm.owner, vm.spaces, q)
    ensures forall q :: q in vm.owner ==> q in vm.pt && q in vm.mem
  {
    assert Holds(Claiming, vm) && Holds(Trees, vm) && Holds(Backing, vm);
    assert SpaceOk(vm.owner, r, vm.spaces[r]) && Tree(vm.pt, r, vm.spaces[r]);
  }

  // ---------- walking ----------

  /** The leaf slot of a page number: its table page and index. */
  ghost predicate SlotOf(sp: Space, vpn: nat, p: nat, j: nat) {
    vpn / ENTRIES in sp.l0 && p == sp.l0[vpn / ENTRIES] && j == vpn % ENTRIES
  }

  lemma VpnDigits(vpn: nat)
    requires vpn < MAXVPN
    ensures var hi := vpn / ENTRIES;
            hi < MAXHI && hi / ENTRIES < MAXTOP && vpn == hi * ENTRIES + vpn % ENTRIES
            && hi == hi / ENTRIES * ENTRIES + hi % ENTRIES
  {
  }

  lemma Compose(h: nat, j: nat)
    requires j < ENTRIES
    ensures (h * ENTRIES + j) / ENTRIES == h && (h * ENTRIES + j) % ENTRIES == j
  {
  }

  lemma PageAt(pt: map<nat, seq<Pte>>, p: nat, m: map<nat, Pte>, h: nat, k: nat)
    requires Page(pt, p, m, h * ENTRIES) && h == k / ENTRIES
    ensures pt[p][k % ENTRIES] == Get(m, k)
  {
    assert k == h * ENTRIES + k % ENTRIES;
  }

  /** What walk reads at each level. */
  lemma ReadTop(vm: Vm, r: nat, i: nat)
    requires Good(vm) && r in vm.spaces && i < ENTRIES
    ensures r in vm.pt && |vm.pt[r]| == ENTRIES && vm.pt[r][i] == Get(Dirs(vm.spaces[r].l1), i)
  {
    Opened(vm, r);
    assert vm.pt[r][i] == Get(Dirs(vm.spaces[r].l1), 0 + i);
  }

  lemma ReadMid(vm: Vm, r: nat, hi: nat)
    requires Good(vm) && r in vm.spaces && hi / ENTRIES in vm.spaces[r].l1
    ensures var p := vm.spaces[r].l1[hi / ENTRIES];
            p in vm.pt && |vm.pt[p]| == ENTRIES && vm.pt[p][hi % ENTRIES] == Get(Dirs(vm.spaces[r].l0), hi)
  {
    Opened(vm, r);
    var sp, top: nat := vm.spaces[r], hi / ENTRIES;
    assert Page(vm.pt, sp.l1[top], Dirs(sp.l0), top * ENTRIES);
    PageAt(vm.pt, sp.l1[top], Dirs(sp.l0), top, hi);
  }

  lemma ReadLow(vm: Vm, r: nat, vpn: nat)
    requires Good(vm) && r in vm.spaces && vpn / ENTRIES in vm.spaces[r].l0
    ensures var p := vm.spaces[r].l0[vpn / ENTRIES];
            p in vm.pt && |vm.pt[p]| == ENTRIES && vm.pt[p][vpn % ENTRIES] == Get(vm.spaces[r].flat, vpn)
    ensures vpn / ENTRIES / ENTRIES in vm.spaces[r].l1
  {
    Opened(vm, r);
    var sp, hi: nat := vm.spaces[r], vpn / ENTRIES;
    assert Page(vm.pt, sp.l0[hi], sp.flat, hi * ENTRIES);
    PageAt(vm.pt, sp.l0[hi], sp.flat, hi, vpn);
  }

  /** Two page numbers reach the same slot only if they are equal. */
  lemma SlotInjective(vm: Vm, r: nat, v: nat, w: nat, p: nat, j: nat)
    requires Good(vm) && r in vm.spaces && SlotOf(vm.spaces[r], v, p, j) && SlotOf(vm.spaces[r], w, p, j)
    ensures v == w
  {
    Opened(vm, r);
    assert vm.owner[p] == Low(r, v / ENTRIES) == Low(r, w / ENTRIES);
  }

  // ---------- growing a tree ----------

  function Zeros(): (t: seq<Pte>)
    ensures |t| == ENTRIES && forall j :: 0 <= j < ENTRIES ==> t[j] == NONE
  {
    seq(ENTRIES, _ => NONE)
  }

  /** A zeroed table serves a prefix under which there is nothing. */
  lemma EmptyPage(pt: map<nat, seq<Pte>>, p: nat, m: map<nat, Pte>, h: nat)
    requires p in pt && pt[p] == Zeros() && forall k :: k in m ==> k / ENTRIES != h
    ensures Page(pt, p, m, h * ENTRIES)
  {
    forall j | 0 <= j < ENTRIES
      ensures pt[p][j] == Get(m, h * ENTRIES + j)
    {
      Compose(h, j);
    }
  }

  /** A zeroed page becomes the middle table for prefix i. */
  function AddMid(vm: Vm, r: nat, i: nat, p: nat): Vm
    requires r in vm.spaces && r in vm.pt && i < |vm.pt[r]|
  {
    var sp := vm.spaces[r];
    vm.(pt := vm.pt[r := vm.pt[r][i := Dir(p)]], owner := vm.owner[p := Mid(r, i)],
        spaces := vm.spaces[r := sp.(l1 := sp.l1[i := p])])
  }

  lemma AddMidTree(pt: map<nat, seq<Pte>>, owner: map<nat, Owner>, r: nat, sp: Space, i: nat, p: nat)
    requires Tree(pt, r, sp) && SpaceOk(owner, r, sp) && p in pt && p in owner && owner[p] == Kernel && pt[p] == Zeros()
    requires i < MAXTOP && i !in sp.l1
    ensures Tree(pt[r := pt[r][i := Dir(p)]], r, sp.(l1 := sp.l1[i := p]))
  {
    var pt1, sp1 := pt[r := pt[r][i := Dir(p)]], sp.(l1 := sp.l1[i := p]);
    forall k | k in sp1.l1
      ensures Page(pt1, sp1.l1[k], Dirs(sp1.l0), k * ENTRIES)
    {
      if k == i {
        EmptyPage(pt1, p, Dirs(sp.l0), i);
      } else {
        assert Page(pt, sp.l1[k], Dirs(sp.l0), k * ENTRIES);
      }
    }
    forall h | h in sp1.l0
      ensures Page(pt1, sp1.l0[h], sp1.flat, h * ENTRIES)
    {
      assert Page(pt, sp.l0[h], sp.flat, h * ENTRIES);
    }
  }

  lemma MineAfter(vm: Vm, r: nat, spaces1: map<nat, Space>, p: nat, o: Owner)
    requires Good(vm) && r in vm.spaces && r in spaces1 && p in vm.owner && vm.owner[p] == Kernel
    requires Extended(vm.spaces[r], spaces1[r]) && Backed(vm.owner[p := o], spaces1, p)
    ensures BackedMine(vm.owner[p := o], spaces1, r)
  {
    Opened(vm, r);
    forall q | q in vm.owner && Mine(vm.owner[p := o][q], r)
      ensures Backed(vm.owner[p := o], spaces1, q)
    {
      if q != p {
        assert Backed(vm.owner, vm.spaces, q);
      }
    }
  }

  /** Everything in sp is still there in sp1. */
  ghost predicate Extended(sp: Space, sp1: Space) {
    && (forall i :: i in sp.l1 ==> i in sp1.l1 && sp1.l1[i] == sp.l1[i])
    && (forall h :: h in sp.l0 ==> h in sp1.l0 && sp1.l0[h] == sp.l0[h])
    && (forall v :: v in sp.flat ==> v in sp1.flat && sp1.flat[v] == sp.flat[v])
    && sp.user <= sp1.user
  }

  lemma AddMidGood(vm: Vm, r: nat, i: nat, p: nat)
    requires Good(vm) && r in vm.spaces && i < MAXTOP && i !in vm.spaces[r].l1
    requires p in vm.owner && vm.owner[p] == Kernel && p in vm.pt && vm.pt[p] == Zeros()
    ensures r in vm.pt && |vm.pt[r]| == ENTRIES && Good(AddMid(vm, r, i, p))
  {
    Opened(vm, r);
    var sp := vm.spaces[r];
    var sp1 := sp.(l1 := sp.l1[i := p]);
    AddMidTree(vm.pt, vm.owner, r, sp, i, p);
    MineAfter(vm, r, vm.spaces[r := sp1], p, Mid(r, i));
    SpaceChange(vm, AddMid(vm, r, i, p), r, sp1);
  }

  /** A zeroed page becomes the lowest table for prefix h. */
  function AddLow(vm: Vm, r: nat, h: nat, p: nat): Vm
    requires r in vm.spaces && h / ENTRIES in vm.spaces[r].l1
    requires vm.spaces[r].l1[h / ENTRIES] in vm.pt && |vm.pt[vm.spaces[r].l1[h / ENTRIES]]| == ENTRIES
  {
    var sp := vm.spaces[r];
    var m := sp.l1[h / ENTRIES];
    vm.(pt := vm.pt[m := vm.pt[m][h % ENTRIES := Dir(p)]], owner := vm.owner[p := Low(r, h)],
        spaces := vm.spaces[r := sp.(l0 := sp.l0[h := p])])
  }

  /** Changing entry k of its page changes exactly that key. */
  lemma PageSet(pt: map<nat, seq<Pte>>, p: nat, m: map<nat, Pte>, h: nat, k: nat, e: Pte, m1: map<nat, Pte>)
    requires Page(pt, p, m, h * ENTRIES) && h == k / ENTRIES && Get(m1, k) == e
    requires forall j :: j != k ==> Get(m1, j) == Get(m, j)
    ensures Page(pt[p := pt[p][k % ENTRIES := e]], p, m1, h * ENTRIES)
  {
    var t := pt[p][k % ENTRIES := e];
    forall j | 0 <= j < ENTRIES
      ensures t[j] == Get(m1, h * ENTRIES + j)
    {
      Compose(h, j);
    }
  }

  lemma PageKept(pt: map<nat, seq<Pte>>, p: nat, m: map<nat, Pte>, h: nat, k: nat, m1: map<nat, Pte>)
    requires Page(pt, p, m, h * ENTRIES) && h != k / ENTRIES && forall j :: j != k ==> Get(m1, j) == Get(m, j)
    ensures Page(pt, p, m1, h * ENTRIES)
  {
    forall j | 0 <= j < ENTRIES
      ensures pt[p][j] == Get(m1, h * ENTRIES + j)
    {
      Compose(h, j);
    }
  }

  lemma AddLowTree(pt: map<nat, seq<Pte>>, owner: map<nat, Owner>, r: nat, sp: Space, h: nat, p: nat, m: nat)
    requires Tree(pt, r, sp) && SpaceOk(owner, r, sp) && p in pt && p in owner && owner[p] == Kernel && pt[p] == Zeros()
    requires h < MAXHI && h !in sp.l0 && h / ENTRIES in sp.l1 && m == sp.l1[h / ENTRIES] && m in pt
    requires |pt[m]| == ENTRIES
    ensures Tree(pt[m := pt[m][h % ENTRIES := Dir(p)]], r, sp.(l0 := sp.l0[h := p]))
  {
    var pt1, sp1 := pt[m := pt[m][h % ENTRIES := Dir(p)]], sp.(l0 := sp.l0[h := p]);
    assert owner[m] == Mid(r, h / ENTRIES);
    forall k | k in sp1.l1
      ensures Page(pt1, sp1.l1[k], Dirs(sp1.l0), k * ENTRIES)
    {
      assert Page(pt, sp.l1[k], Dirs(sp.l0), k * ENTRIES) && owner[sp.l1[k]] == Mid(r, k);
      if k == h / ENTRIES {
        PageSet(pt, m, Dirs(sp.l0), k, h, Dir(p), Dirs(sp1.l0));
      } else {
        PageKept(pt, sp.l1[k], Dirs(sp.l0), k, h, Dirs(sp1.l0));
      }
    }
    forall k | k in sp1.l0
      ensures Page(pt1, sp1.l0[k], sp1.flat, k * ENTRIES)
    {
      if k == h {
        EmptyPage(pt1, p, sp.flat, h);
      } else {
        assert Page(pt, sp.l0[k], sp.flat, k * ENTRIES) && owner[sp.l0[k]] == Low(r, k);
      }
    }
  }

  lemma AddLowGood(vm: Vm, r: nat, h: nat, p: nat)
    requires Good(vm) && r in vm.spaces && h < MAXHI && h !in vm.spaces[r].l0 && h / ENTRIES in vm.spaces[r].l1
    requires p in vm.owner && vm.owner[p] == Kernel && p in vm.pt && vm.pt[p] == Zeros()
    requires vm.spaces[r].l1[h / ENTRIES] in vm.pt && |vm.pt[vm.spaces[r].l1[h / ENTRIES]]| == ENTRIES
    ensures Good(AddLow(vm, r, h, p))
  {
    Opened(vm, r);
    var sp := vm.spaces[r];
    var sp1 := sp.(l0 := sp.l0[h := p]);
    AddLowTree(vm.pt, vm.owner, r, sp, h, p, sp.l1[h / ENTRIES]);
    MineAfter(vm, r, vm.spaces[r := sp1], p, Low(r, h));
    AddLowClaims(vm.owner, r, sp, h, p);
    AddLowFrame(vm, r, h, p);
    SpaceChange(vm, AddLow(vm, r, h, p), r, sp1);
  }

  lemma AddLowClaims(owner: map<nat, Owner>, r: nat, sp: Space, h: nat, p: nat)
    requires SpaceOk(owner, r, sp) && p in owner && owner[p] == Kernel && h < MAXHI && h / ENTRIES in sp.l1
    ensures SpaceOk(owner[p := Low(r, h)], r, sp.(l0 := sp.l0[h := p]))
  {
  }

  lemma AddLowFrame(vm: Vm, r: nat, h: nat, p: nat)
    requires r in vm.spaces && h / ENTRIES in vm.spaces[r].l1 && SpaceOk(vm.owner, r, vm.spaces[r])
    requires p in vm.owner && vm.owner[p] == Kernel
    requires vm.spaces[r].l1[h / ENTRIES] in vm.pt && |vm.pt[vm.spaces[r].l1[h / ENTRIES]]| == ENTRIES
    ensures var vm1 := AddLow(vm, r, h, p); OwnersMove(vm.owner, vm1.owner, r) && PagesMove(vm.pt, vm1.pt, vm.owner, r)
  {
    assert vm.owner[vm.spaces[r].l1[h / ENTRIES]] == Mid(r, h / ENTRIES);
  }

  // ---------- leaves ----------

  /** The entry for vpn is written; with give, the page it names becomes the space's own. */
  function SetLeaf(vm: Vm, r: nat, vpn: nat, e: Pte, give: bool): Vm
    requires r in vm.spaces && vpn / ENTRIES in vm.spaces[r].l0
    requires vm.spaces[r].l0[vpn / ENTRIES] in vm.pt && |vm.pt[vm.spaces[r].l0[vpn / ENTRIES]]| == ENTRIES
  {
    var sp := vm.spaces[r];
    var t := sp.l0[vpn / ENTRIES];
    vm.(pt := vm.pt[t := vm.pt[t][vpn % ENTRIES := e]],
        owner := if give then vm.owner[e.ppn := User(r, vpn)] else vm.owner,
        spaces := vm.spaces[r := sp.(flat := sp.flat[vpn := e], user := if give then sp.user + {vpn} else sp.user)])
  }

  /** The entry for vpn is cleared; a page of the space's own goes to the kernel. */
  function ClearLeaf(vm: Vm, r: nat, vpn: nat): Vm
    requires r in vm.spaces && vpn / ENTRIES in vm.spaces[r].l0 && vpn in vm.spaces[r].flat
    requires vm.spaces[r].l0[vpn / ENTRIES] in vm.pt && |vm.pt[vm.spaces[r].l0[vpn / ENTRIES]]| == ENTRIES
  {
    var sp := vm.spaces[r];
    var t := sp.l0[vpn / ENTRIES];
    vm.(pt := vm.pt[t := vm.pt[t][vpn % ENTRIES := NONE]],
        owner := if vpn in sp.user then vm.owner[sp.flat[vpn].ppn := Kernel] else vm.owner,
        spaces := vm.spaces[r := sp.(flat := sp.flat - {vpn}, user := sp.user - {vpn})])
  }

  /** One leaf entry changes. */
  lemma LeafTree(pt: map<nat, seq<Pte>>, owner: map<nat, Owner>, r: nat, sp: Space, vpn: nat, e: Pte, sp1: Space)
    requires Tree(pt, r, sp) && SpaceOk(owner, r, sp) && vpn / ENTRIES in sp.l0
    requires sp1.l1 == sp.l1 && sp1.l0 == sp.l0 && Get(sp1.flat, vpn) == e
    requires forall j :: j != vpn ==> Get(sp1.flat, j) == Get(sp.flat, j)
    ensures var t := sp.l0[vpn / ENTRIES];
            t in pt && |pt[t]| == ENTRIES
            && Tree(pt[t := pt[t][vpn % ENTRIES := e]], r, sp1)
  {
    var hi: nat := vpn / ENTRIES;
    var t := sp.l0[hi];
    assert Page(pt, t, sp.flat, hi * ENTRIES) && owner[t] == Low(r, hi);
    var pt1 := pt[t := pt[t][vpn % ENTRIES := e]];
    forall k | k in sp1.l1
      ensures Page(pt1, sp1.l1[k], Dirs(sp1.l0), k * ENTRIES)
    {
      assert Page(pt, sp.l1[k], Dirs(sp.l0), k * ENTRIES) && owner[sp.l1[k]] == Mid(r, k);
    }
    forall k | k in sp1.l0
      ensures Page(pt1, sp1.l0[k], sp1.flat, k * ENTRIES)
    {
      assert Page(pt, sp.l0[k], sp.flat, k * ENTRIES) && owner[sp.l0[k]] == Low(r, k);
      if k == hi {
        PageSet(pt, t, sp.flat, k, vpn, e, sp1.flat);
      } else {
        PageKept(pt, sp.l0[k], sp.flat, k, vpn, sp1.flat);
      }
    }
  }

  lemma LeafFrame(vm: Vm, r: nat, vpn: nat, e: Pte)
    requires r in vm.spaces && vpn / ENTRIES in vm.spaces[r].l0 && SpaceOk(vm.owner, r, vm.spaces[r])
    requires vm.spaces[r].l0[vpn / ENTRIES] in vm.pt && |vm.pt[vm.spaces[r].l0[vpn / ENTRIES]]| == ENTRIES
    ensures var t := vm.spaces[r].l0[vpn / ENTRIES];
            PagesMove(vm.pt, vm.pt[t := vm.pt[t][vpn % ENTRIES := e]], vm.owner, r)
  {
    assert vm.owner[vm.spaces[r].l0[vpn / ENTRIES]] == Low(r, vpn / ENTRIES);
  }

  lemma SetLeafClaims(owner: map<nat, Owner>, r: nat, sp: Space, vpn: nat, e: Pte, give: bool)
    requires SpaceOk(owner, r, sp) && vpn < MAXVPN && vpn !in sp.flat && vpn / ENTRIES in sp.l0 && Valid(e) && Leaf(e)
    requires give ==> e.ppn in owner && owner[e.ppn] == Kernel
    ensures SpaceOk(if give then owner[e.ppn := User(r, vpn)] else owner, r,
                    sp.(flat := sp.flat[vpn := e], user := if give then sp.user + {vpn} else sp.user))
  {
  }

  lemma SetLeafGood(vm: Vm, r: nat, vpn: nat, e: Pte, give: bool)
    requires Good(vm) && r in vm.spaces && vpn < MAXVPN && vpn !in vm.spaces[r].flat && vpn / ENTRIES in vm.spaces[r].l0
    requires Valid(e) && Leaf(e) && (give ==> e.ppn in vm.owner && vm.owner[e.ppn] == Kernel)
    ensures var t := vm.spaces[r].l0[vpn / ENTRIES];
            t in vm.pt && |vm.pt[t]| == ENTRIES
            && Good(SetLeaf(vm, r, vpn, e, give))
  {
    Opened(vm, r);
    var sp := vm.spaces[r];
    var sp1 := sp.(flat := sp.flat[vpn := e], user := if give then sp.user + {vpn} else sp.user);
    LeafTree(vm.pt, vm.owner, r, sp, vpn, e, sp1);
    LeafFrame(vm, r, vpn, e);
    SetLeafClaims(vm.owner, r, sp, vpn, e, give);
    SetLeafBacked(vm, r, vpn, e, give, sp1);
    SetLeafMove(vm.owner, r, vpn, e, give);
    SpaceChange(vm, SetLeaf(vm, r, vpn, e, give), r, sp1);
  }

  lemma SetLeafMove(owner: map<nat, Owner>, r: nat, vpn: nat, e: Pte, give: bool)
    requires give ==> e.ppn in owner && owner[e.ppn] == Kernel
    ensures OwnersMove(owner, if give then owner[e.ppn := User(r, vpn)] else owner, r)
  {
  }

  lemma SetLeafBacked(vm: Vm, r: nat, vpn: nat, e: Pte, give: bool, sp1: Space)
    requires Good(vm) && r in vm.spaces && vpn !in vm.spaces[r].flat
    requires give ==> e.ppn in vm.owner && vm.owner[e.ppn] == Kernel
    requires sp1 == vm.spaces[r].(flat := vm.spaces[r].flat[vpn := e],
                                  user := if give then vm.spaces[r].user + {vpn} else vm.spaces[r].user)
    ensures BackedMine(if give then vm.owner[e.ppn := User(r, vpn)] else vm.owner, vm.spaces[r := sp1], r)
  {
    Opened(vm, r);
    var owner1 := if give then vm.owner[e.ppn := User(r, vpn)] else vm.owner;
    forall q | q in vm.owner && Mine(owner1[q], r)
      ensures Backed(owner1, vm.spaces[r := sp1], q)
    {
      if !give || q != e.ppn {
        assert Backed(vm.owner, vm.spaces, q);
      }
    }
  }

  lemma ClearLeafClaims(owner: map<nat, Owner>, r: nat, sp: Space, vpn: nat)
    requires SpaceOk(owner, r, sp) && vpn in sp.flat
    ensures SpaceOk(if vpn in sp.user then owner[sp.flat[vpn].ppn := Kernel] else owner, r,
                    sp.(flat := sp.flat - {vpn}, user := sp.user - {vpn}))
  {
    var p := sp.flat[vpn].ppn;
    assert vpn in sp.user ==> owner[p] == User(r, vpn);
  }

  lemma ClearLeafGood(vm: Vm, r: nat, vpn: nat)
    requires Good(vm) && r in vm.spaces && vpn in vm.spaces[r].flat
    ensures var sp := vm.spaces[r];
            vpn / ENTRIES in sp.l0 && sp.l0[vpn / ENTRIES] in vm.pt && |vm.pt[sp.l0[vpn / ENTRIES]]| == ENTRIES
            && (vpn in sp.user ==> sp.flat[vpn].ppn in vm.owner && vm.owner[sp.flat[vpn].ppn] == User(r, vpn))
            && Good(ClearLeaf(vm, r, vpn))
  {
    Opened(vm, r);
    var sp := vm.spaces[r];
    var sp1 := sp.(flat := sp.flat - {vpn}, user := sp.user - {vpn});
    LeafTree(vm.pt, vm.owner, r, sp, vpn, NONE, sp1);
    LeafFrame(vm, r, vpn, NONE);
    ClearLeafClaims(vm.owner, r, sp, vpn);
    ClearLeafBacked(vm, r, vpn, sp1);
    ClearLeafMove(vm.owner, r, sp, vpn);
    SpaceChange(vm, ClearLeaf(vm, r, vpn), r, sp1);
  }

  lemma ClearLeafMove(owner: map<nat, Owner>, r: nat, sp: Space, vpn: nat)
    requires SpaceOk(owner, r, sp) && vpn in sp.flat
    ensures OwnersMove(owner, if vpn in sp.user then owner[sp.flat[vpn].ppn := Kernel] else owner, r)
  {
  }

  lemma ClearLeafBacked(vm: Vm, r: nat, vpn: nat, sp1: Space)
    requires Good(vm) && r in vm.spaces && vpn in vm.spaces[r].flat
    requires sp1 == vm.spaces[r].(flat := vm.spaces[r].flat - {vpn}, user := vm.spaces[r].user - {vpn})
    ensures BackedMine(if vpn in vm.spaces[r].user then vm.owner[vm.spaces[r].flat[vpn].ppn := Kernel] else vm.owner,
                       vm.spaces[r := sp1], r)
  {
    Opened(vm, r);
    var sp := vm.spaces[r];
    var owner1 := if vpn in sp.user then vm.owner[sp.flat[vpn].ppn := Kernel] else vm.owner;
    forall q | q in owner1 && Mine(owner1[q], r)
      ensures Backed(owner1, vm.spaces[r := sp1], q)
    {
      assert q in vm.owner && Backed(vm.owner, vm.spaces, q);
    }
  }

  // ---------- kalloc and kfree ----------

  /** A page that no space uses changes hands and contents. */
  lemma FreeMove(vm: Vm, vm1: Vm, p: nat, o: Owner)
    requires Good(vm) && p in vm.owner && (vm.owner[p] == Free || vm.owner[p] == Kernel) && (o == Free || o == Kernel)
    requires vm1.owner == vm.owner[p := o] && vm1.spaces == vm.spaces
    requires vm1.pt.Keys == vm.pt.Keys && vm1.mem.Keys == vm.mem.Keys
    requires forall q :: q in vm.pt && q != p ==> vm1.pt[q] == vm.pt[q]
    requires Holds(Freelist, vm1)
    ensures Good(vm1)
  {
    forall u
      ensures Holds(u, vm1)
    {
      match u
      case Freelist =>
      case Backing =>
        assert Holds(Backing, vm);
        forall q | q in vm1.owner
          ensures Backed(vm1.owner, vm1.spaces, q)
        {
          assert Backed(vm.owner, vm.spaces, q);
        }
      case Claiming =>
        assert Holds(Claiming, vm);
        forall q | q in vm1.spaces
          ensures SpaceOk(vm1.owner, q, vm1.spaces[q])
        {
          assert SpaceOk(vm.owner, q, vm.spaces[q]);
        }
      case Trees =>
        assert Holds(Trees, vm) && Holds(Claiming, vm);
        forall q | q in vm1.spaces
          ensures Tree(vm1.pt, q, vm1.spaces[q])
        {
          assert SpaceOk(vm.owner, q, vm.spaces[q]) && Tree(vm.pt, q, vm.spaces[q]);
          UnusedTree(vm.pt, vm1.pt, vm.owner, q, vm.spaces[q], p);
        }
    }
  }

  lemma UnusedTree(pt: map<nat, seq<Pte>>, pt1: map<nat, seq<Pte>>, owner: map<nat, Owner>, r: nat, sp: Space, p: nat)
    requires SpaceOk(owner, r, sp) && Tree(pt, r, sp) && p in owner && (owner[p] == Free || owner[p] == Kernel)
    requires pt1.Keys == pt.Keys && forall q :: q in pt && q != p ==> pt1[q] == pt[q]
    ensures Tree(pt1, r, sp)
  {
    forall i | i in sp.l1
      ensures Page(pt1, sp.l1[i], Dirs(sp.l0), i * ENTRIES)
    {
      assert owner[sp.l1[i]] == Mid(r, i) && Page(pt, sp.l1[i], Dirs(sp.l0), i * ENTRIES);
    }
    forall h | h in sp.l0
      ensures Page(pt1, sp.l0[h], sp.flat, h * ENTRIES)
    {
      assert owner[sp.l0[h]] == Low(r, h) && Page(pt, sp.l0[h], sp.flat, h * ENTRIES);
    }
  }

  /** kalloc: the head of the free list goes to the kernel. */
  lemma PopGood(vm: Vm, vm1: Vm, p: nat)
    requires Good(vm) && vm.freelist != [] && p == vm.freelist[0] && vm1.freelist == vm.freelist[1..]
    requires vm1.spaces == vm.spaces && vm1.pt.Keys == vm.pt.Keys && vm1.mem.Keys == vm.mem.Keys
    requires forall q :: q in vm.pt && q != p ==> vm1.pt[q] == vm.pt[q]
    requires vm1.owner == if p in vm.owner then vm.owner[p := Kernel] else vm.owner
    ensures p in vm.owner && vm.owner[p] == Free && p in vm.pt && p in vm.mem && Good(vm1)
  {
    assert Holds(Freelist, vm) && Holds(Trees, vm);
    assert vm.freelist == [p] + vm1.freelist;
    FreeMove(vm, vm1, p, Kernel);
  }

  /** kfree: a page of the kernel's goes to the head of the free list. */
  lemma PushGood(vm: Vm, vm1: Vm, p: nat)
    requires Good(vm) && p in vm.owner && vm.owner[p] == Kernel && vm1.freelist == [p] + vm.freelist
    requires vm1.spaces == vm.spaces && vm1.pt.Keys == vm.pt.Keys && vm1.mem.Keys == vm.mem.Keys
    requires forall q :: q in vm.pt && q != p ==> vm1.pt[q] == vm.pt[q]
    requires vm1.owner == vm.owner[p := Free]
    ensures Good(vm1)
  {
    assert Holds(Freelist, vm);
    FreeMove(vm, vm1, p, Free);
  }

  // ---------- new and dissolved spaces ----------

  lemma NewRootGood(vm: Vm, p: nat)
    requires Good(vm) && p in vm.owner && vm.owner[p] == Kernel && p in vm.pt && vm.pt[p] == Zeros()
    ensures p !in vm.spaces && Good(vm.(owner := vm.owner[p := Root], spaces := vm.spaces[p := EMPTY]))
  {
    var vm1 := vm.(owner := vm.owner[p := Root], spaces := vm.spaces[p := EMPTY]);
    assert Holds(Claiming, vm);
    assert p in vm.spaces ==> SpaceOk(vm.owner, p, vm.spaces[p]);
    forall u
      ensures Holds(u, vm1)
    {
      match u
      case Freelist => assert Holds(Freelist, vm);
      case Backing =>
        assert Holds(Backing, vm);
        forall q | q in vm1.owner
          ensures Backed(vm1.owner, vm1.spaces, q)
        {
          assert Backed(vm.owner, vm.spaces, q);
        }
      case Claiming =>
        forall q | q in vm1.spaces
          ensures SpaceOk(vm1.owner, q, vm1.spaces[q])
        {
          if q != p {
            assert SpaceOk(vm.owner, q, vm.spaces[q]);
          }
        }
      case Trees =>
        assert Holds(Trees, vm);
        forall q | q in vm1.spaces
          ensures Tree(vm1.pt, q, vm1.spaces[q])
        {
          if q != p {
            assert Tree(vm.pt, q, vm.spaces[q]);
          }
        }
    }
  }

  /** The table pages of a space. */
  ghost function TablePages(r: nat, sp: Space): set<nat> {
    {r} + sp.l1.Values + sp.l0.Values
  }

  predicate TableOwner(o: Owner, r: nat) {
    match o
    case Mid(q, _) => q == r
    case Low(q, _) => q == r
    case _ => false
  }

  /** The table pages of a space without leaves are handed to the kernel, and the space is no more. */
  ghost function Dissolved(vm: Vm, r: nat): Vm
    requires r in vm.spaces
  {
    vm.(owner := map p | p in vm.owner :: if p == r || TableOwner(vm.owner[p], r) then Kernel else vm.owner[p],
        spaces := vm.spaces - {r})
  }

  lemma DissolvedOwners(vm: Vm, r: nat, p: nat)
    requires Good(vm) && r in vm.spaces && p in vm.owner
    ensures p == r || TableOwner(vm.owner[p], r) <==> p in TablePages(r, vm.spaces[r])
  {
    Opened(vm, r);
    assert Holds(Backing, vm);
    assert Backed(vm.owner, vm.spaces, p);
    var sp := vm.spaces[r];
    if p in sp.l1.Values {
      var i :| i in sp.l1 && sp.l1[i] == p;
      assert vm.owner[p] == Mid(r, i);
    }
    if p in sp.l0.Values {
      var h :| h in sp.l0 && sp.l0[h] == p;
      assert vm.owner[p] == Low(r, h);
    }
  }

  lemma DissolvedGood(vm: Vm, r: nat)
    requires Good(vm) && r in vm.spaces && vm.spaces[r].flat == map[]
    ensures Good(Dissolved(vm, r))
  {
    var vm1 := Dissolved(vm, r);
    Opened(vm, r);
    forall u
      ensures Holds(u, vm1)
    {
      match u
      case Freelist => assert Holds(Freelist, vm);
      case Backing =>
        assert Holds(Backing, vm);
        forall q | q in vm1.owner
          ensures Backed(vm1.owner, vm1.spaces, q)
        {
          assert Backed(vm.owner, vm.spaces, q);
        }
      case Claiming =>
        assert Holds(Claiming, vm);
        forall q | q in vm1.spaces
          ensures SpaceOk(vm1.owner, q, vm1.spaces[q])
        {
          assert SpaceOk(vm.owner, q, vm.spaces[q]);
        }
      case Trees =>
        assert Holds(Trees, vm);
        forall q | q in vm1.spaces
          ensures Tree(vm1.pt, q, vm1.spaces[q])
        {
          assert Tree(vm.pt, q, vm.spaces[q]);
        }
    }
  }
}
