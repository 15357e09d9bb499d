/** exit, wait, sleep, wakeup, fork, kill and the scheduler of kernel/proc.c as interleaved steps.

    A step is one critical section of a process lock, or one change of wait_lock.  A process lock
    that stays held across steps is always held by the process itself or, after its switch, by the
    scheduler of the CPU that ran it.  Locks other than these two kinds are not modelled. */
module ExitWait {
  const INIT: nat := 0

  datatype PState = UNUSED | USED | SLEEPING | RUNNABLE | RUNNING | ZOMBIE

  datatype Chan = NoChan | ProcChan(p: int) | OtherChan

  /** Where a process goes on after it was preempted: in user code or elsewhere in the kernel, in wait before
      it takes wait_lock, or in fork between its critical sections. */
  datatype Back = ToUser | ToWait | ToHave(k: nat) | ToLinked(k: nat)

  /** Where a process is.  w says that a sleep is the one in wait. */
  datatype Pc =
    | NoThread | Fresh | ParkedYield(back: Back) | ParkedSleep(w: bool) | Dead
    | Woken(back: Back) | User
    | ExitReparent(k: nat) | ExitWakeInit(k: nat, j: nat) | ExitWake(par: int, j: nat) | ExitZombied | ExitSched
    | WaitAgain | WaitScan(k: nat, kids: bool) | WaitDone
    | SleepBegin(w: bool) | SleepLocked(w: bool) | SleepReleased(w: bool) | SleepSet(w: bool) | YieldSet(back: Back)
    | ForkHave(k: nat) | ForkLinked(k: nat)

  /** lock: p->lock is held; parent -1 stands for the null pointer. */
  datatype Proc = Proc(st: PState, chan: Chan, parent: int, killed: bool, lock: bool, pc: Pc)

  /** wl: who holds wait_lock, -1 for nobody; cpu: each CPU's c->proc, -1 for none. */
  datatype State = State(ps: seq<Proc>, wl: int, cpu: seq<int>)

  /** The thread runs: it has been switched to and has not switched back. */
  predicate Active(pc: Pc) {
    !pc.NoThread? && !pc.Fresh? && !pc.ParkedYield? && !pc.ParkedSleep? && !pc.Dead?
  }

  /** The thread holds its own process lock. */
  predicate OwnsLock(pc: Pc) {
    || pc.SleepLocked? || pc.SleepReleased? || pc.SleepSet? || pc.YieldSet?
    || pc.ExitZombied? || pc.ExitSched? || pc.Woken?
  }

  predicate HoldsWait(pc: Pc) {
    || pc.ExitReparent? || pc.ExitWakeInit? || pc.ExitWake? || pc.ExitZombied?
    || pc.WaitScan? || pc.WaitDone? || pc == SleepBegin(true) || pc == SleepLocked(true)
  }

  predicate Exiting(pc: Pc) {
    pc.ExitReparent? || pc.ExitWakeInit? || pc.ExitWake? || pc.ExitZombied? || pc.ExitSched? || pc.Dead?
  }

  /** What a running process is preempted from, and what it comes back to. */
  predicate Preemptible(pc: Pc) { pc.User? || pc.WaitAgain? || pc.ForkHave? || pc.ForkLinked? }

  function BackFrom(pc: Pc): Back {
    match pc
    case WaitAgain => ToWait
    case ForkHave(k) => ToHave(k)
    case ForkLinked(k) => ToLinked(k)
    case _ => ToUser
  }

  function BackAt(back: Back): Pc {
    match back
    case ToUser => User
    case ToWait => WaitAgain
    case ToHave(k) => ForkHave(k)
    case ToLinked(k) => ForkLinked(k)
  }

  /** How far fork has come: the child is there, and has its parent. */
  function Stage(pc: Pc): Back {
    match pc
    case ForkHave(k) => ToHave(k)
    case ForkLinked(k) => ToLinked(k)
    case YieldSet(back) => ForkPart(back)
    case ParkedYield(back) => ForkPart(back)
    case Woken(back) => ForkPart(back)
    case _ => ToUser
  }

  function ForkPart(back: Back): Back { if back.ToWait? then ToUser else back }

  predicate Forking(pc: Pc) { !Stage(pc).ToUser? }

  function Kid(pc: Pc): nat {
    match Stage(pc)
    case ToHave(k) => k
    case ToLinked(k) => k
    case _ => 0
  }

  function SleepChan(p: nat, w: bool): Chan {
    if w then ProcChan(p) else OtherChan
  }

  // ---------- steps ----------

  datatype Action =
    | ExitStart(p: nat) | ReparentStep(p: nat) | WakeInitStep(p: nat) | WakeParentStep(p: nat)
    | ExitZombie(p: nat) | ExitRelease(p: nat)
    | WaitStart(p: nat) | ScanStep(p: nat, copyFails: bool) | ScanEnd(p: nat) | WaitReturn(p: nat)
    | SleepStart(p: nat) | SleepLock(p: nat) | SleepRelease(p: nat) | SleepGo(p: nat) | Yield(p: nat)
    | Switch(p: nat, c: nat) | CpuRelease(p: nat, c: nat) | Dispatch(p: nat, c: nat) | Resume(p: nat)
    | ForkAlloc(p: nat, np: nat) | ForkFail(p: nat) | ForkLink(p: nat) | ForkRun(p: nat)
    | Kill(p: nat) | WakeOther(p: nat)

  predicate OnCpu(s: State, p: nat, c: nat) {
    c < |s.cpu| && s.cpu[c] == p
  }

  predicate Enabled(s: State, a: Action) {
    a.p < |s.ps| &&
    var x := s.ps[a.p];
    match a
    case ExitStart(p) => x.pc == User && p != INIT && s.wl == -1
    case ReparentStep(_) => x.pc.ExitReparent?
    case WakeInitStep(p) => x.pc.ExitWakeInit? && (x.pc.j < |s.ps| && x.pc.j != p ==> !s.ps[x.pc.j].lock)
    case WakeParentStep(p) => x.pc.ExitWake? && x.pc.j < |s.ps| && (x.pc.j != p ==> !s.ps[x.pc.j].lock)
    case ExitZombie(_) => x.pc.ExitWake? && x.pc.j >= |s.ps| && !x.lock
    case ExitRelease(_) => x.pc.ExitZombied?
    case WaitStart(_) => (x.pc.User? || x.pc.WaitAgain?) && s.wl == -1
    case ScanStep(p, _) =>
      x.pc.WaitScan? && x.pc.k < |s.ps| && (s.ps[x.pc.k].parent == p ==> !s.ps[x.pc.k].lock)
    case ScanEnd(_) => x.pc.WaitScan? && x.pc.k >= |s.ps| && !x.lock
    case WaitReturn(_) => x.pc.WaitDone?
    case SleepStart(_) => x.pc.User?
    case SleepLock(_) => x.pc.SleepBegin? && !x.lock
    case SleepRelease(_) => x.pc.SleepLocked?
    case SleepGo(_) => x.pc.SleepReleased?
    case Yield(_) => Preemptible(x.pc) && !x.lock
    case Switch(p, c) => OnCpu(s, p, c) && (x.pc.SleepSet? || x.pc.YieldSet? || x.pc.ExitSched?)
    case CpuRelease(p, c) => OnCpu(s, p, c) && !Active(x.pc)
    case Dispatch(_, c) => c < |s.cpu| && s.cpu[c] == -1 && !x.lock && x.st.RUNNABLE?
    case Resume(_) => x.pc.Woken?
    case ForkAlloc(_, np) => x.pc.User? && np < |s.ps| && s.ps[np].st.UNUSED? && !s.ps[np].lock
    case ForkFail(_) => x.pc.User?
    case ForkLink(_) => x.pc.ForkHave? && x.pc.k < |s.ps| && s.wl == -1
    case ForkRun(_) => x.pc.ForkLinked? && x.pc.k < |s.ps| && !s.ps[x.pc.k].lock
    case Kill(_) => !x.lock
    case WakeOther(_) => !x.lock && x.st.SLEEPING? && x.chan.OtherChan?
  }

  function Goto(s: State, p: nat, pc: Pc): State
    requires p < |s.ps|
  {
    s.(ps := s.ps[p := s.ps[p].(pc := pc)])
  }

  /** reparent's loop, and the end of it. */
  function DoReparent(s: State, p: nat): State
    requires p < |s.ps| && s.ps[p].pc.ExitReparent?
  {
    var k := s.ps[p].pc.k;
    if k >= |s.ps| then Goto(s, p, ExitWake(s.ps[p].parent, 0))
    else if s.ps[k].parent == p then Goto(s.(ps := s.ps[k := s.ps[k].(parent := INIT)]), p, ExitWakeInit(k, 0))
    else Goto(s, p, ExitReparent(k + 1))
  }

  /** One round of wakeup(chan) by p. */
  function Woke(s: State, p: nat, target: int, j: nat): State
    requires j < |s.ps|
  {
    var y := s.ps[j];
    if j != p && y.st.SLEEPING? && y.chan == ProcChan(target) then s.(ps := s.ps[j := y.(st := RUNNABLE)]) else s
  }

  function DoWakeInit(s: State, p: nat, k: nat, j: nat): State
    requires p < |s.ps|
  {
    if j < |s.ps| then Goto(Woke(s, p, INIT, j), p, ExitWakeInit(k, j + 1)) else Goto(s, p, ExitReparent(k + 1))
  }

  function DoWakeParent(s: State, p: nat, par: int, j: nat): State
    requires p < |s.ps| && j < |s.ps|
  {
    Goto(Woke(s, p, par, j), p, ExitWake(par, j + 1))
  }

  /** freeproc. */
  function Freed(x: Proc): Proc {
    Proc(UNUSED, NoChan, -1, false, x.lock, NoThread)
  }

  /** wait's loop body: child k is looked at under its lock. */
  function DoScan(s: State, p: nat, copyFails: bool): State
    requires p < |s.ps| && s.ps[p].pc.WaitScan? && s.ps[p].pc.k < |s.ps|
  {
    var k, kids := s.ps[p].pc.k, s.ps[p].pc.kids;
    var y := s.ps[k];
    if y.parent != p then Goto(s, p, WaitScan(k + 1, kids))
    else if !y.st.ZOMBIE? then Goto(s, p, WaitScan(k + 1, true))
    else if copyFails then Goto(s, p, WaitDone)
    else Goto(s.(ps := s.ps[k := Freed(y)]), p, WaitDone)
  }

  function DoSwitch(s: State, p: nat): State
    requires p < |s.ps|
  {
    match s.ps[p].pc
    case SleepSet(w) => Goto(s, p, ParkedSleep(w))
    case YieldSet(back) => Goto(s, p, ParkedYield(back))
    case _ => Goto(s, p, Dead)
  }

  /** Where a parked thread goes on. */
  function Parked(pc: Pc): Back {
    match pc
    case ParkedYield(back) => back
    case ParkedSleep(w) => if w then ToWait else ToUser
    case _ => ToUser
  }

  /** A fork that fails, in allocproc or in uvmcopy, has freed the child again before it lets go of the child's
      lock: nobody sees a difference. */
  function Apply(s: State, a: Action): State
    requires Enabled(s, a)
  {
    var x := s.ps[a.p];
    match a
    case ExitStart(p) => Goto(s, p, ExitReparent(0)).(wl := p)
    case ReparentStep(p) => DoReparent(s, p)
    case WakeInitStep(p) => DoWakeInit(s, p, x.pc.k, x.pc.j)
    case WakeParentStep(p) => DoWakeParent(s, p, x.pc.par, x.pc.j)
    case ExitZombie(p) => s.(ps := s.ps[p := x.(st := ZOMBIE, lock := true, pc := ExitZombied)])
    case ExitRelease(p) => Goto(s, p, ExitSched).(wl := -1)
    case WaitStart(p) => Goto(s, p, WaitScan(0, false)).(wl := p)
    case ScanStep(p, copyFails) => DoScan(s, p, copyFails)
    case ScanEnd(p) => Goto(s, p, if x.pc.kids && !x.killed then SleepBegin(true) else WaitDone)
    case WaitReturn(p) => Goto(s, p, User).(wl := -1)
    case SleepStart(p) => Goto(s, p, SleepBegin(false))
    case SleepLock(p) => s.(ps := s.ps[p := x.(lock := true, pc := SleepLocked(x.pc.w))])
    case SleepRelease(p) => Goto(s, p, SleepReleased(x.pc.w)).(wl := if x.pc.w then -1 else s.wl)
    case SleepGo(p) => s.(ps := s.ps[p := x.(st := SLEEPING, chan := SleepChan(p, x.pc.w), pc := SleepSet(x.pc.w))])
    case Yield(p) => s.(ps := s.ps[p := x.(st := RUNNABLE, lock := true, pc := YieldSet(BackFrom(x.pc)))])
    case Switch(p, _) => DoSwitch(s, p)
    case CpuRelease(p, c) => s.(ps := s.ps[p := x.(lock := false)], cpu := s.cpu[c := -1])
    case Dispatch(p, c) =>
      s.(ps := s.ps[p := x.(st := RUNNING, lock := true, pc := Woken(Parked(x.pc)))], cpu := s.cpu[c := p])
    case Resume(p) => s.(ps := s.ps[p := x.(chan := NoChan, lock := false, pc := BackAt(x.pc.back))])
    case ForkAlloc(p, np) => Goto(s.(ps := s.ps[np := s.ps[np].(st := USED, pc := Fresh)]), p, ForkHave(np))
    case ForkFail(p) => s
    case ForkLink(p) => Goto(s.(ps := s.ps[x.pc.k := s.ps[x.pc.k].(parent := p)]), p, ForkLinked(x.pc.k))
    case ForkRun(p) => Goto(s.(ps := s.ps[x.pc.k := s.ps[x.pc.k].(st := RUNNABLE)]), p, User)
    case Kill(p) => s.(ps := s.ps[p := x.(killed := true, st := if x.st.SLEEPING? then RUNNABLE else x.st)])
    case WakeOther(p) => s.(ps := s.ps[p := x.(st := RUNNABLE)])
  }

  /** userinit has made initproc and no CPU runs a process yet. */
  ghost predicate Start(s: State) {
    && 0 < |s.ps| && s.wl == -1
    && (forall c :: 0 <= c < |s.cpu| ==> s.cpu[c] == -1)
    && s.ps[INIT] == Proc(RUNNABLE, NoChan, -1, false, false, Fresh)
    && (forall k :: 0 < k < |s.ps| ==> s.ps[k] == Proc(UNUSED, NoChan, -1, false, false, NoThread))
  }

  ghost predicate Step(s: State, a: Action, t: State) {
    Enabled(s, a) && t == Apply(s, a)
  }

  ghost predicate Runs(s: State, run: seq<Action>, t: State)
    decreases |run|
  {
    if run == [] then Start(s) && t == s
    else
      var before, a := run[..|run| - 1], run[|run| - 1];
      exists m :: Runs(s, before, m) && Step(m, a, t)
  }

  ghost predicate Reachable(t: State) {
    exists s, run :: Runs(s, run, t)
  }

  // ---------- invariant ----------

  /** How a process's own fields fit together. */
  predicate Local(k: nat, x: Proc) {
    && (x.pc.NoThread? <==> x.st.UNUSED?)
    && (x.pc.Fresh? ==> x.st.USED? || x.st.RUNNABLE?)
    && (x.pc.ParkedYield? || x.pc.YieldSet? ==> x.st.RUNNABLE?)
    && (x.pc.ParkedSleep? ==> (x.st.SLEEPING? || x.st.RUNNABLE?) && x.chan == SleepChan(k, x.pc.w))
    && (x.pc.SleepSet? ==> x.st.SLEEPING? && x.chan == SleepChan(k, x.pc.w))
    && (x.pc.ExitZombied? || x.pc.ExitSched? || x.pc.Dead? <==> x.st.ZOMBIE?)
    && (Active(x.pc) && !x.pc.SleepSet? && !x.pc.YieldSet? && !x.pc.ExitZombied? && !x.pc.ExitSched? ==> x.st.RUNNING?)
    && (OwnsLock(x.pc) ==> x.lock)
    && (x.lock ==> OwnsLock(x.pc) || x.pc.ParkedYield? || x.pc.ParkedSleep? || x.pc.Dead?)
    && (x.chan.ProcChan? ==> x.pc == ParkedSleep(true) || x.pc == SleepSet(true) || x.pc == Woken(ToWait))
    && (x.st.UNUSED? ==> x.parent == -1)
  }

  ghost predicate Locals(ps: seq<Proc>) {
    forall k :: 0 <= k < |ps| ==> Local(k, ps[k])
  }

  ghost predicate WaitLock(ps: seq<Proc>, wl: int) {
    && -1 <= wl < |ps|
    && forall k :: 0 <= k < |ps| ==> (HoldsWait(ps[k].pc) <==> wl == k)
  }

  /** A CPU's c->proc is a process whose thread it runs, or whose lock it still holds. */
  ghost predicate Cpus(ps: seq<Proc>, cpu: seq<int>) {
    && (forall c :: 0 <= c < |cpu| ==> -1 <= cpu[c] < |ps|)
    && (forall c, d :: 0 <= c < d < |cpu| && cpu[c] == cpu[d] ==> cpu[c] == -1)
    && (forall k :: 0 <= k < |ps| ==> (k in cpu <==> Active(ps[k].pc) || ps[k].lock))
  }

  /** A process in the middle of fork and the child it is making. */
  ghost predicate Forks(ps: seq<Proc>) {
    && (forall p :: 0 <= p < |ps| && Forking(ps[p].pc) ==>
          var k := Kid(ps[p].pc);
          && k < |ps| && k != p && k != INIT && ps[k].pc.Fresh? && ps[k].st.USED?
          && ps[k].parent == if Stage(ps[p].pc).ToHave? then -1 else p)
    && (forall p, q :: 0 <= p < |ps| && 0 <= q < |ps| && Forking(ps[p].pc) && Forking(ps[q].pc) ==>
          Kid(ps[p].pc) == Kid(ps[q].pc) ==> p == q)
  }

  /** Below this index p is known to have no children. */
  function Childless(pc: Pc, n: nat): nat {
    match pc
    case ExitReparent(k) => k
    case ExitWakeInit(k, _) => k + 1
    case ExitWake(_, _) | ExitZombied | ExitSched | Dead | NoThread => n
    case _ => 0
  }

  ghost predicate Tree(ps: seq<Proc>) {
    && 0 < |ps| && ps[INIT].parent == -1 && !Exiting(ps[INIT].pc) && !ps[INIT].pc.NoThread?
    && (forall q :: 0 <= q < |ps| ==> -1 <= ps[q].parent < |ps| && ps[q].parent != q)
    && (forall p, q :: 0 <= p < |ps| && 0 <= q < |ps| && q < Childless(ps[p].pc, |ps|) ==> ps[q].parent != p)
  }

  /** Asleep in wait, or past the point where it lets go of wait_lock to sleep. */
  predicate Committed(x: Proc) {
    || x.pc == SleepLocked(true) || x.pc == SleepReleased(true)
    || (x.st.SLEEPING? && (x.pc == SleepSet(true) || x.pc == ParkedSleep(true)))
  }

  /** Below this index p has seen no zombie child. */
  function Scanned(pc: Pc, n: nat): nat {
    match pc
    case WaitScan(k, _) => k
    case SleepBegin(w) => if w then n else 0
    case SleepLocked(w) => if w then n else 0
    case _ => 0
  }

  /** The holder of wait_lock is reparenting and its wakeup has yet to reach initproc. */
  predicate InitPending(ps: seq<Proc>, wl: int) {
    0 <= wl < |ps| && ps[wl].pc.ExitWakeInit? && ps[wl].pc.j <= INIT
  }

  ghost predicate Waits(ps: seq<Proc>, wl: int) {
    && (forall p, q {:trigger Scanned(ps[p].pc, |ps|), ps[q].st.ZOMBIE?} ::
          0 <= p < |ps| && 0 <= q < |ps| && q < Scanned(ps[p].pc, |ps|) && ps[q].parent == p ==> !ps[q].st.ZOMBIE?)
    && (forall p, q {:trigger Committed(ps[p]), ps[q].st.ZOMBIE?} ::
          0 <= p < |ps| && 0 <= q < |ps| && Committed(ps[p]) && ps[q].parent == p && ps[q].st.ZOMBIE? ==>
          p == INIT && InitPending(ps, wl))
    && (forall r {:trigger ps[r].pc.ExitWakeInit?} ::
          0 <= r < |ps| && ps[r].pc.ExitWakeInit? && ps[r].pc.j > INIT && INIT < |ps| ==> !Committed(ps[INIT]))
    && (forall r {:trigger ps[r].pc.ExitWake?} :: 0 <= r < |ps| && ps[r].pc.ExitWake? ==> ps[r].pc.par == ps[r].parent)
    && (forall r {:trigger ps[r].pc.ExitWake?} ::
          0 <= r < |ps| && ps[r].pc.ExitWake? && 0 <= ps[r].parent < |ps| && ps[r].parent < ps[r].pc.j ==>
          !Committed(ps[ps[r].parent]))
  }

  datatype Part = Threads | Holder | Running | Births | Family | Sleepers

  ghost predicate Inv(s: State) {
    forall u :: Holds(u, s)
  }

  ghost predicate Holds(u: Part, s: State) {
    match u
    case Threads => Locals(s.ps)
    case Holder => WaitLock(s.ps, s.wl)
    case Running => Cpus(s.ps, s.cpu)
    case Births => Forks(s.ps)
    case Family => Tree(s.ps)
    case Sleepers => Waits(s.ps, s.wl)
  }

  lemma Opened(s: State)
    requires Inv(s)
    ensures Locals(s.ps) && WaitLock(s.ps, s.wl) && Cpus(s.ps, s.cpu) && Forks(s.ps) && Tree(s.ps) && Waits(s.ps, s.wl)
  {
    assert Holds(Threads, s) && Holds(Holder, s) && Holds(Running, s) && Holds(Births, s) && Holds(Family, s);
    assert Holds(Sleepers, s);
  }

  lemma LocalOf(s: State, p: nat)
    requires Inv(s) && p < |s.ps|
    ensures Local(p, s.ps[p])
  {
    assert Holds(Threads, s);
  }

  // ---------- one process changes ----------

  /** wait_lock is taken or let go by p, or left alone. */
  predicate LockMove(p: nat, y: Proc, wl: int, wl1: int) {
    && (wl1 == wl || (wl == p && wl1 == -1) || (wl == -1 && wl1 == p))
    && (HoldsWait(y.pc) <==> wl1 == p)
  }

  lemma SetWaitLock(ps: seq<Proc>, wl: int, p: nat, y: Proc, wl1: int)
    requires WaitLock(ps, wl) && p < |ps| && LockMove(p, y, wl, wl1)
    ensures WaitLock(ps[p := y], wl1)
  {
  }

  lemma SetCpus(ps: seq<Proc>, cpu: seq<int>, p: nat, y: Proc)
    requires Cpus(ps, cpu) && p < |ps| && (p in cpu <==> Active(y.pc) || y.lock)
    ensures Cpus(ps[p := y], cpu)
  {
  }

  predicate ForkMove(x: Proc, y: Proc) {
    && (Forking(y.pc) ==> Stage(y.pc) == Stage(x.pc))
    && (x.pc.Fresh? && x.st.USED? ==> y.pc == x.pc && y.st == x.st) && y.parent == x.parent
  }

  lemma SetForks(ps: seq<Proc>, p: nat, y: Proc)
    requires Forks(ps) && p < |ps| && ForkMove(ps[p], y)
    ensures Forks(ps[p := y])
  {
  }

  ghost predicate TreeMove(ps: seq<Proc>, p: nat, y: Proc)
    requires p < |ps|
  {
    && y.parent == ps[p].parent && (p == INIT ==> !Exiting(y.pc) && !y.pc.NoThread?)
    && (forall q :: 0 <= q < |ps| && q < Childless(y.pc, |ps|) ==> ps[q].parent != p)
  }

  lemma SetTree(ps: seq<Proc>, p: nat, y: Proc)
    requires Tree(ps) && p < |ps| && TreeMove(ps, p, y)
    ensures Tree(ps[p := y])
  {
  }

  ghost predicate NoZombieKid(ps: seq<Proc>, p: nat, b: nat) {
    forall q :: 0 <= q < |ps| && q < b && ps[q].parent == p ==> !ps[q].st.ZOMBIE?
  }

  ghost predicate WaitsMove(ps: seq<Proc>, wl: int, p: nat, y: Proc, wl1: int)
    requires p < |ps|
  {
    && y.parent == ps[p].parent && (y.st.ZOMBIE? ==> ps[p].st.ZOMBIE?)
    && NoZombieKid(ps, p, Scanned(y.pc, |ps|))
    && (Committed(y) ==> Committed(ps[p]) || NoZombieKid(ps, p, |ps|))
    && (InitPending(ps, wl) ==> InitPending(ps[p := y], wl1) || !Committed(ps[p := y][INIT]))
    && (y.pc.ExitWakeInit? && y.pc.j > INIT ==> !Committed(ps[p := y][INIT]))
    && (y.pc.ExitWake? ==> y.pc.par == y.parent)
    && (y.pc.ExitWake? && 0 <= y.parent < |ps| && y.parent < y.pc.j ==> !Committed(ps[p := y][y.parent]))
    && (forall r :: 0 <= r < |ps| && Committed(y) && !Committed(ps[p]) ==>
        !ps[r].pc.ExitWake? && !ps[r].pc.ExitWakeInit?)
  }

  lemma SetWaits(ps: seq<Proc>, wl: int, p: nat, y: Proc, wl1: int)
    requires Waits(ps, wl) && p < |ps| && WaitsMove(ps, wl, p, y, wl1)
    ensures Waits(ps[p := y], wl1)
  {
  }

  /** A change of p from x to y that needs nothing about the other processes. */
  predicate PlainMove(n: nat, p: nat, x: Proc, y: Proc, wl: int, wl1: int) {
    && Local(p, y) && LockMove(p, y, wl, wl1) && ForkMove(x, y)
    && Childless(y.pc, n) <= Childless(x.pc, n) && Scanned(y.pc, n) <= Scanned(x.pc, n)
    && (Committed(y) ==> Committed(x)) && (y.st.ZOMBIE? ==> x.st.ZOMBIE?)
    && (x.pc.ExitWakeInit? || y.pc.ExitWakeInit? ==> y.pc == x.pc)
    && (y.pc.ExitWake? ==> y.pc == x.pc || y.pc == ExitWake(y.parent, 0))
    && (p == INIT ==> !Exiting(y.pc) && !y.pc.NoThread?)
  }

  lemma PlainWaits(ps: seq<Proc>, wl: int, p: nat, y: Proc, wl1: int)
    requires Tree(ps) && Waits(ps, wl) && p < |ps| && PlainMove(|ps|, p, ps[p], y, wl, wl1)
    ensures Waits(ps[p := y], wl1)
  {
    SetWaits(ps, wl, p, y, wl1);
  }

  lemma Plain(s: State, p: nat, y: Proc, wl1: int)
    requires Inv(s) && p < |s.ps| && PlainMove(|s.ps|, p, s.ps[p], y, s.wl, wl1)
    requires Active(y.pc) || y.lock <==> Active(s.ps[p].pc) || s.ps[p].lock
    ensures Inv(State(s.ps[p := y], wl1, s.cpu))
  {
    Opened(s);
    SetWaitLock(s.ps, s.wl, p, y, wl1);
    SetCpus(s.ps, s.cpu, p, y);
    SetForks(s.ps, p, y);
    SetTree(s.ps, p, y);
    PlainWaits(s.ps, s.wl, p, y, wl1);
  }

  lemma SetCpu(ps: seq<Proc>, cpu: seq<int>, p: nat, y: Proc, c: nat)
    requires Cpus(ps, cpu) && p < |ps| && c < |cpu|
    requires Active(y.pc) || y.lock
    requires cpu[c] == -1 && !Active(ps[p].pc) && !ps[p].lock
    ensures Cpus(ps[p := y], cpu[c := p])
  {
    var cpu1 := cpu[c := p];
    assert cpu1[c] == p;
    forall k | 0 <= k < |ps| && k != p
      ensures k in cpu1 <==> k in cpu
    {
      if k in cpu {
        var d :| 0 <= d < |cpu| && cpu[d] == k;
        assert cpu1[d] == k;
      }
    }
  }

  lemma ClearCpu(ps: seq<Proc>, cpu: seq<int>, p: nat, y: Proc, c: nat)
    requires Cpus(ps, cpu) && p < |ps| && c < |cpu|
    requires !Active(y.pc) && !y.lock && cpu[c] == p
    ensures Cpus(ps[p := y], cpu[c := -1])
  {
    var cpu1 := cpu[c := -1];
    forall k | 0 <= k < |ps| && k != p
      ensures k in cpu1 <==> k in cpu
    {
      if k in cpu {
        var d :| 0 <= d < |cpu| && cpu[d] == k;
        assert cpu1[d] == k;
      }
    }
    assert p !in cpu1;
  }

  lemma DispatchInv(s: State, p: nat, c: nat, y: Proc)
    requires Inv(s) && p < |s.ps| && c < |s.cpu| && s.cpu[c] == -1 && !s.ps[p].lock && s.ps[p].st.RUNNABLE?
    requires y == s.ps[p].(st := RUNNING, lock := true, pc := Woken(Parked(s.ps[p].pc)))
    ensures Inv(State(s.ps[p := y], s.wl, s.cpu[c := p]))
  {
    LocalOf(s, p);
    assert Holds(Holder, s) && Holds(Family, s);
    var t := State(s.ps[p := y], s.wl, s.cpu[c := p]);
    forall u
      ensures Holds(u, t)
    {
      assert Holds(u, s);
      match u
      case Threads =>
      case Holder => SetWaitLock(s.ps, s.wl, p, y, s.wl);
      case Running => SetCpu(s.ps, s.cpu, p, y, c);
      case Births => SetForks(s.ps, p, y);
      case Family => SetTree(s.ps, p, y);
      case Sleepers => PlainWaits(s.ps, s.wl, p, y, s.wl);
    }
  }

  lemma CpuReleaseInv(s: State, p: nat, c: nat, y: Proc)
    requires Inv(s) && p < |s.ps| && OnCpu(s, p, c) && !Active(s.ps[p].pc) && y == s.ps[p].(lock := false)
    ensures Inv(State(s.ps[p := y], s.wl, s.cpu[c := -1]))
  {
    Opened(s);
    assert Local(p, s.ps[p]);
    SetWaitLock(s.ps, s.wl, p, y, s.wl);
    ClearCpu(s.ps, s.cpu, p, y, c);
    SetForks(s.ps, p, y);
    SetTree(s.ps, p, y);
    PlainWaits(s.ps, s.wl, p, y, s.wl);
  }

  // ---------- the steps that look at another process ----------

  /** One process changes, in a way that depends on its children or its parent. */
  lemma Kin(s: State, p: nat, y: Proc)
    requires Inv(s) && p < |s.ps| && Local(p, y) && LockMove(p, y, s.wl, s.wl) && ForkMove(s.ps[p], y)
    requires Active(y.pc) || y.lock <==> Active(s.ps[p].pc) || s.ps[p].lock
    requires TreeMove(s.ps, p, y) && WaitsMove(s.ps, s.wl, p, y, s.wl)
    ensures Inv(State(s.ps[p := y], s.wl, s.cpu))
  {
    Opened(s);
    SetWaitLock(s.ps, s.wl, p, y, s.wl);
    SetCpus(s.ps, s.cpu, p, y);
    SetForks(s.ps, p, y);
    SetTree(s.ps, p, y);
    SetWaits(s.ps, s.wl, p, y, s.wl);
  }

  lemma SleepLockInv(s: State, p: nat, y: Proc)
    requires Inv(s) && p < |s.ps| && s.ps[p].pc.SleepBegin? && !s.ps[p].lock
    requires y == s.ps[p].(lock := true, pc := SleepLocked(s.ps[p].pc.w))
    ensures Inv(State(s.ps[p := y], s.wl, s.cpu))
  {
    LocalOf(s, p);
    assert Holds(Holder, s) && Holds(Family, s) && Holds(Sleepers, s);
    SleepMoves(s.ps, s.wl, p, y);
    Kin(s, p, y);
  }

  /** p has seen all of its children and still holds wait_lock, so nobody can be in exit. */
  lemma SleepMoves(ps: seq<Proc>, wl: int, p: nat, y: Proc)
    requires Tree(ps) && Waits(ps, wl) && WaitLock(ps, wl) && p < |ps| && ps[p].pc.SleepBegin? && Local(p, ps[p])
    requires y == ps[p].(lock := true, pc := SleepLocked(ps[p].pc.w))
    ensures TreeMove(ps, p, y) && WaitsMove(ps, wl, p, y, wl)
  {
    assert Scanned(ps[p].pc, |ps|) == if ps[p].pc.w then |ps| else 0;
  }

  /** The parent has been woken and cannot be back asleep: p still holds wait_lock. */
  lemma ExitZombieInv(s: State, p: nat, y: Proc)
    requires Inv(s) && p < |s.ps| && s.ps[p].pc.ExitWake? && s.ps[p].pc.j >= |s.ps| && !s.ps[p].lock
    requires y == s.ps[p].(st := ZOMBIE, lock := true, pc := ExitZombied)
    ensures Inv(State(s.ps[p := y], s.wl, s.cpu))
  {
    Opened(s);
    ZombieShape(s.ps, s.wl, s.cpu, p, y);
    ZombieWaits(s.ps, s.wl, p, y);
  }

  lemma ZombieShape(ps: seq<Proc>, wl: int, cpu: seq<int>, p: nat, y: Proc)
    requires Locals(ps) && WaitLock(ps, wl) && Cpus(ps, cpu) && Forks(ps) && Tree(ps) && p < |ps|
    requires ps[p].pc.ExitWake? && !ps[p].lock && y == ps[p].(st := ZOMBIE, lock := true, pc := ExitZombied)
    ensures Locals(ps[p := y]) && WaitLock(ps[p := y], wl) && Cpus(ps[p := y], cpu) && Forks(ps[p := y])
    ensures Tree(ps[p := y])
  {
    assert Local(p, ps[p]);
    SetWaitLock(ps, wl, p, y, wl);
    SetCpus(ps, cpu, p, y);
    SetForks(ps, p, y);
    SetTree(ps, p, y);
  }

  lemma ZombieWaits(ps: seq<Proc>, wl: int, p: nat, y: Proc)
    requires Tree(ps) && Waits(ps, wl) && WaitLock(ps, wl) && p < |ps|
    requires ps[p].pc.ExitWake? && ps[p].pc.j >= |ps| && y == ps[p].(st := ZOMBIE, lock := true, pc := ExitZombied)
    ensures Waits(ps[p := y], wl)
  {
    var t := ps[p := y];
    assert forall q :: 0 <= q < |ps| && HoldsWait(ps[q].pc) ==> q == p;
    assert !InitPending(ps, wl);
    forall a, q | 0 <= a < |t| && 0 <= q < |t| && t[q].parent == a
      ensures !Committed(t[a]) || !t[q].st.ZOMBIE?
    {
      assert q != p ==> !Committed(ps[a]) || !ps[q].st.ZOMBIE?;
    }
  }

  /** ReparentStep on an index that is not a child. */
  lemma ReparentSkipInv(s: State, p: nat, y: Proc)
    requires Inv(s) && p < |s.ps| && s.ps[p].pc.ExitReparent? && s.ps[p].pc.k < |s.ps|
    requires s.ps[s.ps[p].pc.k].parent != p && y == s.ps[p].(pc := ExitReparent(s.ps[p].pc.k + 1))
    ensures Inv(State(s.ps[p := y], s.wl, s.cpu))
  {
    LocalOf(s, p);
    assert Holds(Holder, s) && Holds(Family, s) && Holds(Sleepers, s);
    SkipMoves(s.ps, s.wl, p, y);
    Kin(s, p, y);
  }

  lemma SkipMoves(ps: seq<Proc>, wl: int, p: nat, y: Proc)
    requires Tree(ps) && Waits(ps, wl) && WaitLock(ps, wl) && p < |ps| && ps[p].pc.ExitReparent? && ps[p].pc.k < |ps|
    requires ps[ps[p].pc.k].parent != p && y == ps[p].(pc := ExitReparent(ps[p].pc.k + 1))
    ensures TreeMove(ps, p, y) && WaitsMove(ps, wl, p, y, wl)
  {
  }

  /** One round of wakeup changes at most a sleeper to runnable. */
  lemma WokeInv(s: State, p: nat, target: int, j: nat)
    requires Inv(s) && j < |s.ps| && (j != p ==> !s.ps[j].lock)
    ensures Inv(Woke(s, p, target, j))
    ensures j != p && j == target ==> !Committed(Woke(s, p, target, j).ps[j])
    ensures forall k :: 0 <= k < |s.ps| && k != j ==> Woke(s, p, target, j).ps[k] == s.ps[k]
    ensures var t := Woke(s, p, target, j); |t.ps| == |s.ps| && t.wl == s.wl && t.ps[j].pc == s.ps[j].pc
  {
    Opened(s);
    var y := s.ps[j];
    assert Local(j, y);
    if j != p && y.st.SLEEPING? && y.chan == ProcChan(target) {
      Plain(s, j, y.(st := RUNNABLE), s.wl);
    }
  }

  lemma PassParentInv(s: State, p: nat, par: int, j: nat)
    requires Inv(s) && p < |s.ps| && s.ps[p].pc == ExitWake(par, j) && j < |s.ps| && (par == j ==> !Committed(s.ps[j]))
    ensures Inv(Goto(s, p, ExitWake(par, j + 1)))
  {
    var y := s.ps[p].(pc := ExitWake(par, j + 1));
    LocalOf(s, p);
    assert Holds(Holder, s) && Holds(Family, s) && Holds(Sleepers, s);
    PassMoves(s.ps, s.wl, p, y);
    Kin(s, p, y);
  }

  lemma PassMoves(ps: seq<Proc>, wl: int, p: nat, y: Proc)
    requires Tree(ps) && Waits(ps, wl) && WaitLock(ps, wl) && p < |ps| && ps[p].pc.ExitWake? && ps[p].pc.j < |ps|
    requires (ps[p].pc.par == ps[p].pc.j ==> !Committed(ps[ps[p].pc.j]))
             && y == ps[p].(pc := ExitWake(ps[p].pc.par, ps[p].pc.j + 1))
    ensures TreeMove(ps, p, y) && WaitsMove(ps, wl, p, y, wl)
  {
  }

  lemma WakeParentInv(s: State, p: nat, par: int, j: nat)
    requires Inv(s) && p < |s.ps| && s.ps[p].pc == ExitWake(par, j) && j < |s.ps| && (j != p ==> !s.ps[j].lock)
    ensures Inv(DoWakeParent(s, p, par, j))
  {
    Opened(s);
    WokeInv(s, p, par, j);
    PassParentInv(Woke(s, p, par, j), p, par, j);
  }

  lemma PassInitInv(s: State, p: nat, k: nat, j: nat)
    requires Inv(s) && p < |s.ps| && s.ps[p].pc == ExitWakeInit(k, j) && j < |s.ps|
    requires j == INIT ==> !Committed(s.ps[j])
    ensures Inv(Goto(s, p, ExitWakeInit(k, j + 1)))
  {
    Opened(s);
    assert Local(p, s.ps[p]);
    Kin(s, p, s.ps[p].(pc := ExitWakeInit(k, j + 1)));
  }

  lemma WakeInitInv(s: State, p: nat, k: nat, j: nat)
    requires Inv(s) && p < |s.ps| && s.ps[p].pc == ExitWakeInit(k, j) && j < |s.ps| && (j != p ==> !s.ps[j].lock)
    ensures Inv(Goto(Woke(s, p, INIT, j), p, ExitWakeInit(k, j + 1)))
  {
    Opened(s);
    WokeInv(s, p, INIT, j);
    PassInitInv(Woke(s, p, INIT, j), p, k, j);
  }

  lemma WakeInitEndInv(s: State, p: nat, k: nat, j: nat)
    requires Inv(s) && p < |s.ps| && s.ps[p].pc == ExitWakeInit(k, j) && j >= |s.ps|
    ensures Inv(Goto(s, p, ExitReparent(k + 1)))
  {
    Opened(s);
    assert Local(p, s.ps[p]);
    Kin(s, p, s.ps[p].(pc := ExitReparent(k + 1)));
  }

  // ---------- the steps that change another process ----------

  lemma SetParentShape(ps: seq<Proc>, wl: int, cpu: seq<int>, k: nat, parent: int)
    requires Locals(ps) && WaitLock(ps, wl) && Cpus(ps, cpu) && k < |ps| && (ps[k].st.UNUSED? ==> parent == -1)
    ensures var t := ps[k := ps[k].(parent := parent)]; Locals(t) && WaitLock(t, wl) && Cpus(t, cpu)
  {
    var y := ps[k].(parent := parent);
    assert Local(k, ps[k]);
    SetWaitLock(ps, wl, k, y, wl);
    SetCpus(ps, cpu, k, y);
  }

  lemma GotoShape(ps: seq<Proc>, wl: int, cpu: seq<int>, p: nat, pc: Pc)
    requires Locals(ps) && WaitLock(ps, wl) && Cpus(ps, cpu) && p < |ps|
    requires Local(p, ps[p].(pc := pc)) && (HoldsWait(pc) <==> wl == p) && Active(pc) && Active(ps[p].pc)
    ensures var t := ps[p := ps[p].(pc := pc)]; Locals(t) && WaitLock(t, wl) && Cpus(t, cpu)
  {
    var y := ps[p].(pc := pc);
    SetWaitLock(ps, wl, p, y, wl);
    SetCpus(ps, cpu, p, y);
  }

  /** Process k gets another parent. */
  function Reowned(ps: seq<Proc>, k: nat, parent: int): seq<Proc>
    requires k < |ps|
  {
    ps[k := ps[k].(parent := parent)]
  }

  lemma ReownForks(ps: seq<Proc>, k: nat, parent: int)
    requires Forks(ps) && k < |ps| && NobodyForks(ps, k)
    ensures Forks(Reowned(ps, k, parent)) && NobodyForks(Reowned(ps, k, parent), k)
  {
  }

  ghost predicate NobodyForks(ps: seq<Proc>, k: nat) {
    forall q :: 0 <= q < |ps| && Forking(ps[q].pc) ==> Kid(ps[q].pc) != k
  }

  /** p stops being in the middle of fork. */
  lemma NoForkNow(ps: seq<Proc>, p: nat)
    requires Forks(ps) && p < |ps| && Forking(ps[p].pc)
    ensures var t := ps[p := ps[p].(pc := User)]; Forks(t) && NobodyForks(t, Kid(ps[p].pc))
  {
    SetForks(ps, p, ps[p].(pc := User));
  }

  lemma NewFork(ps: seq<Proc>, p: nat, pc: Pc)
    requires Forks(ps) && p < |ps|
    requires (pc.ForkHave? || pc.ForkLinked?) && pc.k < |ps| && pc.k != p && pc.k != INIT && NobodyForks(ps, pc.k)
    requires ps[p].pc.User? && ps[pc.k].pc.Fresh? && ps[pc.k].st.USED?
    requires ps[pc.k].parent == if pc.ForkHave? then -1 else p
    ensures Forks(ps[p := ps[p].(pc := pc)])
  {
  }

  lemma IdleForks(ps: seq<Proc>, k: nat, y: Proc)
    requires Forks(ps) && k < |ps| && NobodyForks(ps, k) && !Forking(y.pc)
    ensures Forks(ps[k := y])
  {
  }

  lemma ReownTree(ps: seq<Proc>, k: nat, parent: int)
    requires Tree(ps) && k < |ps| && -1 <= parent < |ps| && parent != k && (k == INIT ==> parent == -1)
    requires 0 <= parent ==> Childless(ps[parent].pc, |ps|) == 0
    ensures Tree(Reowned(ps, k, parent))
  {
  }

  lemma ReownWaits(ps: seq<Proc>, wl: int, k: nat, parent: int)
    requires Waits(ps, wl) && k < |ps| && -1 <= parent < |ps| && !ps[k].pc.ExitWake?
    requires 0 <= parent && ps[k].st.ZOMBIE? ==>
      Scanned(ps[parent].pc, |ps|) == 0 && (Committed(ps[parent]) ==> parent == INIT && InitPending(ps, wl))
    ensures Waits(Reowned(ps, k, parent), wl)
  {
    var t := Reowned(ps, k, parent);
    assert forall q :: 0 <= q < |ps| ==>
      t[q].pc == ps[q].pc && t[q].st == ps[q].st && Committed(t[q]) == Committed(ps[q]);
    assert InitPending(ps, wl) == InitPending(t, wl);
  }

  lemma ReparentChildInv(s: State, p: nat, k: nat)
    requires Inv(s) && p < |s.ps| && k < |s.ps| && s.ps[p].pc == ExitReparent(k) && s.ps[k].parent == p
    ensures Inv(Goto(s.(ps := s.ps[k := s.ps[k].(parent := INIT)]), p, ExitWakeInit(k, 0)))
  {
    Opened(s);
    assert Local(p, s.ps[p]) && Local(k, s.ps[k]);
    var ps1 := s.ps[k := s.ps[k].(parent := INIT)];
    SetParentShape(s.ps, s.wl, s.cpu, k, INIT);
    GotoShape(ps1, s.wl, s.cpu, p, ExitWakeInit(k, 0));
    ReparentTree(s.ps, s.wl, p, k);
    ReparentWaits(s.ps, s.wl, p, k);
  }

  lemma ReparentTree(ps: seq<Proc>, wl: int, p: nat, k: nat)
    requires Forks(ps) && Tree(ps) && p < |ps| && k < |ps| && ps[p].pc == ExitReparent(k) && ps[k].parent == p
    ensures var t := Reowned(ps, k, INIT)[p := ps[p].(pc := ExitWakeInit(k, 0))]; Forks(t) && Tree(t)
  {
    var y := ps[p].(pc := ExitWakeInit(k, 0));
    ReownForks(ps, k, INIT);
    SetForks(Reowned(ps, k, INIT), p, y);
    ReparentFamily(ps, p, k, y);
  }

  lemma ReparentFamily(ps: seq<Proc>, p: nat, k: nat, y: Proc)
    requires Tree(ps) && p < |ps| && k < |ps| && ps[p].pc == ExitReparent(k) && ps[k].parent == p
    requires y == ps[p].(pc := ExitWakeInit(k, 0))
    ensures Tree(Reowned(ps, k, INIT)[p := y])
  {
    ReownTree(ps, k, INIT);
    SetTree(Reowned(ps, k, INIT), p, y);
  }

  lemma ReparentWaits(ps: seq<Proc>, wl: int, p: nat, k: nat)
    requires WaitLock(ps, wl) && Tree(ps) && Waits(ps, wl) && p < |ps| && k < |ps|
    requires ps[p].pc == ExitReparent(k) && ps[k].parent == p
    ensures Waits(Reowned(ps, k, INIT)[p := ps[p].(pc := ExitWakeInit(k, 0))], wl)
  {
    var y := ps[p].(pc := ExitWakeInit(k, 0));
    assert wl == p && k != p;
    SetWaits(ps, wl, p, y, wl);
    ReownWaits(ps[p := y], wl, k, INIT);
    assert Reowned(ps[p := y], k, INIT) == Reowned(ps, k, INIT)[p := y];
  }

  /** wait's scan moves past an index: not a child, or a child that is no zombie. */
  lemma ScanNextInv(s: State, p: nat, pc: Pc)
    requires Inv(s) && p < |s.ps| && s.ps[p].pc.WaitScan? && s.ps[p].pc.k < |s.ps|
    requires s.ps[s.ps[p].pc.k].parent != p || !s.ps[s.ps[p].pc.k].st.ZOMBIE?
    requires pc.WaitScan? && pc.k == s.ps[p].pc.k + 1
    ensures Inv(Goto(s, p, pc))
  {
    Opened(s);
    var y := s.ps[p].(pc := pc);
    assert Local(p, s.ps[p]);
    ScanMoves(s.ps, s.wl, p, y);
    Kin(s, p, y);
  }

  lemma ScanMoves(ps: seq<Proc>, wl: int, p: nat, y: Proc)
    requires Tree(ps) && Waits(ps, wl) && WaitLock(ps, wl) && p < |ps| && ps[p].pc.WaitScan? && ps[p].pc.k < |ps|
    requires ps[ps[p].pc.k].parent != p || !ps[ps[p].pc.k].st.ZOMBIE?
    requires y == ps[p].(pc := y.pc) && y.pc.WaitScan? && y.pc.k == ps[p].pc.k + 1
    ensures TreeMove(ps, p, y) && WaitsMove(ps, wl, p, y, wl)
  {
    assert Scanned(ps[p].pc, |ps|) == ps[p].pc.k;
  }

  /** freeproc of a zombie whose lock is free: it has no children and nothing runs on it. */
  lemma FreeInv(s: State, p: nat, k: nat)
    requires Inv(s) && k < |s.ps| && s.ps[k].st.ZOMBIE? && !s.ps[k].lock
    ensures Inv(State(s.ps[k := Freed(s.ps[k])], s.wl, s.cpu))
  {
    Opened(s);
    FreeShape(s.ps, s.wl, s.cpu, k);
    FreeWaits(s.ps, s.wl, k);
  }

  lemma FreeShape(ps: seq<Proc>, wl: int, cpu: seq<int>, k: nat)
    requires Locals(ps) && WaitLock(ps, wl) && Cpus(ps, cpu) && Forks(ps) && Tree(ps) && k < |ps| && ps[k].st.ZOMBIE?
    requires !ps[k].lock
    ensures var t := ps[k := Freed(ps[k])]; Locals(t) && WaitLock(t, wl) && Cpus(t, cpu) && Forks(t) && Tree(t)
    ensures ps[k].pc.Dead?
  {
    var y := Freed(ps[k]);
    assert Local(k, ps[k]);
    SetWaitLock(ps, wl, k, y, wl);
    SetCpus(ps, cpu, k, y);
    FreeTree(ps, k);
  }

  lemma FreeTree(ps: seq<Proc>, k: nat)
    requires Forks(ps) && Tree(ps) && k < |ps| && ps[k].pc.Dead?
    ensures var t := ps[k := Freed(ps[k])]; Forks(t) && Tree(t)
  {
    var y := Freed(ps[k]);
    IdleForks(ps, k, y);
    ReownTree(ps, k, -1);
    SetTree(Reowned(ps, k, -1), k, y);
    assert Reowned(ps, k, -1)[k := y] == ps[k := y];
  }

  lemma FreeWaits(ps: seq<Proc>, wl: int, k: nat)
    requires Tree(ps) && Waits(ps, wl) && k < |ps| && ps[k].pc.Dead?
    ensures Waits(ps[k := Freed(ps[k])], wl)
  {
    var y := Freed(ps[k]);
    ReownWaits(ps, wl, k, -1);
    SetWaits(Reowned(ps, k, -1), wl, k, y, wl);
    assert Reowned(ps, k, -1)[k := y] == ps[k := y];
  }

  lemma ReapInv(s: State, p: nat, k: nat)
    requires Inv(s) && p < |s.ps| && k < |s.ps| && s.ps[p].pc.WaitScan? && s.ps[p].pc.k == k
    requires s.ps[k].st.ZOMBIE? && !s.ps[k].lock
    ensures Inv(Goto(s.(ps := s.ps[k := Freed(s.ps[k])]), p, WaitDone))
  {
    Opened(s);
    assert Local(p, s.ps[p]) && Local(k, s.ps[k]);
    FreeInv(s, p, k);
    var t := s.(ps := s.ps[k := Freed(s.ps[k])]);
    Plain(t, p, t.ps[p].(pc := WaitDone), t.wl);
  }

  /** allocproc. */
  lemma AllocInv(s: State, np: nat)
    requires Inv(s) && np < |s.ps| && s.ps[np].st.UNUSED? && !s.ps[np].lock
    ensures var t := s.ps[np := s.ps[np].(st := USED, pc := Fresh)]; Inv(State(t, s.wl, s.cpu)) && NobodyForks(t, np)
    ensures np != INIT
  {
    Opened(s);
    assert Local(np, s.ps[np]);
    Plain(s, np, s.ps[np].(st := USED, pc := Fresh), s.wl);
  }

  lemma HaveInv(s: State, p: nat, np: nat)
    requires Inv(s) && p < |s.ps| && np < |s.ps| && p != np && s.ps[p].pc.User? && np != INIT && NobodyForks(s.ps, np)
    requires s.ps[np].pc.Fresh? && s.ps[np].st.USED? && s.ps[np].parent == -1
    ensures Inv(Goto(s, p, ForkHave(np)))
  {
    Opened(s);
    assert Local(p, s.ps[p]);
    GotoShape(s.ps, s.wl, s.cpu, p, ForkHave(np));
    HaveForks(s.ps, p, np);
    HaveWaits(s.ps, s.wl, p, np);
  }

  lemma ForkAllocInv(s: State, p: nat, np: nat)
    requires Inv(s) && p < |s.ps| && np < |s.ps| && s.ps[p].pc.User? && s.ps[np].st.UNUSED? && !s.ps[np].lock
    ensures Inv(Goto(s.(ps := s.ps[np := s.ps[np].(st := USED, pc := Fresh)]), p, ForkHave(np)))
  {
    Opened(s);
    assert Local(p, s.ps[p]) && Local(np, s.ps[np]);
    AllocInv(s, np);
    HaveInv(s.(ps := s.ps[np := s.ps[np].(st := USED, pc := Fresh)]), p, np);
  }

  lemma HaveForks(ps: seq<Proc>, p: nat, np: nat)
    requires Forks(ps) && Tree(ps) && p < |ps| && np < |ps| && p != np && np != INIT && ps[p].pc.User?
    requires NobodyForks(ps, np)
    requires ps[np].pc.Fresh? && ps[np].st.USED? && ps[np].parent == -1
    ensures var t := ps[p := ps[p].(pc := ForkHave(np))]; Forks(t) && Tree(t)
  {
    SetTree(ps, p, ps[p].(pc := ForkHave(np)));
    NewFork(ps, p, ForkHave(np));
  }

  lemma HaveWaits(ps: seq<Proc>, wl: int, p: nat, np: nat)
    requires Tree(ps) && Waits(ps, wl) && p < |ps| && ps[p].pc.User?
    ensures Waits(ps[p := ps[p].(pc := ForkHave(np))], wl)
  {
    SetWaits(ps, wl, p, ps[p].(pc := ForkHave(np)), wl);
  }

  lemma ForkLinkInv(s: State, p: nat, k: nat)
    requires Inv(s) && p < |s.ps| && k < |s.ps| && s.ps[p].pc == ForkHave(k) && s.wl == -1
    ensures Inv(Goto(s.(ps := s.ps[k := s.ps[k].(parent := p)]), p, ForkLinked(k)))
  {
    Opened(s);
    assert Local(p, s.ps[p]) && Local(k, s.ps[k]);
    var ps1 := s.ps[k := s.ps[k].(parent := p)];
    SetParentShape(s.ps, s.wl, s.cpu, k, p);
    GotoShape(ps1, s.wl, s.cpu, p, ForkLinked(k));
    LinkForks(s.ps, p, k);
    LinkWaits(s.ps, s.wl, p, k);
  }

  lemma LinkForks(ps: seq<Proc>, p: nat, k: nat)
    requires Forks(ps) && Tree(ps) && p < |ps| && k < |ps| && ps[p].pc == ForkHave(k)
    ensures var t := Reowned(ps, k, p)[p := ps[p].(pc := ForkLinked(k))]; Forks(t) && Tree(t)
  {
    var idle, y := ps[p := ps[p].(pc := User)], ps[p].(pc := ForkLinked(k));
    NoForkNow(ps, p);
    ReownForks(idle, k, p);
    NewFork(Reowned(idle, k, p), p, ForkLinked(k));
    assert Reowned(idle, k, p)[p := y] == Reowned(ps, k, p)[p := y];
    ReownTree(ps, k, p);
    SetTree(Reowned(ps, k, p), p, y);
  }

  lemma LinkWaits(ps: seq<Proc>, wl: int, p: nat, k: nat)
    requires Forks(ps) && Tree(ps) && Waits(ps, wl) && p < |ps| && k < |ps| && ps[p].pc == ForkHave(k)
    ensures Waits(Reowned(ps, k, p)[p := ps[p].(pc := ForkLinked(k))], wl)
  {
    ReownWaits(ps, wl, k, p);
    SetWaits(Reowned(ps, k, p), wl, p, ps[p].(pc := ForkLinked(k)), wl);
  }

  lemma ForkRunInv(s: State, p: nat, k: nat)
    requires Inv(s) && p < |s.ps| && k < |s.ps| && s.ps[p].pc == ForkLinked(k)
    ensures Inv(Goto(s.(ps := s.ps[k := s.ps[k].(st := RUNNABLE)]), p, User))
  {
    Opened(s);
    assert Local(p, s.ps[p]) && Local(k, s.ps[k]);
    var y := s.ps[k].(st := RUNNABLE);
    var ps1 := s.ps[k := y];
    SetWaitLock(s.ps, s.wl, k, y, s.wl);
    SetCpus(s.ps, s.cpu, k, y);
    GotoShape(ps1, s.wl, s.cpu, p, User);
    RunForks(s.ps, p, k);
    RunWaits(s.ps, s.wl, p, k);
  }

  lemma RunForks(ps: seq<Proc>, p: nat, k: nat)
    requires Forks(ps) && Tree(ps) && p < |ps| && k < |ps| && ps[p].pc == ForkLinked(k)
    ensures var t := ps[k := ps[k].(st := RUNNABLE)][p := ps[p].(pc := User)]; Forks(t) && Tree(t)
  {
    var idle, x, y := ps[p := ps[p].(pc := User)], ps[k].(st := RUNNABLE), ps[p].(pc := User);
    NoForkNow(ps, p);
    IdleForks(idle, k, x);
    assert idle[k := x] == ps[k := x][p := y];
    SetTree(ps, k, x);
    SetTree(ps[k := x], p, y);
  }

  lemma RunWaits(ps: seq<Proc>, wl: int, p: nat, k: nat)
    requires Forks(ps) && Tree(ps) && Waits(ps, wl) && p < |ps| && k < |ps| && ps[p].pc == ForkLinked(k)
    ensures Waits(ps[k := ps[k].(st := RUNNABLE)][p := ps[p].(pc := User)], wl)
  {
    SetWaits(ps, wl, k, ps[k].(st := RUNNABLE), wl);
    SetWaits(ps[k := ps[k].(st := RUNNABLE)], wl, p, ps[p].(pc := User), wl);
  }

  // ---------- every step ----------

  /** The steps that change only the process itself and need nothing about the others. */
  predicate IsPlain(a: Action) {
    || a.ExitStart? || a.ExitRelease? || a.WaitStart? || a.ScanEnd? || a.WaitReturn? || a.SleepStart? || a.SleepRelease?
    || a.SleepGo? || a.Yield? || a.Switch? || a.Resume? || a.Kill? || a.WakeOther?
  }

  ghost predicate PlainResult(s: State, p: nat, t: State) {
    && p < |s.ps| && |t.ps| == |s.ps| && t == State(s.ps[p := t.ps[p]], t.wl, s.cpu)
    && PlainMove(|s.ps|, p, s.ps[p], t.ps[p], s.wl, t.wl)
    && (Active(t.ps[p].pc) || t.ps[p].lock <==> Active(s.ps[p].pc) || s.ps[p].lock)
  }

  lemma PlainTakeStep(s: State, a: Action)
    requires a.p < |s.ps| && Local(a.p, s.ps[a.p]) && Enabled(s, a) && (a.ExitStart? || a.WaitStart? || a.ScanEnd?)
    requires HoldsWait(s.ps[a.p].pc) <==> s.wl == a.p
    requires a.p == INIT ==> !Exiting(s.ps[a.p].pc) && !s.ps[a.p].pc.NoThread?
    ensures PlainResult(s, a.p, Apply(s, a))
  {
  }

  lemma PlainReleaseStep(s: State, a: Action)
    requires a.p < |s.ps| && Local(a.p, s.ps[a.p]) && Enabled(s, a)
    requires a.ExitRelease? || a.WaitReturn? || a.SleepRelease?
    requires HoldsWait(s.ps[a.p].pc) <==> s.wl == a.p
    requires a.p == INIT ==> !Exiting(s.ps[a.p].pc) && !s.ps[a.p].pc.NoThread?
    ensures PlainResult(s, a.p, Apply(s, a))
  {
  }

  lemma PlainOwnStep(s: State, a: Action)
    requires a.p < |s.ps| && Local(a.p, s.ps[a.p]) && Enabled(s, a)
    requires a.SleepStart? || a.SleepGo?
    requires HoldsWait(s.ps[a.p].pc) <==> s.wl == a.p
    requires a.p == INIT ==> !Exiting(s.ps[a.p].pc) && !s.ps[a.p].pc.NoThread?
    ensures PlainResult(s, a.p, Apply(s, a))
  {
  }

  lemma PlainYieldStep(s: State, a: Action)
    requires a.p < |s.ps| && Local(a.p, s.ps[a.p]) && Enabled(s, a) && (a.Yield? || a.Resume?)
    requires HoldsWait(s.ps[a.p].pc) <==> s.wl == a.p
    requires a.p == INIT ==> !Exiting(s.ps[a.p].pc) && !s.ps[a.p].pc.NoThread?
    ensures PlainResult(s, a.p, Apply(s, a))
  {
  }

  lemma PlainOtherStep(s: State, a: Action)
    requires a.p < |s.ps| && Local(a.p, s.ps[a.p]) && Enabled(s, a)
    requires a.Switch? || a.Kill? || a.WakeOther?
    requires HoldsWait(s.ps[a.p].pc) <==> s.wl == a.p
    requires a.p == INIT ==> !Exiting(s.ps[a.p].pc) && !s.ps[a.p].pc.NoThread?
    ensures PlainResult(s, a.p, Apply(s, a))
  {
  }

  lemma PlainStepInv(s: State, a: Action)
    requires Inv(s) && a.p < |s.ps| && Enabled(s, a) && IsPlain(a)
    ensures Inv(Apply(s, a))
  {
    LocalOf(s, a.p);
    assert Holds(Holder, s) && Holds(Family, s);
    if a.ExitStart? || a.WaitStart? || a.ScanEnd? {
      PlainTakeStep(s, a);
    } else if a.ExitRelease? || a.WaitReturn? || a.SleepRelease? {
      PlainReleaseStep(s, a);
    } else if a.SleepStart? || a.SleepGo? {
      PlainOwnStep(s, a);
    } else if a.Yield? || a.Resume? {
      PlainYieldStep(s, a);
    } else {
      PlainOtherStep(s, a);
    }
    var t := Apply(s, a);
    Plain(s, a.p, t.ps[a.p], t.wl);
  }

  lemma ReparentStepInv(s: State, p: nat)
    requires Inv(s) && p < |s.ps| && s.ps[p].pc.ExitReparent?
    ensures Inv(DoReparent(s, p))
  {
    var k := s.ps[p].pc.k;
    LocalOf(s, p);
    if k >= |s.ps| {
      assert Holds(Holder, s) && Holds(Family, s);
      Plain(s, p, s.ps[p].(pc := ExitWake(s.ps[p].parent, 0)), s.wl);
    } else if s.ps[k].parent == p {
      ReparentChildInv(s, p, k);
    } else {
      ReparentSkipInv(s, p, s.ps[p].(pc := ExitReparent(k + 1)));
    }
  }

  lemma WakeInitStepInv(s: State, p: nat, k: nat, j: nat)
    requires Inv(s) && p < |s.ps| && s.ps[p].pc == ExitWakeInit(k, j) && (j < |s.ps| && j != p ==> !s.ps[j].lock)
    ensures Inv(DoWakeInit(s, p, k, j))
  {
    if j < |s.ps| {
      WakeInitInv(s, p, k, j);
    } else {
      WakeInitEndInv(s, p, k, j);
    }
  }

  lemma ScanStepInv(s: State, p: nat, copyFails: bool)
    requires Inv(s) && p < |s.ps| && s.ps[p].pc.WaitScan? && s.ps[p].pc.k < |s.ps|
    requires s.ps[s.ps[p].pc.k].parent == p ==> !s.ps[s.ps[p].pc.k].lock
    ensures Inv(DoScan(s, p, copyFails))
  {
    var k, kids := s.ps[p].pc.k, s.ps[p].pc.kids;
    LocalOf(s, p);
    if s.ps[k].parent != p {
      ScanNextInv(s, p, WaitScan(k + 1, kids));
    } else if !s.ps[k].st.ZOMBIE? {
      ScanNextInv(s, p, WaitScan(k + 1, true));
    } else if copyFails {
      ScanFailInv(s, p);
    } else {
      ReapInv(s, p, k);
    }
  }

  lemma ScanFailInv(s: State, p: nat)
    requires Inv(s) && p < |s.ps| && s.ps[p].pc.WaitScan?
    ensures Inv(Goto(s, p, WaitDone))
  {
    Opened(s);
    assert Local(p, s.ps[p]);
    Plain(s, p, s.ps[p].(pc := WaitDone), s.wl);
  }

  lemma ExitStepInv(s: State, a: Action)
    requires Inv(s) && Enabled(s, a) && (a.ReparentStep? || a.WakeInitStep? || a.WakeParentStep? || a.ExitZombie?)
    ensures Inv(Apply(s, a))
  {
    match a
    case ReparentStep(p) => ReparentStepInv(s, p);
    case WakeInitStep(p) => WakeInitStepInv(s, p, s.ps[p].pc.k, s.ps[p].pc.j);
    case WakeParentStep(p) => WakeParentInv(s, p, s.ps[p].pc.par, s.ps[p].pc.j);
    case ExitZombie(p) => ExitZombieInv(s, p, Apply(s, a).ps[p]);
  }

  lemma WaitStepInv(s: State, a: Action)
    requires Inv(s) && Enabled(s, a) && (a.ScanStep? || a.SleepLock? || a.CpuRelease? || a.Dispatch?)
    ensures Inv(Apply(s, a))
  {
    match a
    case ScanStep(p, copyFails) => ScanStepInv(s, p, copyFails);
    case SleepLock(p) => SleepLockInv(s, p, Apply(s, a).ps[p]);
    case CpuRelease(p, c) => CpuReleaseInv(s, p, c, Apply(s, a).ps[p]);
    case Dispatch(p, c) => DispatchInv(s, p, c, Apply(s, a).ps[p]);
  }

  lemma ForkStepInv(s: State, a: Action)
    requires Inv(s) && Enabled(s, a) && (a.ForkAlloc? || a.ForkFail? || a.ForkLink? || a.ForkRun?)
    ensures Inv(Apply(s, a))
  {
    match a
    case ForkAlloc(p, np) => ForkAllocInv(s, p, np);
    case ForkFail(p) =>
    case ForkLink(p) => ForkLinkInv(s, p, s.ps[p].pc.k);
    case ForkRun(p) => ForkRunInv(s, p, s.ps[p].pc.k);
  }

  lemma StepInv(s: State, a: Action)
    requires Inv(s) && Enabled(s, a)
    ensures Inv(Apply(s, a))
  {
    if a.ReparentStep? || a.WakeInitStep? || a.WakeParentStep? || a.ExitZombie? {
      ExitStepInv(s, a);
    } else if a.ScanStep? || a.SleepLock? || a.CpuRelease? || a.Dispatch? {
      WaitStepInv(s, a);
    } else if a.ForkAlloc? || a.ForkFail? || a.ForkLink? || a.ForkRun? {
      ForkStepInv(s, a);
    } else {
      PlainStepInv(s, a);
    }
  }

  lemma StartInv(s: State)
    requires Start(s)
    ensures Inv(s)
  {
    assert forall k :: 0 <= k < |s.ps| ==> !HoldsWait(s.ps[k].pc) && !Committed(s.ps[k]);
  }

  lemma {:induction false} RunInv(s: State, run: seq<Action>, t: State)
    requires Runs(s, run, t)
    ensures Inv(t)
    decreases |run|
  {
    if run == [] {
      StartInv(s);
    } else {
      var before, a := run[..|run| - 1], run[|run| - 1];
      var m :| Runs(s, before, m) && Step(m, a, t);
      RunInv(s, before, m);
      StepInv(m, a);
    }
  }

  lemma ReachableInv(t: State)
    requires Reachable(t)
    ensures Inv(t)
  {
    var s, run :| Runs(s, run, t);
    RunInv(s, run, t);
  }

  // ---------- what it means ----------

  /** No wakeup is lost: with wait_lock free, nobody asleep in wait has a zombie child. */
  lemma SleepersHaveNoZombies(t: State, p: nat, q: nat)
    requires Reachable(t) && t.wl == -1 && p < |t.ps| && q < |t.ps|
    requires t.ps[p].st.SLEEPING? && t.ps[p].chan == ProcChan(p) && t.ps[q].parent == p
    ensures !t.ps[q].st.ZOMBIE?
  {
    ReachableInv(t);
    Opened(t);
    assert Local(p, t.ps[p]) && Committed(t.ps[p]);
  }

  /** A step that frees a process finds no CPU on its kernel stack, nor holding its lock. */
  lemma FreedOffStack(t: State, a: Action, k: nat)
    requires Reachable(t) && Enabled(t, a) && k < |t.ps| && !t.ps[k].st.UNUSED? && Apply(t, a).ps[k].st.UNUSED?
    ensures t.ps[k].st.ZOMBIE? && !Active(t.ps[k].pc) && k !in t.cpu
  {
    FreedByScan(t, a, k);
    ReachableInv(t);
    Opened(t);
    assert Local(k, t.ps[k]);
  }

  lemma FreedByScan(t: State, a: Action, k: nat)
    requires Enabled(t, a) && k < |t.ps| && !t.ps[k].st.UNUSED? && Apply(t, a).ps[k].st.UNUSED?
    ensures t.ps[k].st.ZOMBIE? && !t.ps[k].lock
  {
  }

  /** With wait_lock free every child has a parent that still lives, so every zombie can be reaped. */
  lemma ParentsLive(t: State, q: nat)
    requires Reachable(t) && t.wl == -1 && q < |t.ps| && t.ps[q].parent != -1
    ensures var p := t.ps[q].parent; 0 <= p < |t.ps| && !t.ps[p].st.UNUSED? && !t.ps[p].st.ZOMBIE?
  {
    ReachableInv(t);
    Opened(t);
    var p := t.ps[q].parent;
    assert Local(p, t.ps[p]);
  }

  /** sched is entered with the process lock held, no other modelled lock, and a state other than RUNNING. */
  lemma SchedChecksPass(t: State, p: nat, c: nat)
    requires Reachable(t) && Enabled(t, Switch(p, c))
    ensures t.ps[p].lock && t.wl != p && !t.ps[p].st.RUNNING?
  {
    ReachableInv(t);
    Opened(t);
    assert Local(p, t.ps[p]);
  }

  /** Two CPUs never run the same process. */
  lemma OneCpuEach(t: State, c: nat, d: nat)
    requires Reachable(t) && c < |t.cpu| && d < |t.cpu| && t.cpu[c] == t.cpu[d] != -1
    ensures c == d
  {
    ReachableInv(t);
    Opened(t);
  }
}
