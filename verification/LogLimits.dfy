/** How far begin_op's reservation reaches: reachable states in which log_write, or commit, does panic.

    Three operations are admitted at once and each may log ten blocks, which is LOGSIZE in all.
    On a log region of at most LOGSIZE blocks, as mkfs lays out, one of them finds no room for a new
    block; with one block more all fit, but logging any block again then panics.  A full log pins as many
    buffers as the cache has, and commit then finds none for its own log blocks. */
module LogLimits {
  import opened LogProtocol
  import opened Params
  import opened Sets
  import opened Wal

  /** R holds of every state a step leads to from one where it holds. */
  ghost predicate Closed(g: Geometry, R: State -> bool) {
    forall s, a :: R(s) && Enabled(g, s, a) && !Panics(g, s, a) ==> R(Apply(g, s, a))
  }

  lemma Take(g: Geometry, R: State -> bool, s: State, a: Action)
    requires Closed(g, R) && R(s) && Enabled(g, s, a) && !Panics(g, s, a)
    ensures R(Apply(g, s, a))
  {
  }

  lemma ReachableClosed(g: Geometry, d: Disk)
    requires Bootable(g, d)
    ensures Reachable(g, d, PowerOn(d)) && Closed(g, s => Reachable(g, d, s))
  {
    assert Runs(g, PowerOn(d), [], PowerOn(d));
    forall s, a | Reachable(g, d, s) && Enabled(g, s, a) && !Panics(g, s, a)
      ensures Reachable(g, d, Apply(g, s, a))
    {
      StepReachable(g, d, s, a, Apply(g, s, a));
    }
  }

  // ---------- three operations sharing the log ----------

  function Clamp(n: int): nat {
    if n < 0 then 0 else if n > MAXOPBLOCKS then MAXOPBLOCKS else n
  }

  /** The operation whose turn it is to log the k-th block. */
  function Turn(k: nat): nat {
    if k < 10 then 0 else if k < 20 then 1 else 2
  }

  ghost predicate Budget(op: Op, n: nat, first: int, k: nat) {
    |op.logged| == n && forall b :: b in op.logged ==> first <= b < first + k
  }

  /** Operations 0, 1 and 2 have between them logged blocks first .. first + k - 1, ten each. */
  ghost predicate Budgets(ops: map<nat, Op>, first: int, k: nat) {
    && ops.Keys == {0, 1, 2}
    && Budget(ops[0], Clamp(k), first, k)
    && Budget(ops[1], Clamp(k - 10), first, k)
    && Budget(ops[2], Clamp(k - 20), first, k)
    && (k > 0 ==> first in ops[0].logged)
  }

  ghost predicate Cached(cache: map<int, Buf>, first: int, k: nat) {
    && |cache| == k && (forall b :: b in cache <==> first <= b < first + k)
    && (forall b :: b in cache ==> cache[b].valid && cache[b].waiters == {} && cache[b].holder.None?)
  }

  ghost predicate Filling(s: State, first: int, k: nat) {
    && s.mode.Running? && s.outstanding == 3
    && Budgets(s.ops, first, k)
    && |s.lh| == k && (forall b :: b in s.lh <==> first <= b < first + k)
    && Cached(s.cache, first, k)
  }

  ghost function Begun(disk: Disk, n: nat): State {
    var s := State(disk, map[], [], 0, false, Running, map[], {}, 0, [], 0);
    if n == 0 then s
    else if n == 1 then DoBeginOp(s, 0)
    else if n == 2 then DoBeginOp(DoBeginOp(s, 0), 1)
    else DoBeginOp(DoBeginOp(DoBeginOp(s, 0), 1), 2)
  }

  lemma BootsUp(g: Geometry, R: State -> bool, d: Disk) returns (disk: Disk)
    requires Quiet(g, d) && Closed(g, R) && R(PowerOn(d))
    ensures R(Begun(disk, 0)) && |disk| == |d|
  {
    var s0 := PowerOn(d);
    var s1 := RecoverStep(g, s0);
    Take(g, R, s0, RecoverWrite);
    Take(g, R, s1, FinishRecovery);
    disk := s1.disk;
  }

  lemma AdmitsThree(g: Geometry, R: State -> bool, disk: Disk)
    requires Closed(g, R) && R(Begun(disk, 0))
    ensures R(Begun(disk, 3))
  {
    Take(g, R, Begun(disk, 0), BeginOp(0));
    Take(g, R, Begun(disk, 1), BeginOp(1));
    Take(g, R, Begun(disk, 2), BeginOp(2));
  }

  lemma BegunFills(disk: Disk, first: int)
    ensures Filling(Begun(disk, 3), first, 0)
  {
  }

  // ---------- logging one more block ----------

  /** t holds a buffer it has just read. */
  ghost function Fetched(s: State, t: nat, b: int): State
    requires 0 <= b < |s.disk|
  {
    s.(cache := s.cache[b := Buf(true, s.disk[b], 1, {}, Some(t), false)])
  }

  ghost function Logged(s: State, t: nat, b: int): State
    requires 0 <= b < |s.disk| && t in s.ops
  {
    s.(cache := s.cache[b := Buf(true, s.disk[b], 1, {}, None, false)],
       lh := s.lh + [b],
       ops := s.ops[t := s.ops[t].(logged := s.ops[t].logged + {b})],
       events := s.events + [Event(s.ops[t].id, b, s.disk[b])])
  }

  lemma Misses(g: Geometry, R: State -> bool, s: State, t: nat, b: int)
    requires Closed(g, R) && R(s) && !s.mode.Recovering? && HomeBlock(g, s.disk, b)
    requires b !in s.cache && |s.cache| < NBUF
    ensures R(s.(cache := s.cache[b := Buf(false, s.disk[b], 1, {t}, None, false)]))
  {
    assert s.cache.Keys - {} == s.cache.Keys && s.cache - {} == s.cache;
    Take(g, R, s, BgetMiss(t, b, {}, s.disk[b]));
  }

  lemma Locks(g: Geometry, R: State -> bool, s: State, t: nat, b: int, buf: Buf)
    requires Closed(g, R) && R(s.(cache := s.cache[b := buf])) && buf.holder.None? && buf.waiters == {t}
    ensures R(s.(cache := s.cache[b := buf.(waiters := {}, holder := Some(t))]))
  {
    var m := s.(cache := s.cache[b := buf]);
    Take(g, R, m, LockBuf(t, b));
    assert {t} - {t} == {};
    assert DoLockBuf(m, t, b).cache == s.cache[b := buf.(waiters := {}, holder := Some(t))];
  }

  lemma Reads(g: Geometry, R: State -> bool, s: State, t: nat, b: int)
    requires Closed(g, R) && HomeBlock(g, s.disk, b)
    requires R(s.(cache := s.cache[b := Buf(false, s.disk[b], 1, {}, Some(t), false)]))
    ensures R(Fetched(s, t, b))
  {
    var m := s.(cache := s.cache[b := Buf(false, s.disk[b], 1, {}, Some(t), false)]);
    Take(g, R, m, ReadBuf(t, b));
    assert DoReadBuf(m, b).cache == Fetched(s, t, b).cache;
  }

  lemma Fetches(g: Geometry, R: State -> bool, s: State, t: nat, b: int)
    requires Closed(g, R) && R(s) && s.mode.Running? && HomeBlock(g, s.disk, b) && b !in s.cache && |s.cache| < NBUF
    ensures R(Fetched(s, t, b))
  {
    Misses(g, R, s, t, b);
    Locks(g, R, s, t, b, Buf(false, s.disk[b], 1, {t}, None, false));
    Reads(g, R, s, t, b);
  }

  lemma LogsFetched(g: Geometry, R: State -> bool, s: State, t: nat, b: int)
    requires Closed(g, R) && HomeBlock(g, s.disk, b) && R(Fetched(s, t, b)) && t in s.ops && b !in s.lh
    requires |s.ops[t].logged + {b}| <= MAXOPBLOCKS && s.outstanding >= 1
    requires |s.lh| < LOGSIZE && |s.lh| < g.size - 1
    ensures R(Logged(s, t, b).(cache := s.cache[b := Buf(true, s.disk[b], 2, {}, Some(t), false)]))
  {
    var f := Fetched(s, t, b);
    Take(g, R, f, LogWrite(t, b));
    assert DoLogWrite(f, t, b).cache == s.cache[b := Buf(true, s.disk[b], 2, {}, Some(t), false)];
  }

  lemma Releases(g: Geometry, R: State -> bool, s: State, t: nat, b: int, cache: map<int, Buf>, data: Block)
    requires Closed(g, R) && R(s.(cache := cache[b := Buf(true, data, 2, {}, Some(t), false)]))
    ensures R(s.(cache := cache[b := Buf(true, data, 1, {}, None, false)]))
  {
    var m := s.(cache := cache[b := Buf(true, data, 2, {}, Some(t), false)]);
    Take(g, R, m, Brelse(t, b));
    assert DoBrelse(m, b).cache == cache[b := Buf(true, data, 1, {}, None, false)];
  }

  lemma LoggedBudgets(ops: map<nat, Op>, first: int, k: nat, t: nat, b: int)
    requires Budgets(ops, first, k) && k < LOGSIZE && t == Turn(k) && b == first + k
    ensures t in ops && |ops[t].logged + {b}| <= MAXOPBLOCKS
    ensures Budgets(ops[t := ops[t].(logged := ops[t].logged + {b})], first, k + 1)
  {
    assert b !in ops[t].logged;
    assert ops[t := ops[t].(logged := ops[t].logged + {b})].Keys == ops.Keys;
  }

  lemma TurnHasBudget(ops: map<nat, Op>, first: int, k: nat, t: nat, b: int)
    requires Budgets(ops, first, k) && k < LOGSIZE && t == Turn(k) && b == first + k
    ensures t in ops && |ops[t].logged + {b}| <= MAXOPBLOCKS
  {
    LoggedBudgets(ops, first, k, t, b);
  }

  lemma LoggedCached(cache: map<int, Buf>, first: int, k: nat, b: int, buf: Buf)
    requires Cached(cache, first, k) && buf.valid && buf.waiters == {} && buf.holder.None? && b == first + k
    ensures Cached(cache[b := buf], first, k + 1)
  {
    assert cache[b := buf].Keys == cache.Keys + {b};
  }

  lemma LoggedFills(s: State, first: int, k: nat, t: nat, b: int)
    requires Filling(s, first, k) && t == Turn(k) && b == first + k && k < LOGSIZE && 0 <= b < |s.disk|
    ensures t in s.ops && Filling(Logged(s, t, b), first, k + 1)
  {
    LoggedBudgets(s.ops, first, k, t, b);
    LoggedCached(s.cache, first, k, b, Buf(true, s.disk[b], 1, {}, None, false));
    assert forall c :: c in s.lh + [b] <==> c in s.lh || c == b;
  }

  lemma LogsOne(g: Geometry, R: State -> bool, s: State, t: nat, b: int)
    requires Closed(g, R) && R(s) && s.mode.Running? && HomeBlock(g, s.disk, b) && b !in s.cache && |s.cache| < NBUF
    requires t in s.ops && b !in s.lh && |s.ops[t].logged + {b}| <= MAXOPBLOCKS && s.outstanding >= 1
    requires |s.lh| < LOGSIZE && |s.lh| < g.size - 1
    ensures R(Logged(s, t, b))
  {
    Fetches(g, R, s, t, b);
    LogsFetched(g, R, s, t, b);
    Releases(g, R, Logged(s, t, b), t, b, s.cache, s.disk[b]);
  }

  lemma Grows(g: Geometry, R: State -> bool, s: State, k: nat, t: nat, b: int)
    requires Closed(g, R) && R(s) && Filling(s, g.start + g.size, k) && t == Turn(k) && b == g.start + g.size + k
    requires b < |s.disk| && k < LOGSIZE && k < g.size - 1
    ensures t in s.ops && R(Logged(s, t, b))
  {
    TurnHasBudget(s.ops, g.start + g.size, k, t, b);
    LogsOne(g, R, s, t, b);
  }

  // ---------- the two panics ----------

  /** A quiet disk with room for LOGSIZE blocks past the log. */
  ghost predicate Roomy(g: Geometry, d: Disk) {
    Quiet(g, d) && g.start + g.size + LOGSIZE <= |d|
  }

  lemma Starts(g: Geometry, R: State -> bool, d: Disk) returns (s: State)
    requires Closed(g, R) && R(PowerOn(d)) && Roomy(g, d)
    ensures R(s) && Filling(s, g.start + g.size, 0) && |s.disk| == |d|
  {
    var disk := BootsUp(g, R, d);
    AdmitsThree(g, R, disk);
    BegunFills(disk, g.start + g.size);
    s := Begun(disk, 3);
  }

  lemma OneMore(g: Geometry, R: State -> bool, m: State, first: int, k: nat) returns (s: State)
    requires Closed(g, R) && R(m) && Filling(m, first, k) && first == g.start + g.size
    requires first + k < |m.disk| && k < LOGSIZE && k < g.size - 1
    ensures R(s) && Filling(s, first, k + 1) && |s.disk| == |m.disk|
  {
    var t, b := Turn(k), first + k;
    LoggedFills(m, first, k, t, b);
    s := Logged(m, t, b);
    Grows(g, R, m, k, t, b);
  }

  lemma {:induction false} Fills(g: Geometry, R: State -> bool, d: Disk, k: nat) returns (s: State)
    requires Closed(g, R) && R(PowerOn(d)) && Roomy(g, d) && k <= LOGSIZE && k <= g.size - 1
    ensures R(s) && Filling(s, g.start + g.size, k) && |s.disk| == |d|
  {
    if k == 0 {
      s := Starts(g, R, d);
    } else {
      var m := Fills(g, R, d, k - 1);
      s := OneMore(g, R, m, g.start + g.size, k - 1);
    }
  }

  /** A new block, within its operation's budget, is refused in this state. */
  ghost predicate RefusesNew(g: Geometry, s: State, t: nat, b: int) {
    Enabled(g, s, LogWrite(t, b)) && b !in s.lh && Panics(g, s, LogWrite(t, b))
  }

  /** On a log of at most LOGSIZE blocks a new block within its operation's budget can be refused. */
  lemma SmallLogPanics(g: Geometry, d: Disk) returns (s: State, t: nat, b: int)
    requires Roomy(g, d) && g.size <= LOGSIZE
    ensures Reachable(g, d, s) && RefusesNew(g, s, t, b)
  {
    ReachableClosed(g, d);
    var R := s => Reachable(g, d, s);
    var k: nat := g.size - 1;
    var m := Fills(g, R, d, k);
    t, b := Turn(k), g.start + g.size + k;
    TurnHasBudget(m.ops, g.start + g.size, k, t, b);
    Fetches(g, R, m, t, b);
    s := Fetched(m, t, b);
  }

  /** The size of the log decides whether begin_op's reservation keeps its promise: a new block within its
      operation's budget is refused in some reachable state if and only if the log has at most LOGSIZE
      blocks, as the one that mkfs lays out does. */
  lemma NewBlockRefusedExactly(g: Geometry, d: Disk)
    requires Roomy(g, d)
    ensures (exists s, t, b :: Reachable(g, d, s) && RefusesNew(g, s, t, b)) <==> g.size <= LOGSIZE
  {
    if g.size <= LOGSIZE {
      var s, t, b := SmallLogPanics(g, d);
    } else {
      forall s, t, b | Reachable(g, d, s) && Enabled(g, s, LogWrite(t, b)) && b !in s.lh
        ensures !Panics(g, s, LogWrite(t, b))
      {
        LogWritePanicsExactly(g, d, s, t, b);
      }
    }
  }

  /** t takes an idle buffer that it had before. */
  lemma Rehits(g: Geometry, R: State -> bool, m: State, t: nat, b: int) returns (s: State)
    requires Closed(g, R) && R(m) && m.mode.Running? && t in m.ops && b in m.cache
    requires m.cache[b].holder.None? && m.cache[b].waiters == {} && Enabled(g, m, BgetHit(t, b))
    requires !Panics(g, m, BgetHit(t, b))
    ensures R(s) && s == m.(cache := s.cache) && b in s.cache
    ensures s.cache[b] == m.cache[b].(refs := m.cache[b].refs + 1, holder := Some(t))
  {
    Take(g, R, m, BgetHit(t, b));
    var buf := m.cache[b].(refs := m.cache[b].refs + 1, waiters := {} + {t});
    assert {} + {t} == {t};
    Locks(g, R, m, t, b, buf);
    s := m.(cache := m.cache[b := buf.(waiters := {}, holder := Some(t))]);
  }

  /** A block that the operation has logged already is refused in this state. */
  ghost predicate RefusesAbsorbed(g: Geometry, s: State, t: nat, b: int) {
    Enabled(g, s, LogWrite(t, b)) && b in s.lh && b in s.ops[t].logged && Panics(g, s, LogWrite(t, b))
  }

  lemma Absorbs(g: Geometry, R: State -> bool, d: Disk) returns (s: State, t: nat, b: int)
    requires Closed(g, R) && R(PowerOn(d)) && Roomy(g, d) && g.size >= 2
    ensures R(s) && RefusesAbsorbed(g, s, t, b)
  {
    var k: nat := if g.size > LOGSIZE then LOGSIZE else g.size - 1;
    var m := Fills(g, R, d, k);
    t, b := 0, g.start + g.size;
    assert b in m.cache && m.cache[b].holder.None? && m.cache[b].waiters == {} && b in m.ops[t].logged;
    s := Rehits(g, R, m, t, b);
    assert s.ops[t].logged + {b} == s.ops[t].logged;
  }

  /** Whatever the size of the log, an operation that logs one of its own blocks again can be refused, unless
      the log can hold no block at all. */
  lemma AbsorbedWriteRefusedExactly(g: Geometry, d: Disk)
    requires Roomy(g, d)
    ensures (exists s, t, b :: Reachable(g, d, s) && RefusesAbsorbed(g, s, t, b)) <==> g.size >= 2
  {
    if g.size >= 2 {
      ReachableClosed(g, d);
      var R := s => Reachable(g, d, s);
      var s, t, b := Absorbs(g, R, d);
    } else {
      forall s | Reachable(g, d, s)
        ensures s.lh == []
      {
        ReachableInv(g, d, s);
      }
    }
  }

  // ---------- commit runs out of buffers ----------

  /** The most blocks that the log takes. */
  function Capacity(g: Geometry): int {
    if g.size > LOGSIZE then LOGSIZE else g.size - 1
  }

  /** write_log has a block to copy, nobody else uses the buffers of the transaction, and its bread of a log
      block panics. */
  ghost predicate CommitPanics(g: Geometry, s: State) {
    && Enabled(g, s, LogBlockWrite) && Panics(g, s, LogBlockWrite)
    && forall b :: b in s.mode.entries && b in s.cache ==> s.cache[b].holder.None? && s.cache[b].waiters == {}
  }

  /** The cached blocks that the log does not pin. */
  ghost function Unpinned(s: State): set<int> {
    s.cache.Keys - Pinned(s.mode, s.lh)
  }

  lemma Ends(g: Geometry, d: Disk, m: State, t: nat)
    requires Reachable(g, d, m) && !m.committing && t in m.ops && Idle(m.cache, t)
    ensures Reachable(g, d, DoEndOp(m, t))
  {
    StepReachable(g, d, m, EndOp(t), DoEndOp(m, t));
  }

  lemma NotCommitting(g: Geometry, d: Disk, s: State)
    requires Reachable(g, d, s) && s.mode.Running?
    ensures !s.committing
  {
    ReachableInv(g, d, s);
  }

  /** The three operations end, the last one starting the commit. */
  lemma Commits(g: Geometry, d: Disk, m: State, first: int, n: nat) returns (s: State)
    requires Reachable(g, d, m) && Filling(m, first, n)
    ensures Reachable(g, d, s) && s.cache == m.cache && s.disk == m.disk && s.lh == m.lh
    ensures s.mode.Committing? && s.mode.writes == 0 && s.mode.entries == m.lh
  {
    NotCommitting(g, d, m);
    Ends(g, d, m, 0);
    Ends(g, d, DoEndOp(m, 0), 1);
    Ends(g, d, DoEndOp(DoEndOp(m, 0), 1), 2);
    s := DoEndOp(DoEndOp(DoEndOp(m, 0), 1), 2);
  }

  /** Threads outside any operation have each asked for a block after those of the log. */
  ghost predicate Asked(before: map<int, Buf>, after: map<int, Buf>, first: int, n: nat, k: nat) {
    && |after| == n + k && (forall b :: b in after <==> first <= b < first + n + k)
    && (forall b :: b in before ==> b in after && after[b] == before[b])
    && (forall b :: b in after && b !in before ==> after[b].refs == 1)
  }

  lemma CacheAdds(m: map<int, Buf>, b: int, buf: Buf)
    requires b !in m
    ensures |m[b := buf]| == |m| + 1
  {
    assert m[b := buf].Keys == m.Keys + {b};
  }

  lemma AsksOne(before: map<int, Buf>, m: map<int, Buf>, first: int, n: nat, k: nat, b: int, buf: Buf)
    requires Asked(before, m, first, n, k) && b == first + n + k && buf.refs == 1
    ensures Asked(before, m[b := buf], first, n, k + 1)
  {
    CacheAdds(m, b, buf);
  }

  lemma {:induction false} Asks(g: Geometry, d: Disk, m: State, n: nat, k: nat) returns (s: State)
    requires Reachable(g, d, m) && !m.mode.Recovering? && Cached(m.cache, g.start + g.size, n)
    requires n + k <= NBUF && g.start + g.size + n + k <= |m.disk|
    ensures Reachable(g, d, s) && s == m.(cache := s.cache) && Asked(m.cache, s.cache, g.start + g.size, n, k)
  {
    if k == 0 {
      s := m;
    } else {
      var p := Asks(g, d, m, n, k - 1);
      var b := g.start + g.size + n + k - 1;
      ReachableClosed(g, d);
      Misses(g, x => Reachable(g, d, x), p, k, b);
      var buf := Buf(false, p.disk[b], 1, {k}, None, false);
      AsksOne(m.cache, p.cache, g.start + g.size, n, k - 1, b, buf);
      s := p.(cache := p.cache[b := buf]);
    }
  }

  lemma {:induction false} AtMost(xs: seq<int>)
    ensures |set x | x in xs| <= |xs|
  {
    if xs == [] {
      assert (set x | x in xs) == {};
    } else {
      AtMost(xs[1..]);
      assert xs == [xs[0]] + xs[1..];
      assert (set x | x in xs) == (set x | x in xs[1..]) + {xs[0]};
    }
  }

  lemma IntervalSize(xs: set<int>, lo: nat, n: nat)
    requires forall x :: x in xs ==> lo <= x < lo + n
    ensures |xs| <= n
  {
    RangeSize(lo, n);
    SubsetSize<int>(xs, Range(lo, n));
  }

  /** A cache that is used up holds the blocks of the log, at most its capacity, and blocks of others. */
  lemma BusyNeedsOthers(g: Geometry, d: Disk, s: State)
    requires Reachable(g, d, s) && s.mode.Committing? && s.mode.entries != [] && |s.cache| == NBUF
    ensures g.size >= 2 && Capacity(g) + |Unpinned(s)| >= NBUF
  {
    CommitFits(g, d, s);
    var entries := s.mode.entries;
    AtMost(entries);
    SubsetSize(Pinned(s.mode, s.lh), set x | x in entries);
    DifferenceSize(s.cache.Keys, Pinned(s.mode, s.lh));
  }

  lemma PinsHold(g: Geometry, d: Disk, s: State)
    requires Reachable(g, d, s)
    ensures forall b :: b in s.cache && b in Pinned(s.mode, s.lh) ==> s.cache[b].refs > 0
  {
    ReachableInv(g, d, s);
  }

  /** In a commit of a full log, every other buffer is asked for by somebody. */
  ghost predicate UsedUp(s: State, first: int, n: nat) {
    && s.mode.Committing? && s.mode.writes == 0 && s.mode.entries == s.lh
    && |s.lh| == n && (forall b :: b in s.lh <==> first <= b < first + n)
    && |s.cache| == NBUF && (forall b :: b in s.cache <==> first <= b < first + NBUF)
    && (forall b :: b in s.lh ==> b in s.cache && s.cache[b].holder.None? && s.cache[b].waiters == {})
    && (forall b :: b in s.cache && b !in s.lh ==> s.cache[b].refs == 1)
  }

  lemma AskedUsesUp(m: State, s: State, first: int, n: nat)
    requires m.mode.Committing? && m.mode.writes == 0 && m.mode.entries == m.lh
    requires |m.lh| == n <= NBUF && (forall b :: b in m.lh <==> first <= b < first + n)
    requires Cached(m.cache, first, n) && s == m.(cache := s.cache) && Asked(m.cache, s.cache, first, n, NBUF - n)
    ensures UsedUp(s, first, n)
  {
  }

  lemma UsedUpPanics(g: Geometry, d: Disk, s: State, first: nat, n: nat)
    requires Reachable(g, d, s) && UsedUp(s, first, n) && 0 < n <= NBUF
    ensures CommitPanics(g, s) && |Unpinned(s)| <= NBUF - n
  {
    CommitFits(g, d, s);
    PinsHold(g, d, s);
    assert Pinned(s.mode, s.lh) == set b | b in s.lh;
    IntervalSize(Unpinned(s), first + n, NBUF - n);
  }

  /** A full log and as many blocks of others as the cache still takes. */
  lemma UsesUp(g: Geometry, d: Disk) returns (s: State)
    requires Roomy(g, d) && g.size >= 2
    ensures Reachable(g, d, s) && CommitPanics(g, s) && |Unpinned(s)| <= NBUF - Capacity(g)
  {
    var n: nat, first := Capacity(g), g.start + g.size;
    ReachableClosed(g, d);
    var f := Fills(g, x => Reachable(g, d, x), d, n);
    var m := Commits(g, d, f, first, n);
    s := Asks(g, d, m, n, NBUF - n);
    AskedUsesUp(m, s, first, n);
    UsedUpPanics(g, d, s, first, n);
  }

  /** How commit meets bget's panic.  A reachable state in which it does, with at most k buffers in use that
      the log does not pin, exists if and only if the log takes a block at all and its capacity falls short of
      the cache by at most k. */
  lemma CommitPanicsExactly(g: Geometry, d: Disk, k: nat)
    requires Roomy(g, d)
    ensures (exists s :: Reachable(g, d, s) && CommitPanics(g, s) && |Unpinned(s)| <= k)
            <==> g.size >= 2 && Capacity(g) + k >= NBUF
  {
    if g.size >= 2 && Capacity(g) + k >= NBUF {
      var s := UsesUp(g, d);
    } else {
      forall s | Reachable(g, d, s) && CommitPanics(g, s)
        ensures |Unpinned(s)| > k
      {
        BusyNeedsOthers(g, d, s);
      }
    }
  }

  /** With nobody else using the cache, commit panics exactly on a log of more than LOGSIZE blocks: a log that
      is large enough for the reservation is large enough to use up the cache. */
  lemma CommitPanicsAlone(g: Geometry, d: Disk)
    requires Roomy(g, d)
    ensures (exists s :: Reachable(g, d, s) && CommitPanics(g, s) && Unpinned(s) == {}) <==> g.size > LOGSIZE
  {
    CommitPanicsExactly(g, d, 0);
  }

  /** On the log that mkfs lays out the transactions alone never use up the cache, and one reader outside any
      operation is enough. */
  lemma ShippedLogNeedsOneReader(g: Geometry, d: Disk)
    requires Roomy(g, d) && g.size == LOGSIZE
    ensures !exists s :: Reachable(g, d, s) && CommitPanics(g, s) && Unpinned(s) == {}
    ensures exists s :: Reachable(g, d, s) && CommitPanics(g, s) && |Unpinned(s)| == 1
  {
    CommitPanicsExactly(g, d, 0);
    CommitPanicsExactly(g, d, 1);
  }
}
