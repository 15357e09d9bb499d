/** Concurrent operations, the buffer cache, group commit, crashes and recovery as one machine.

    Every atomic step of kernel/log.c and of the part of kernel/bio.c it relies on is an action:
    begin_op and its sleep, the steps of bread, a caller's update, log_write, brelse, end_op,
    each single disk write of commit and of recovery, and power failure at any moment.  The
    theorems at the end hold in every state of every run. */
module LogProtocol {
  import opened Params
  import opened Wal

  datatype Option<T> = None | Some(value: T)

  /** A cached block.  `holder` has its sleep lock, `waiters` are in acquiresleep; `dirty` is set
      between a caller's update and its log_write. */
  datatype Buf = Buf(valid: bool, data: Block, refs: nat, waiters: set<nat>, holder: Option<nat>, dirty: bool)

  /** A system call between begin_op and end_op, with the blocks it has logged. */
  datatype Op = Op(id: nat, logged: set<int>)

  /** One log_write. */
  datatype Event = Event(op: nat, block: int, data: Block)

  /** What the log code is doing.  `writes` counts block writes since it started, from disk `base`. */
  datatype Mode =
    | Running
    | Committing(writes: nat, base: Disk, entries: seq<int>, src: map<int, Block>)
    | Recovering(writes: nat, base: Disk)

  /** `events` are the log_writes that have not been undone by a crash; the first `durable`
      of them belong to committed transactions. */
  datatype State = State(
    disk: Disk,
    cache: map<int, Buf>,
    lh: seq<int>,
    outstanding: int,
    committing: bool,
    mode: Mode,
    ops: map<nat, Op>,
    sleepers: set<nat>,
    nextOp: nat,
    events: seq<Event>,
    durable: nat)

  datatype Action =
    | BeginOp(t: nat)
    | BeginOpSleep(t: nat)
    | BgetHit(t: nat, b: int)
    | BgetMiss(t: nat, b: int, victims: set<int>, junk: Block)
    | LockBuf(t: nat, b: int)
    | ReadBuf(t: nat, b: int)
    | Update(t: nat, b: int, data: Block)
    | LogWrite(t: nat, b: int)
    | Brelse(t: nat, b: int)
    | EndOp(t: nat)
    | LogBlockWrite
    | HeaderWrite
    | InstallWrite
    | ClearWrite
    | FinishCommit
    | Crash
    | RecoverWrite
    | FinishRecovery

  // ---------- history ----------

  ghost function Replay(d: Disk, events: seq<Event>): (r: Disk)
    ensures |r| == |d|
    decreases |events|
  {
    if events == [] then d
    else
      var e := events[|events| - 1];
      var r := Replay(d, events[..|events| - 1]);
      if 0 <= e.block < |d| then r[e.block := e.data] else r
  }

  lemma ReplayAppend(d: Disk, events: seq<Event>, e: Event)
    requires 0 <= e.block < |d|
    ensures Replay(d, events + [e]) == Replay(d, events)[e.block := e.data]
  {
    assert (events + [e])[..|events|] == events;
  }

  // ---------- the machine ----------

  /** begin_op's test: no commit under way and MAXOPBLOCKS free slots for everyone. */
  predicate Admits(s: State) {
    !s.committing && |s.lh| + (s.outstanding + 1) * MAXOPBLOCKS <= LOGSIZE
  }

  /** The blocks bpin holds in the cache: logged and not yet installed. */
  ghost function Pinned(m: Mode, lh: seq<int>): set<int> {
    match m
    case Running => set b | b in lh
    case Committing(k, _, entries, _) => set i | 0 <= i < |entries| && k <= |entries| + 1 + i :: entries[i]
    case Recovering(_, _) => {}
  }

  ghost predicate Idle(cache: map<int, Buf>, t: nat) {
    forall b :: b in cache ==> cache[b].holder != Some(t) && t !in cache[b].waiters
  }

  /** t holds the sleep lock of a buffer with valid contents. */
  ghost predicate Holds(cache: map<int, Buf>, t: nat, b: int) {
    b in cache && cache[b].holder == Some(t) && cache[b].valid
  }

  /** bread of b would get the sleep lock at once. */
  ghost predicate Unlocked(cache: map<int, Buf>, b: int) {
    b in cache && cache[b].holder.None?
  }

  ghost predicate HomeBlock(g: Geometry, d: Disk, b: int) {
    0 <= b < |d| && !g.InLog(b)
  }

  /** Every buffer is in use, so that bget of a block that is not cached panics.  Commit's own buffers
      are not in `cache`: it holds one of them only inside a single step. */
  ghost predicate AllBusy(s: State) {
    |s.cache| == NBUF && forall b :: b in s.cache ==> s.cache[b].refs > 0
  }

  /** When an action may happen.  Update, LogWrite and Brelse carry the discipline of log_write's
      comment: change a buffer only inside an operation and log it before releasing it.
      LogWrite also carries the operation's promise to log at most MAXOPBLOCKS blocks. */
  ghost predicate Enabled(g: Geometry, s: State, a: Action) {
    match a
    case BeginOp(t) => !s.mode.Recovering? && t !in s.ops && t !in s.sleepers && Admits(s)
    case BeginOpSleep(t) => !s.mode.Recovering? && t !in s.ops && t !in s.sleepers && !Admits(s)
    case BgetHit(t, b) =>
      !s.mode.Recovering? && b in s.cache && s.cache[b].holder != Some(t) && t !in s.cache[b].waiters
    case BgetMiss(t, b, victims, _) =>
      && !s.mode.Recovering? && HomeBlock(g, s.disk, b) && b !in s.cache
      && victims <= s.cache.Keys && (forall v :: v in victims ==> s.cache[v].refs == 0)
      && (|s.cache.Keys - victims| < NBUF || AllBusy(s))
    case LockBuf(t, b) => b in s.cache && s.cache[b].holder.None? && t in s.cache[b].waiters
    case ReadBuf(t, b) =>
      HomeBlock(g, s.disk, b) && b in s.cache && s.cache[b].holder == Some(t) && !s.cache[b].valid
    case Update(t, b, _) => t in s.ops && Holds(s.cache, t, b)
    case LogWrite(t, b) => t in s.ops && Holds(s.cache, t, b) && |s.ops[t].logged + {b}| <= MAXOPBLOCKS
    case Brelse(t, b) => Holds(s.cache, t, b) && !s.cache[b].dirty
    case EndOp(t) => t in s.ops && Idle(s.cache, t)
    case LogBlockWrite =>
      Writing(g, s) && s.mode.writes < |s.mode.entries| && Unlocked(s.cache, s.mode.entries[s.mode.writes])
    case HeaderWrite => Writing(g, s) && s.mode.writes == |s.mode.entries|
    case InstallWrite =>
      Writing(g, s) && Installing(s.mode) && Unlocked(s.cache, s.mode.entries[Tail(s.mode)])
    case ClearWrite => Writing(g, s) && s.mode.writes == 2 * |s.mode.entries| + 1
    case FinishCommit =>
      s.mode.Committing? && (s.mode.entries == [] || s.mode.writes == 2 * |s.mode.entries| + 2)
    case Crash => true
    case RecoverWrite =>
      && s.mode.Recovering? && Bootable(g, s.mode.base) && |s.disk| == |s.mode.base|
      && s.mode.writes <= |DecodeHeader(s.mode.base[g.start])|
    case FinishRecovery =>
      && s.mode.Recovering? && Bootable(g, s.mode.base) && |s.disk| == |s.mode.base|
      && s.mode.writes == |DecodeHeader(s.mode.base[g.start])| + 1
  }

  /** The panics of log_write and end_op, and that of bget: for a block that a thread does not find in
      the cache, and for the log block that each write of commit goes through. */
  ghost predicate Panics(g: Geometry, s: State, a: Action) {
    match a
    case BgetMiss(_, _, _, _) => AllBusy(s)
    case LogBlockWrite => AllBusy(s)
    case HeaderWrite => AllBusy(s)
    case InstallWrite => AllBusy(s)
    case ClearWrite => AllBusy(s)
    case LogWrite(t, b) => |s.lh| >= LOGSIZE || |s.lh| >= g.size - 1 || s.outstanding < 1
    case EndOp(t) => s.committing
    case _ => false
  }

  /** commit() has a write left to do, on a log that fits. */
  ghost predicate Writing(g: Geometry, s: State) {
    && s.mode.Committing? && s.mode.entries != [] && s.mode.writes < 2 * |s.mode.entries| + 2
    && Loggable(g, s.disk, s.mode.entries)
  }

  ghost function Next(m: Mode): Mode
    requires m.Committing?
  {
    Committing(m.writes + 1, m.base, m.entries, m.src)
  }

  /** write_log copies one buffer to its slot. */
  ghost function LogBlock(g: Geometry, s: State): State
    requires Writing(g, s) && s.mode.writes < |s.mode.entries| && s.mode.entries[s.mode.writes] in s.cache
  {
    var k := s.mode.writes;
    s.(disk := s.disk[g.Slot(k) := s.cache[s.mode.entries[k]].data], mode := Next(s.mode))
  }

  /** write_head: the transaction is now durable. */
  ghost function WriteHeader(g: Geometry, s: State): State
    requires Writing(g, s)
  {
    s.(disk := HeadWritten(g, s.disk, s.mode.entries), mode := Next(s.mode), durable := |s.events|)
  }

  ghost predicate Installing(m: Mode) {
    m.Committing? && |m.entries| < m.writes <= 2 * |m.entries|
  }

  /** Which entry install_trans is at. */
  ghost function Tail(m: Mode): nat
    requires Installing(m)
  {
    m.writes - |m.entries| - 1
  }

  /** install_trans copies one slot home and unpins the buffer. */
  ghost function InstallBlock(g: Geometry, s: State): State
    requires Writing(g, s) && Installing(s.mode) && s.mode.entries[Tail(s.mode)] in s.cache
  {
    var b := s.mode.entries[Tail(s.mode)];
    var buf := s.cache[b];
    var data := s.disk[g.Slot(Tail(s.mode))];
    s.(disk := s.disk[b := data], mode := Next(s.mode),
       cache := s.cache[b := buf.(data := data, refs := if buf.refs > 0 then buf.refs - 1 else 0)])
  }

  /** lh.n = 0 and the last write_head. */
  ghost function ClearHeader(g: Geometry, s: State): State
    requires Writing(g, s)
  {
    s.(disk := HeadWritten(g, s.disk, []), mode := Next(s.mode), lh := [])
  }

  ghost function RecoverStep(g: Geometry, s: State): State
    requires s.mode.Recovering? && Bootable(g, s.mode.base) && |s.disk| == |s.mode.base|
    requires s.mode.writes <= |DecodeHeader(s.mode.base[g.start])|
  {
    var lh := DecodeHeader(s.mode.base[g.start]);
    var k := s.mode.writes;
    s.(mode := Recovering(k + 1, s.mode.base),
       disk := if k < |lh| then s.disk[lh[k] := s.disk[g.Slot(k)]] else HeadWritten(g, s.disk, []))
  }

  ghost function DoBeginOp(s: State, t: nat): State {
    s.(ops := s.ops[t := Op(s.nextOp, {})], nextOp := s.nextOp + 1, outstanding := s.outstanding + 1)
  }

  ghost function DoBgetHit(s: State, t: nat, b: int): State
    requires b in s.cache
  {
    var buf := s.cache[b];
    s.(cache := s.cache[b := buf.(refs := buf.refs + 1, waiters := buf.waiters + {t})])
  }

  ghost function DoBgetMiss(s: State, t: nat, b: int, victims: set<int>, junk: Block): State {
    s.(cache := (s.cache - victims)[b := Buf(false, junk, 1, {t}, None, false)])
  }

  ghost function DoLockBuf(s: State, t: nat, b: int): State
    requires b in s.cache
  {
    var buf := s.cache[b];
    s.(cache := s.cache[b := buf.(waiters := buf.waiters - {t}, holder := Some(t))])
  }

  ghost function DoReadBuf(s: State, b: int): State
    requires b in s.cache && 0 <= b < |s.disk|
  {
    s.(cache := s.cache[b := s.cache[b].(valid := true, data := s.disk[b])])
  }

  ghost function DoUpdate(s: State, b: int, data: Block): State
    requires b in s.cache
  {
    s.(cache := s.cache[b := s.cache[b].(data := data, dirty := true)])
  }

  ghost function DoLogWrite(s: State, t: nat, b: int): State
    requires t in s.ops && b in s.cache
  {
    var buf := s.cache[b];
    s.(cache := s.cache[b := buf.(dirty := false, refs := if b in s.lh then buf.refs else buf.refs + 1)],
       lh := if b in s.lh then s.lh else s.lh + [b],
       ops := s.ops[t := s.ops[t].(logged := s.ops[t].logged + {b})],
       events := s.events + [Event(s.ops[t].id, b, buf.data)])
  }

  ghost function DoBrelse(s: State, b: int): State
    requires b in s.cache
  {
    var buf := s.cache[b];
    s.(cache := s.cache[b := buf.(holder := None, refs := if buf.refs > 0 then buf.refs - 1 else 0)])
  }

  ghost function DoEndOp(s: State, t: nat): State {
    var e := s.(ops := s.ops - {t}, outstanding := s.outstanding - 1);
    if e.outstanding == 0 then
      e.(committing := true,
         mode := Committing(0, s.disk, s.lh, map b | b in s.lh && b in s.cache :: s.cache[b].data))
    else e.(sleepers := {})
  }

  ghost function DoFinishCommit(s: State): State {
    s.(committing := false, mode := Running, sleepers := {})
  }

  ghost function DoCrash(s: State): State {
    State(s.disk, map[], [], 0, false, Recovering(0, s.disk), map[], {}, s.nextOp,
          if s.durable <= |s.events| then s.events[..s.durable] else s.events, s.durable)
  }

  /** What an action does. */
  ghost function Apply(g: Geometry, s: State, a: Action): State
    requires Enabled(g, s, a)
  {
    match a
    case BeginOp(t) => DoBeginOp(s, t)
    case BeginOpSleep(t) => s.(sleepers := s.sleepers + {t})
    case BgetHit(t, b) => DoBgetHit(s, t, b)
    case BgetMiss(t, b, victims, junk) => DoBgetMiss(s, t, b, victims, junk)
    case LockBuf(t, b) => DoLockBuf(s, t, b)
    case ReadBuf(t, b) => DoReadBuf(s, b)
    case Update(t, b, data) => DoUpdate(s, b, data)
    case LogWrite(t, b) => DoLogWrite(s, t, b)
    case Brelse(t, b) => DoBrelse(s, b)
    case EndOp(t) => DoEndOp(s, t)
    case LogBlockWrite => LogBlock(g, s)
    case HeaderWrite => WriteHeader(g, s)
    case InstallWrite => InstallBlock(g, s)
    case ClearWrite => ClearHeader(g, s)
    case FinishCommit => DoFinishCommit(s)
    case Crash => DoCrash(s)
    case RecoverWrite => RecoverStep(g, s)
    case FinishRecovery => s.(mode := Running)
  }

  // ---------- what every state keeps ----------

  function Bit(c: bool): nat { if c then 1 else 0 }

  /** refcnt counts the waiters, the holder and the pin. */
  ghost predicate BufOk(buf: Buf, pinned: bool, ops: map<nat, Op>) {
    && buf.refs == |buf.waiters| + Bit(buf.holder.Some?) + Bit(pinned)
    && (buf.dirty ==> buf.valid && buf.holder.Some? && buf.holder.value in ops)
    && (pinned ==> buf.valid)
  }

  ghost predicate CacheOk(g: Geometry, d: Disk, cache: map<int, Buf>, pinned: set<int>, ops: map<nat, Op>) {
    && |cache| <= NBUF
    && pinned <= cache.Keys
    && forall b :: b in cache ==> HomeBlock(g, d, b) && BufOk(cache[b], b in pinned, ops)
  }

  ghost predicate Flags(s: State) {
    && (s.committing <==> s.mode.Committing?)
    && (!s.mode.Running? ==> s.ops == map[])
    && (s.mode.Recovering? ==> s.cache == map[] && s.lh == [] && s.sleepers == {})
    && s.outstanding == |s.ops|
  }

  /** No operation's writes straddle the last commit, and none in progress has any before it. */
  ghost predicate Splits(events: seq<Event>, durable: nat, ops: map<nat, Op>, nextOp: nat) {
    && durable <= |events|
    && (forall i :: 0 <= i < |events| ==> events[i].op < nextOp)
    && (forall t :: t in ops ==> ops[t].id < nextOp)
    && (forall t, i :: t in ops && 0 <= i < durable ==> events[i].op != ops[t].id)
    && (forall i, j :: 0 <= i < durable <= j < |events| ==> events[i].op != events[j].op)
  }

  /** Slots still promised to the operations in progress. */
  ghost function Unspent(ops: map<nat, Op>): int {
    if ops == map[] then 0
    else
      var t :| t in ops;
      MAXOPBLOCKS - |ops[t].logged| + Unspent(ops - {t})
  }

  ghost predicate Reserved(lh: seq<int>, ops: map<nat, Op>) {
    && |lh| + Unspent(ops) <= LOGSIZE
    && (forall t :: t in ops ==> |ops[t].logged| <= MAXOPBLOCKS)
    && (forall t, b :: t in ops && b in ops[t].logged ==> b in lh)
  }

  /** Nobody sleeps in begin_op while it would let them in. */
  ghost predicate NoLostWakeup(s: State) {
    s.sleepers != {} ==> !Admits(s)
  }

  /** Clean buffers and unpinned blocks hold the logical contents. */
  ghost predicate Contents(g: Geometry, d: Disk, cache: map<int, Buf>, pinned: set<int>, logical: Disk)
    requires |d| == |logical|
  {
    && (forall b :: HomeBlock(g, d, b) && b !in pinned ==> d[b] == logical[b])
    && (forall b :: b in cache && HomeBlock(g, d, b) && cache[b].valid && !cache[b].dirty
                    ==> cache[b].data == logical[b])
  }

  /** The buffers commit() copies from are exactly the transaction. */
  ghost predicate Sources(cache: map<int, Buf>, pinned: set<int>, src: map<int, Block>) {
    && (forall b :: b in cache ==> !cache[b].dirty)
    && (forall b :: b in pinned && b in cache && b in src ==> cache[b].data == src[b])
  }

  /** The disk is the image the mode says, and a crash would leave exactly the durable events. */
  ghost predicate Durable(g: Geometry, d: Disk, m: Mode, lh: seq<int>, kept: Disk, logical: Disk) {
    match m
    case Running => Quiet(g, d) && SameHome(g, d, kept)
    case Committing(k, base, entries, src) =>
      && Loggable(g, base, entries) && Distinct(entries) && Quiet(g, base)
      && src.Keys == (set b | b in entries)
      && k <= 2 * |entries| + 2 && (entries == [] ==> k == 0)
      && |d| == |base| && d == CommitImage(g, base, entries, src, k)
      && lh == (if k == 2 * |entries| + 2 then [] else entries)
      && SameHome(g, Overlay(base, src), logical)
      && (if k <= |entries| then SameHome(g, base, kept) else logical == kept)
    case Recovering(k, base) =>
      && Bootable(g, base) && k <= |DecodeHeader(base[g.start])| + 1
      && |d| == |base| && d == RecoveryImage(g, base, k)
      && SameHome(g, Boot(g, base), kept) && logical == kept
  }

  ghost function Kept(init: Disk, s: State): Disk
    requires s.durable <= |s.events|
  {
    Replay(init, s.events[..s.durable])
  }

  /** Everything but the contents of blocks. */
  ghost predicate Shape(g: Geometry, s: State) {
    && Loggable(g, s.disk, s.lh) && Distinct(s.lh)
    && CacheOk(g, s.disk, s.cache, Pinned(s.mode, s.lh), s.ops)
    && Flags(s)
    && Splits(s.events, s.durable, s.ops, s.nextOp)
    && Reserved(s.lh, s.ops)
    && NoLostWakeup(s)
  }

  /** The contents of blocks, on disk and in the cache. */
  ghost predicate Data(g: Geometry, init: Disk, s: State)
    requires s.durable <= |s.events|
  {
    && |s.disk| == |init|
    && Durable(g, s.disk, s.mode, s.lh, Kept(init, s), Replay(init, s.events))
    && (s.mode.Committing? ==> Sources(s.cache, Pinned(s.mode, s.lh), s.mode.src))
    && (!s.mode.Recovering? ==> Contents(g, s.disk, s.cache, Pinned(s.mode, s.lh), Replay(init, s.events)))
  }

  ghost predicate Inv(g: Geometry, init: Disk, s: State) {
    Shape(g, s) && Data(g, init, s)
  }

  // ---------- runs ----------

  /** Power comes on with this disk; `Boot(g, d)` is then the file system's contents. */
  ghost function PowerOn(d: Disk): State {
    State(d, map[], [], 0, false, Recovering(0, d), map[], {}, 0, [], 0)
  }

  /** One step: the action is enabled and does not panic. */
  ghost predicate Step(g: Geometry, s: State, a: Action, r: State) {
    Enabled(g, s, a) && !Panics(g, s, a) && r == Apply(g, s, a)
  }

  /** The actions of `run`, one after the other, lead from s to r. */
  ghost predicate Runs(g: Geometry, s: State, run: seq<Action>, r: State)
    decreases |run|
  {
    if run == [] then s == r
    else
      var last := |run| - 1;
      exists m :: Runs(g, s, run[..last], m) && Step(g, m, run[last], r)
  }

  // ---------- counting ----------

  lemma UnspentWithout(ops: map<nat, Op>, t: nat)
    requires t in ops
    ensures Unspent(ops) == MAXOPBLOCKS - |ops[t].logged| + Unspent(ops - {t})
    decreases |ops|
  {
    var u :| u in ops && Unspent(ops) == MAXOPBLOCKS - |ops[u].logged| + Unspent(ops - {u});
    if u != t {
      UnspentWithout(ops - {u}, t);
      UnspentWithout(ops - {t}, u);
      assert ops - {u} - {t} == ops - {t} - {u};
    }
  }

  lemma UnspentBounds(ops: map<nat, Op>)
    requires forall t :: t in ops ==> |ops[t].logged| <= MAXOPBLOCKS
    ensures 0 <= Unspent(ops) <= MAXOPBLOCKS * |ops|
    decreases |ops|
  {
    if ops != map[] {
      var t :| t in ops;
      UnspentWithout(ops, t);
      UnspentBounds(ops - {t});
      assert (ops - {t}).Keys == ops.Keys - {t};
    }
  }

  lemma UnspentUpdate(ops: map<nat, Op>, t: nat, op: Op)
    ensures Unspent(ops[t := op]) == MAXOPBLOCKS - |op.logged| + Unspent(ops - {t})
  {
    UnspentWithout(ops[t := op], t);
    assert ops[t := op] - {t} == ops - {t};
  }

  lemma BeginOpCounts(ops: map<nat, Op>, lh: seq<int>, t: nat, op: Op)
    requires t !in ops && |lh| + (|ops| + 1) * MAXOPBLOCKS <= LOGSIZE && Reserved(lh, ops) && op.logged == {}
    ensures |ops[t := op]| == |ops| + 1 && Reserved(lh, ops[t := op])
  {
    UnspentUpdate(ops, t, op);
    UnspentBounds(ops);
    MapGrows(ops, t, op);
  }

  lemma MapGrows(ops: map<nat, Op>, t: nat, op: Op)
    requires t !in ops
    ensures |ops[t := op]| == |ops| + 1 && ops - {t} == ops
  {
    assert ops[t := op].Keys == ops.Keys + {t};
    assert ops - {t} == ops;
  }

  /** A block enters the log only out of its operation's own budget. */
  lemma LogWriteCounts(ops: map<nat, Op>, lh: seq<int>, t: nat, b: int)
    requires t in ops && |ops[t].logged + {b}| <= MAXOPBLOCKS && Reserved(lh, ops)
    ensures var after := ops[t := ops[t].(logged := ops[t].logged + {b})];
            |after| == |ops| && Reserved(if b in lh then lh else lh + [b], after)
  {
    var op := ops[t];
    UnspentWithout(ops, t);
    UnspentUpdate(ops, t, op.(logged := op.logged + {b}));
    assert ops[t := op.(logged := op.logged + {b})].Keys == ops.Keys;
    if b in op.logged {
      assert op.logged + {b} == op.logged;
    }
  }

  lemma EndOpCounts(ops: map<nat, Op>, lh: seq<int>, t: nat)
    requires t in ops && Reserved(lh, ops)
    ensures |ops - {t}| == |ops| - 1 && Reserved(lh, ops - {t})
  {
    UnspentWithout(ops, t);
    assert (ops - {t}).Keys == ops.Keys - {t};
  }

  // ---------- threads and their buffers ----------

  lemma PowerOnInv(g: Geometry, d: Disk)
    requires Bootable(g, d)
    ensures Inv(g, Boot(g, d), PowerOn(d))
  {
  }

  lemma BeginOpInv(g: Geometry, init: Disk, s: State, t: nat)
    requires Inv(g, init, s) && !s.mode.Recovering? && t !in s.ops && Admits(s)
    ensures Inv(g, init, DoBeginOp(s, t))
  {
    BeginOpCounts(s.ops, s.lh, t, Op(s.nextOp, {}));
  }

  lemma BeginOpSleepInv(g: Geometry, init: Disk, s: State, t: nat)
    requires Inv(g, init, s) && !s.mode.Recovering? && !Admits(s)
    ensures Inv(g, init, s.(sleepers := s.sleepers + {t}))
  {
  }

  lemma BgetHitInv(g: Geometry, init: Disk, s: State, t: nat, b: int)
    requires Inv(g, init, s) && b in s.cache && t !in s.cache[b].waiters
    ensures Inv(g, init, DoBgetHit(s, t, b))
  {
    BgetHitShape(g, s, t, b);
  }

  lemma BgetHitShape(g: Geometry, s: State, t: nat, b: int)
    requires Shape(g, s) && b in s.cache && t !in s.cache[b].waiters
    ensures Shape(g, DoBgetHit(s, t, b))
  {
  }

  /** Only a buffer nobody references is recycled, so a pinned one stays. */
  lemma RecycleCache(g: Geometry, d: Disk, cache: map<int, Buf>, pinned: set<int>, ops: map<nat, Op>,
                     b: int, victims: set<int>, buf: Buf)
    requires CacheOk(g, d, cache, pinned, ops) && HomeBlock(g, d, b) && b !in cache && BufOk(buf, false, ops)
    requires victims <= cache.Keys && |cache.Keys - victims| < NBUF
    requires forall v :: v in victims ==> cache[v].refs == 0
    ensures CacheOk(g, d, (cache - victims)[b := buf], pinned, ops)
  {
    assert (cache - victims)[b := buf].Keys == cache.Keys - victims + {b};
    assert forall v :: v in victims ==> v !in pinned;
  }

  lemma BgetMissShape(g: Geometry, s: State, t: nat, b: int, victims: set<int>, junk: Block)
    requires Shape(g, s) && !s.mode.Recovering? && HomeBlock(g, s.disk, b) && b !in s.cache
    requires victims <= s.cache.Keys && |s.cache.Keys - victims| < NBUF
    requires forall v :: v in victims ==> s.cache[v].refs == 0
    ensures Shape(g, DoBgetMiss(s, t, b, victims, junk))
  {
    RecycleCache(g, s.disk, s.cache, Pinned(s.mode, s.lh), s.ops, b, victims, Buf(false, junk, 1, {t}, None, false));
  }

  lemma BgetMissData(g: Geometry, init: Disk, s: State, t: nat, b: int, victims: set<int>, junk: Block)
    requires s.durable <= |s.events| && Data(g, init, s) && b !in Pinned(s.mode, s.lh)
    ensures Data(g, init, DoBgetMiss(s, t, b, victims, junk))
  {
  }

  lemma LockBufInv(g: Geometry, init: Disk, s: State, t: nat, b: int)
    requires Inv(g, init, s) && Unlocked(s.cache, b) && t in s.cache[b].waiters
    ensures Inv(g, init, DoLockBuf(s, t, b))
  {
    assert Shape(g, DoLockBuf(s, t, b));
  }

  lemma ReadBufInv(g: Geometry, init: Disk, s: State, b: int)
    requires Inv(g, init, s) && b in s.cache && !s.cache[b].valid
    ensures HomeBlock(g, s.disk, b) && Inv(g, init, DoReadBuf(s, b))
  {
    assert Shape(g, DoReadBuf(s, b));
  }

  lemma UpdateInv(g: Geometry, init: Disk, s: State, t: nat, b: int, data: Block)
    requires Inv(g, init, s) && t in s.ops && Holds(s.cache, t, b)
    ensures Inv(g, init, DoUpdate(s, b, data))
  {
    assert Shape(g, DoUpdate(s, b, data));
  }

  lemma BrelseInv(g: Geometry, init: Disk, s: State, t: nat, b: int)
    requires Inv(g, init, s) && Holds(s.cache, t, b) && !s.cache[b].dirty
    ensures Inv(g, init, DoBrelse(s, b))
  {
    assert Shape(g, DoBrelse(s, b));
  }

  // ---------- log_write and end_op ----------

  lemma LogWriteCache(g: Geometry, s: State, t: nat, b: int)
    requires s.mode.Running? && t in s.ops && Holds(s.cache, t, b)
    requires CacheOk(g, s.disk, s.cache, Pinned(s.mode, s.lh), s.ops)
    ensures var r := DoLogWrite(s, t, b); CacheOk(g, r.disk, r.cache, Pinned(r.mode, r.lh), r.ops)
  {
    var r := DoLogWrite(s, t, b);
    assert Pinned(r.mode, r.lh) == Pinned(s.mode, s.lh) + {b};
    assert r.cache.Keys == s.cache.Keys && r.ops.Keys == s.ops.Keys;
  }

  lemma LogWriteEntries(g: Geometry, d: Disk, lh: seq<int>, b: int)
    requires Loggable(g, d, lh) && Distinct(lh) && HomeBlock(g, d, b)
    requires |lh| < LOGSIZE && |lh| < g.size - 1
    ensures var r := if b in lh then lh else lh + [b]; Loggable(g, d, r) && Distinct(r)
  {
  }

  lemma LogWriteShape(g: Geometry, s: State, t: nat, b: int)
    requires Shape(g, s) && t in s.ops && Holds(s.cache, t, b) && |s.ops[t].logged + {b}| <= MAXOPBLOCKS
    requires |s.lh| < LOGSIZE && |s.lh| < g.size - 1
    ensures Shape(g, DoLogWrite(s, t, b))
  {
    LogWriteCounts(s.ops, s.lh, t, b);
    LogWriteCache(g, s, t, b);
    LogWriteEntries(g, s.disk, s.lh, b);
    LogWriteRest(g, s, t, b);
  }

  lemma LogWriteRest(g: Geometry, s: State, t: nat, b: int)
    requires Shape(g, s) && t in s.ops && Holds(s.cache, t, b)
    ensures var r := DoLogWrite(s, t, b); Flags(r) && Splits(r.events, r.durable, r.ops, r.nextOp) && NoLostWakeup(r)
  {
    assert s.ops[t := s.ops[t].(logged := s.ops[t].logged + {b})].Keys == s.ops.Keys;
  }

  lemma LogWriteData(g: Geometry, init: Disk, s: State, t: nat, b: int)
    requires s.mode.Running? && t in s.ops && Holds(s.cache, t, b) && HomeBlock(g, s.disk, b)
    requires s.durable <= |s.events| && Data(g, init, s)
    ensures Data(g, init, DoLogWrite(s, t, b))
  {
    var r := DoLogWrite(s, t, b);
    ReplayAppend(init, s.events, Event(s.ops[t].id, b, s.cache[b].data));
    assert r.events[..r.durable] == s.events[..s.durable];
  }

  lemma EndOpShape(g: Geometry, s: State, t: nat)
    requires Shape(g, s) && t in s.ops && Idle(s.cache, t)
    ensures var r := DoEndOp(s, t);
            Shape(g, r) && Pinned(r.mode, r.lh) == Pinned(s.mode, s.lh)
  {
    var r := DoEndOp(s, t);
    EndOpCounts(s.ops, s.lh, t);
    assert Pinned(r.mode, r.lh) == Pinned(s.mode, s.lh);
    if r.outstanding == 0 {
      assert r.ops == map[];
    }
  }

  /** The last end_op turns the pinned buffers into the transaction to commit. */
  lemma EndOpSources(g: Geometry, d: Disk, lh: seq<int>, cache: map<int, Buf>, src: map<int, Block>, logical: Disk)
    requires Loggable(g, d, lh) && |d| == |logical|
    requires forall b :: b in lh ==> b in cache
    requires src == map b | b in lh && b in cache :: cache[b].data
    requires CacheOk(g, d, cache, Pinned(Running, lh), map[]) && Contents(g, d, cache, Pinned(Running, lh), logical)
    ensures src.Keys == (set b | b in lh) && SameHome(g, Overlay(d, src), logical)
    ensures Sources(cache, Pinned(Running, lh), src)
  {
  }

  lemma EndOpData(g: Geometry, init: Disk, s: State, t: nat)
    requires Inv(g, init, s) && t in s.ops && Idle(s.cache, t)
    ensures Data(g, init, DoEndOp(s, t))
  {
    var r := DoEndOp(s, t);
    EndOpShape(g, s, t);
    if r.outstanding == 0 {
      EndOpSources(g, s.disk, s.lh, s.cache, r.mode.src, Replay(init, s.events));
    }
  }

  // ---------- commit ----------

  lemma LogBlockDisk(g: Geometry, d: Disk, m: Mode, lh: seq<int>, kept: Disk, logical: Disk)
    requires m.Committing? && Durable(g, d, m, lh, kept, logical) && m.writes < |m.entries|
    ensures Durable(g, d[g.Slot(m.writes) := m.src[m.entries[m.writes]]], Next(m), lh, kept, logical)
  {
    LogStep(g, m.base, m.entries, m.src, m.writes);
  }

  lemma LogBlockPins(m: Mode, lh: seq<int>)
    requires m.Committing? && m.writes < |m.entries|
    ensures Pinned(Next(m), lh) == Pinned(m, lh) && m.entries[m.writes] in Pinned(m, lh)
  {
  }

  lemma LogBlockShape(g: Geometry, s: State)
    requires Shape(g, s) && Writing(g, s) && s.mode.writes < |s.mode.entries|
    requires s.mode.entries[s.mode.writes] in s.cache
    ensures Shape(g, LogBlock(g, s))
  {
    LogBlockPins(s.mode, s.lh);
  }

  lemma LogBlockData(g: Geometry, init: Disk, s: State)
    requires s.durable <= |s.events| && Data(g, init, s) && Writing(g, s) && s.mode.writes < |s.mode.entries|
    requires s.mode.entries[s.mode.writes] in s.cache
    ensures Data(g, init, LogBlock(g, s))
  {
    LogBlockPins(s.mode, s.lh);
    LogBlockDisk(g, s.disk, s.mode, s.lh, Kept(init, s), Replay(init, s.events));
  }

  lemma LogBlockInv(g: Geometry, init: Disk, s: State)
    requires Inv(g, init, s) && Enabled(g, s, LogBlockWrite)
    ensures Inv(g, init, Apply(g, s, LogBlockWrite))
  {
    LogBlockShape(g, s);
    LogBlockData(g, init, s);
  }

  lemma HeaderInv(g: Geometry, init: Disk, s: State)
    requires Inv(g, init, s) && Enabled(g, s, HeaderWrite)
    ensures Inv(g, init, Apply(g, s, HeaderWrite))
  {
    assert s.events[..|s.events|] == s.events;
    assert Pinned(Next(s.mode), s.lh) == Pinned(s.mode, s.lh);
  }

  lemma ClearInv(g: Geometry, init: Disk, s: State)
    requires Inv(g, init, s) && Enabled(g, s, ClearWrite)
    ensures Inv(g, init, Apply(g, s, ClearWrite))
  {
    assert Pinned(Next(s.mode), []) == Pinned(s.mode, s.lh);
  }

  /** Slot j still holds the block logged there while homes are being written. */
  lemma SlotHolds(g: Geometry, base: Disk, entries: seq<int>, src: map<int, Block>, k: nat, j: nat)
    requires Loggable(g, base, entries) && Distinct(entries) && src.Keys == set b | b in entries
    requires |entries| < k <= 2 * |entries| + 1 && j < |entries|
    ensures CommitImage(g, base, entries, src, k)[g.Slot(j)] == src[entries[j]]
  {
    CommitPoint(g, base, entries, src);
    SlotKept(g, HeadWritten(g, LogWritten(g, base, entries, src, |entries|), entries), entries, k - |entries| - 1, j);
  }

  /** Installing writes to no log slot. */
  lemma SlotKept(g: Geometry, h: Disk, entries: seq<int>, k: nat, j: nat)
    requires Loggable(g, h, entries) && k <= |entries| && j < |entries|
    ensures Installed(g, h, entries, k)[g.Slot(j)] == h[g.Slot(j)]
  {
    InstalledElsewhere(g, h, entries, k);
  }

  lemma InstallPins(m: Mode, lh: seq<int>)
    requires Installing(m) && Distinct(m.entries)
    ensures m.entries[Tail(m)] in Pinned(m, lh)
    ensures Pinned(Next(m), lh) == Pinned(m, lh) - {m.entries[Tail(m)]}
  {
  }

  lemma InstallShape(g: Geometry, s: State)
    requires Shape(g, s) && Writing(g, s) && Installing(s.mode) && Distinct(s.mode.entries)
    requires s.mode.entries[Tail(s.mode)] in s.cache
    ensures Shape(g, InstallBlock(g, s))
  {
    InstallPins(s.mode, s.lh);
    assert InstallBlock(g, s).cache.Keys == s.cache.Keys;
  }

  lemma InstallDisk(g: Geometry, d: Disk, m: Mode, lh: seq<int>, kept: Disk, logical: Disk)
    requires Installing(m) && Durable(g, d, m, lh, kept, logical)
    ensures var b := m.entries[Tail(m)];
            && d[g.Slot(Tail(m))] == m.src[b] == logical[b]
            && Durable(g, d[b := m.src[b]], Next(m), lh, kept, logical)
  {
    var j := Tail(m);
    SlotHolds(g, m.base, m.entries, m.src, m.writes, j);
    InstallStep(g, HeadWritten(g, LogWritten(g, m.base, m.entries, m.src, |m.entries|), m.entries), m.entries, j);
    assert m.src[m.entries[j]] == Overlay(m.base, m.src)[m.entries[j]];
  }

  lemma InstallData(g: Geometry, init: Disk, s: State)
    requires s.durable <= |s.events| && Data(g, init, s) && Writing(g, s) && Installing(s.mode)
    requires s.mode.entries[Tail(s.mode)] in s.cache
    ensures Data(g, init, InstallBlock(g, s))
  {
    InstallPins(s.mode, s.lh);
    InstallDisk(g, s.disk, s.mode, s.lh, Kept(init, s), Replay(init, s.events));
  }

  lemma InstallInv(g: Geometry, init: Disk, s: State)
    requires Inv(g, init, s) && Enabled(g, s, InstallWrite)
    ensures Inv(g, init, Apply(g, s, InstallWrite))
  {
    InstallShape(g, s);
    InstallData(g, init, s);
  }

  lemma FinishCommitInv(g: Geometry, init: Disk, s: State)
    requires Inv(g, init, s) && Enabled(g, s, FinishCommit)
    ensures Inv(g, init, Apply(g, s, FinishCommit))
  {
    var r := DoFinishCommit(s);
    var Committing(k, base, entries, src) := s.mode;
    assert Pinned(s.mode, s.lh) == {} == Pinned(r.mode, r.lh);
    if entries != [] {
      CommitEnds(g, base, entries, src);
    }
  }

  // ---------- crash and recovery ----------

  /** At any moment the disk recovers to the durable events. */
  lemma DurableBoot(g: Geometry, d: Disk, m: Mode, lh: seq<int>, kept: Disk, logical: Disk)
    requires Durable(g, d, m, lh, kept, logical)
    ensures Bootable(g, d) && SameHome(g, Boot(g, d), kept)
  {
    match m
    case Running => QuietBoot(g, d);
    case Committing(k, base, entries, src) =>
      if k <= |entries| {
        UncommittedImage(g, base, entries, src, k);
        QuietBoot(g, d);
      } else {
        CommittedImage(g, base, entries, src, k);
      }
    case Recovering(k, base) => CrashedBootKeeps(g, base, k);
  }

  lemma CrashInv(g: Geometry, init: Disk, s: State)
    requires Inv(g, init, s)
    ensures Inv(g, init, DoCrash(s))
  {
    var r := DoCrash(s);
    DurableBoot(g, s.disk, s.mode, s.lh, Kept(init, s), Replay(init, s.events));
    assert r.events[..r.durable] == r.events;
  }

  lemma RecoverDisk(g: Geometry, d: Disk, m: Mode, lh: seq<int>, kept: Disk, logical: Disk)
    requires m.Recovering? && Durable(g, d, m, lh, kept, logical)
    requires m.writes <= |DecodeHeader(m.base[g.start])|
    ensures var todo := DecodeHeader(m.base[g.start]);
            var k := m.writes;
            var e := if k < |todo| then d[todo[k] := d[g.Slot(k)]] else HeadWritten(g, d, []);
            Durable(g, e, Recovering(k + 1, m.base), lh, kept, logical)
  {
    var todo := DecodeHeader(m.base[g.start]);
    if m.writes < |todo| {
      InstallStep(g, m.base, todo, m.writes);
    }
  }

  lemma RecoverShape(g: Geometry, s: State)
    requires Shape(g, s) && Enabled(g, s, RecoverWrite)
    ensures Shape(g, RecoverStep(g, s))
  {
  }

  lemma RecoverData(g: Geometry, init: Disk, s: State)
    requires s.durable <= |s.events| && s.mode.Recovering? && Data(g, init, s)
    requires s.mode.writes <= |DecodeHeader(s.mode.base[g.start])|
    ensures Data(g, init, RecoverStep(g, s))
  {
    RecoverDisk(g, s.disk, s.mode, s.lh, Kept(init, s), Replay(init, s.events));
  }

  lemma FinishRecoveryInv(g: Geometry, init: Disk, s: State)
    requires Inv(g, init, s) && Enabled(g, s, FinishRecovery)
    ensures Inv(g, init, s.(mode := Running))
  {
    RecoveryIdempotent(g, s.mode.base, []);
  }

  // ---------- every run ----------

  predicate CommitAction(a: Action) {
    a.LogBlockWrite? || a.HeaderWrite? || a.InstallWrite? || a.ClearWrite? || a.FinishCommit?
  }

  predicate RecoveryAction(a: Action) {
    a.Crash? || a.RecoverWrite? || a.FinishRecovery?
  }

  lemma ThreadStepInv(g: Geometry, init: Disk, s: State, a: Action)
    requires Inv(g, init, s) && Enabled(g, s, a) && !Panics(g, s, a) && !CommitAction(a) && !RecoveryAction(a)
    ensures Inv(g, init, Apply(g, s, a))
  {
    match a
    case BeginOp(t) => BeginOpInv(g, init, s, t);
    case BeginOpSleep(t) => BeginOpSleepInv(g, init, s, t);
    case BgetHit(t, b) => BgetHitInv(g, init, s, t, b);
    case BgetMiss(t, b, victims, junk) =>
      BgetMissShape(g, s, t, b, victims, junk);
      BgetMissData(g, init, s, t, b, victims, junk);
    case LockBuf(t, b) => LockBufInv(g, init, s, t, b);
    case ReadBuf(t, b) => ReadBufInv(g, init, s, b);
    case Update(t, b, data) => UpdateInv(g, init, s, t, b, data);
    case LogWrite(t, b) => LogWriteShape(g, s, t, b); LogWriteData(g, init, s, t, b);
    case Brelse(t, b) => BrelseInv(g, init, s, t, b);
    case EndOp(t) => EndOpShape(g, s, t); EndOpData(g, init, s, t);
  }

  lemma CommitActionInv(g: Geometry, init: Disk, s: State, a: Action)
    requires Inv(g, init, s) && Enabled(g, s, a) && CommitAction(a)
    ensures Inv(g, init, Apply(g, s, a))
  {
    match a
    case LogBlockWrite => LogBlockInv(g, init, s);
    case HeaderWrite => HeaderInv(g, init, s);
    case InstallWrite => InstallInv(g, init, s);
    case ClearWrite => ClearInv(g, init, s);
    case FinishCommit => FinishCommitInv(g, init, s);
  }

  lemma RecoveryActionInv(g: Geometry, init: Disk, s: State, a: Action)
    requires Inv(g, init, s) && Enabled(g, s, a) && RecoveryAction(a)
    ensures Inv(g, init, Apply(g, s, a))
  {
    match a
    case Crash => CrashInv(g, init, s);
    case RecoverWrite => RecoverShape(g, s); RecoverData(g, init, s);
    case FinishRecovery => FinishRecoveryInv(g, init, s);
  }

  lemma StepInv(g: Geometry, init: Disk, s: State, a: Action)
    requires Inv(g, init, s) && Enabled(g, s, a) && !Panics(g, s, a)
    ensures Inv(g, init, Apply(g, s, a))
  {
    if CommitAction(a) {
      CommitActionInv(g, init, s, a);
    } else if RecoveryAction(a) {
      RecoveryActionInv(g, init, s, a);
    } else {
      ThreadStepInv(g, init, s, a);
    }
  }

  lemma {:induction false} RunInv(g: Geometry, init: Disk, s: State, run: seq<Action>, r: State)
    requires Inv(g, init, s) && Runs(g, s, run, r)
    ensures Inv(g, init, r)
    decreases |run|
  {
    if run != [] {
      var m :| Runs(g, s, run[..|run| - 1], m) && Step(g, m, run[|run| - 1], r);
      RunInv(g, init, s, run[..|run| - 1], m);
      StepInv(g, init, m, run[|run| - 1]);
    }
  }

  // ---------- theorems ----------

  /** s is a state of some run of a machine switched on with disk d. */
  ghost predicate Reachable(g: Geometry, d: Disk, s: State) {
    Bootable(g, d) && exists run :: Runs(g, PowerOn(d), run, s)
  }

  lemma ReachableInv(g: Geometry, d: Disk, s: State)
    requires Reachable(g, d, s)
    ensures Inv(g, Boot(g, d), s)
  {
    var run :| Runs(g, PowerOn(d), run, s);
    PowerOnInv(g, d);
    RunInv(g, Boot(g, d), PowerOn(d), run, s);
  }

  /** The cache and the log agree with a simple disk: whatever buffer a thread has read and not
      changed holds the latest logged contents, whichever transactions they belong to. */
  lemma ReadsSeeLatest(g: Geometry, d: Disk, s: State, t: nat, b: int)
    requires Reachable(g, d, s) && Holds(s.cache, t, b) && !s.cache[b].dirty
    ensures 0 <= b < |d| && s.cache[b].data == Replay(Boot(g, d), s.events)[b]
  {
    ReachableInv(g, d, s);
  }

  /** Power may fail in any state, and again during each of any number of recoveries: the disk
      comes back as exactly the committed writes, and every operation is among them with all
      of its writes or with none. */
  lemma CrashKeepsWholeOperations(g: Geometry, d: Disk, s: State, ks: seq<nat>)
    requires Reachable(g, d, s)
    ensures Bootable(g, s.disk) && s.durable <= |s.events|
    ensures SameHome(g, Boot(g, CrashedBoots(g, s.disk, ks)), Replay(Boot(g, d), s.events[..s.durable]))
    ensures forall i, j :: 0 <= i < s.durable <= j < |s.events| ==> s.events[i].op != s.events[j].op
  {
    ReachableInv(g, d, s);
    DurableBoot(g, s.disk, s.mode, s.lh, Kept(Boot(g, d), s), Replay(Boot(g, d), s.events));
    RecoveryIdempotent(g, s.disk, ks);
  }

  /** A transaction becomes durable in the single step that writes the header, with no operation
      in progress and every log_write so far in it. */
  lemma HeaderWriteCommits(g: Geometry, d: Disk, s: State)
    requires Reachable(g, d, s) && Enabled(g, s, HeaderWrite)
    ensures var r := Apply(g, s, HeaderWrite);
            s.ops == map[] && r.durable == |s.events| && r.events == s.events
  {
    ReachableInv(g, d, s);
  }

  /** No other step changes what a crash would leave, and only a crash forgets a log_write. */
  lemma OthersDoNotCommit(g: Geometry, s: State, a: Action)
    requires Enabled(g, s, a) && !a.HeaderWrite?
    ensures Apply(g, s, a).durable == s.durable
    ensures !a.Crash? ==> s.events <= Apply(g, s, a).events
  {
    if CommitAction(a) || RecoveryAction(a) {
      DiskStepsDoNotCommit(g, s, a);
    } else {
      ThreadStepsDoNotCommit(g, s, a);
    }
  }

  lemma StepReachable(g: Geometry, d: Disk, s: State, a: Action, r: State)
    requires Reachable(g, d, s) && Step(g, s, a, r)
    ensures Reachable(g, d, r)
  {
    var run :| Runs(g, PowerOn(d), run, s);
    assert (run + [a])[..|run|] == run;
    assert Runs(g, PowerOn(d), run + [a], r);
  }

  lemma SameDurableEvents(g: Geometry, d: Disk, s: State, r: State)
    requires Reachable(g, d, s) && Reachable(g, d, r)
    requires s.durable <= |s.events| && r.durable <= |r.events| && r.events[..r.durable] == s.events[..s.durable]
    ensures Bootable(g, s.disk) && Bootable(g, r.disk) && SameHome(g, Boot(g, r.disk), Boot(g, s.disk))
  {
    CrashKeepsWholeOperations(g, d, s, []);
    CrashKeepsWholeOperations(g, d, r, []);
  }

  lemma KeepsDurableEvents(g: Geometry, s: State, a: Action, r: State)
    requires Step(g, s, a, r) && !a.HeaderWrite? && s.durable <= |s.events|
    ensures r.durable <= |r.events| && r.events[..r.durable] == s.events[..s.durable]
  {
    if !a.Crash? {
      OthersDoNotCommit(g, s, a);
    }
  }

  /** So what a crash would leave stays the same: booting the disk after the step gives the home blocks
      that booting it before the step would have given. */
  lemma OthersKeepCrashContents(g: Geometry, d: Disk, s: State, a: Action, r: State)
    requires Reachable(g, d, s) && Step(g, s, a, r) && !a.HeaderWrite?
    ensures Bootable(g, s.disk) && Bootable(g, r.disk) && SameHome(g, Boot(g, r.disk), Boot(g, s.disk))
  {
    StepReachable(g, d, s, a, r);
    CrashKeepsWholeOperations(g, d, s, []);
    KeepsDurableEvents(g, s, a, r);
    SameDurableEvents(g, d, s, r);
  }

  lemma DiskStepsDoNotCommit(g: Geometry, s: State, a: Action)
    requires Enabled(g, s, a) && !a.HeaderWrite? && (CommitAction(a) || RecoveryAction(a))
    ensures Apply(g, s, a).durable == s.durable && (!a.Crash? ==> s.events <= Apply(g, s, a).events)
  {
  }

  lemma ThreadStepsDoNotCommit(g: Geometry, s: State, a: Action)
    requires Enabled(g, s, a) && !CommitAction(a) && !RecoveryAction(a)
    ensures Apply(g, s, a).durable == s.durable && s.events <= Apply(g, s, a).events
  {
  }

  /** While a commit runs nobody may log a block or end an operation, so end_op's panic and
      log_write's second one are unreachable. */
  lemma CommitRunsAlone(g: Geometry, d: Disk, s: State, a: Action)
    requires Reachable(g, d, s) && Enabled(g, s, a) && (a.LogWrite? || a.Update? || a.EndOp?)
    ensures !s.committing && s.mode.Running? && s.outstanding >= 1
  {
    ReachableInv(g, d, s);
    assert s.ops.Keys != {};
  }

  /** begin_op's reservation: the log plus everyone's unspent budget fits. */
  lemma ReservationHolds(g: Geometry, d: Disk, s: State)
    requires Reachable(g, d, s)
    ensures |s.lh| + Unspent(s.ops) <= LOGSIZE && 0 <= Unspent(s.ops)
  {
    ReachableInv(g, d, s);
    UnspentBounds(s.ops);
  }

  /** log_write refuses a block exactly when the log is full, by either of its two limits.  Within its
      budget an operation can always add a block, given a log region of more than LOGSIZE blocks; what is
      refused there is an absorbed call, because the test for room comes before the search. */
  lemma LogWritePanicsExactly(g: Geometry, d: Disk, s: State, t: nat, b: int)
    requires Reachable(g, d, s) && Enabled(g, s, LogWrite(t, b))
    ensures Panics(g, s, LogWrite(t, b)) <==> |s.lh| == LOGSIZE || |s.lh| >= g.size - 1
    ensures Panics(g, s, LogWrite(t, b)) && g.size > LOGSIZE ==> b in s.lh
  {
    ReachableInv(g, d, s);
    CommitRunsAlone(g, d, s, LogWrite(t, b));
    UnspentWithout(s.ops, t);
    UnspentBounds(s.ops - {t});
    if b in s.ops[t].logged {
      assert b in s.lh;
    } else {
      assert |s.ops[t].logged + {b}| == |s.ops[t].logged| + 1;
    }
  }

  /** A thread asleep in begin_op is one that begin_op would not admit. */
  lemma SleepersMustWait(g: Geometry, d: Disk, s: State)
    requires Reachable(g, d, s) && s.sleepers != {}
    ensures !Admits(s)
  {
    ReachableInv(g, d, s);
  }

  /** What commit() has to do next. */
  ghost function NextStep(m: Mode): Action
    requires m.Committing?
  {
    var n := |m.entries|;
    if n == 0 || m.writes >= 2 * n + 2 then FinishCommit
    else if m.writes < n then LogBlockWrite
    else if m.writes == n then HeaderWrite
    else if m.writes <= 2 * n then InstallWrite
    else ClearWrite
  }

  /** The buffer that commit() needs next is still in the cache, so only another thread's sleep lock can
      delay its next step; and that step panics exactly when the pins and the other threads between them
      have every buffer in use. */
  lemma CommitProceeds(g: Geometry, d: Disk, s: State)
    requires Reachable(g, d, s) && s.mode.Committing?
    requires forall b :: b in s.mode.entries && b in s.cache ==> s.cache[b].holder.None?
    ensures forall a :: CommitAction(a) ==> (Enabled(g, s, a) <==> a == NextStep(s.mode))
    ensures Panics(g, s, NextStep(s.mode)) <==> AllBusy(s) && NextStep(s.mode) != FinishCommit
  {
    CommitFits(g, d, s);
    OneCommitStep(g, s);
  }

  lemma CommitFits(g: Geometry, d: Disk, s: State)
    requires Reachable(g, d, s) && s.mode.Committing?
    ensures Loggable(g, s.disk, s.mode.entries) && s.mode.writes <= 2 * |s.mode.entries| + 2
    ensures Pinned(s.mode, s.lh) <= s.cache.Keys
  {
    ReachableInv(g, d, s);
  }

  lemma CacheFits(g: Geometry, d: Disk, s: State)
    requires Reachable(g, d, s)
    ensures |s.cache| <= NBUF
  {
    ReachableInv(g, d, s);
  }

  lemma OneCommitStep(g: Geometry, s: State)
    requires s.mode.Committing? && Loggable(g, s.disk, s.mode.entries)
    requires s.mode.writes <= 2 * |s.mode.entries| + 2
    requires Pinned(s.mode, s.lh) <= s.cache.Keys
    requires forall b :: b in s.mode.entries && b in s.cache ==> s.cache[b].holder.None?
    ensures forall a :: CommitAction(a) ==> (Enabled(g, s, a) <==> a == NextStep(s.mode))
  {
    var n, k := |s.mode.entries|, s.mode.writes;
    if k < n {
      assert s.mode.entries[k] in Pinned(s.mode, s.lh);
    } else if n < k <= 2 * n {
      assert s.mode.entries[Tail(s.mode)] in Pinned(s.mode, s.lh);
    }
  }

  /** A thread can get a buffer for a block that is not cached exactly when some buffer is not in use. */
  lemma MissProceeds(g: Geometry, d: Disk, s: State, t: nat, b: int, junk: Block)
    requires Reachable(g, d, s) && !s.mode.Recovering? && HomeBlock(g, s.disk, b) && b !in s.cache
    ensures (exists v :: Enabled(g, s, BgetMiss(t, b, v, junk)) && !Panics(g, s, BgetMiss(t, b, v, junk)))
            <==> !AllBusy(s)
  {
    CacheFits(g, d, s);
    if |s.cache| < NBUF {
      assert s.cache.Keys - {} == s.cache.Keys;
      assert Enabled(g, s, BgetMiss(t, b, {}, junk));
    } else if !AllBusy(s) {
      var v :| v in s.cache && s.cache[v].refs == 0;
      assert Enabled(g, s, BgetMiss(t, b, {v}, junk));
    }
  }
}
