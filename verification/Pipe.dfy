/** kernel/pipe.c: the ring buffer, and the sleep/wakeup protocol around it.

    A call of pipewrite or piperead is a series of runs, each from taking pi->lock to sleeping or
    returning.  sleep gives up the lock and goes to sleep in one step: wakeup cannot look at the
    sleeper before it is asleep, because both need its process lock. */
module Pipe {
  import opened Params

  const PIPESIZE: nat := 512

  /** Bytes ever put into the ring and bytes ever taken out of it. */
  datatype Flow = Flow(put: seq<int>, taken: seq<int>, readopen: bool, writeopen: bool)

  function Held(v: Flow): int {
    |v.put| - |v.taken|
  }

  /** FIFO: what was taken is a prefix of what was put, and the rest fits in the ring. */
  ghost predicate Fifo(v: Flow) {
    |v.taken| <= |v.put| && v.taken == v.put[..|v.taken|] && Held(v) <= PIPESIZE
  }

  // ---------- one run of each call ----------

  function Min(a: nat, b: nat): nat { if a < b then a else b }

  datatype WriteEnd = WroteAll | Full | BadSource | Stopped

  /** How many bytes a run of pipewrite puts, of n it has left, and why it ends.  The source can be read up to
      byte `readable`, and the killed flag reads true once killedAt bytes have been put. */
  function WriteResult(v: Flow, n: nat, readable: nat, killedAt: nat): (r: (nat, WriteEnd))
    requires 0 <= Held(v) <= PIPESIZE
    ensures r.0 <= n && Held(v) + r.0 <= PIPESIZE
  {
    var room := PIPESIZE - Held(v);
    if !v.readopen then (0, if n == 0 then WroteAll else Stopped)
    else
      var k := Min(Min(n, killedAt), Min(room, readable));
      (k, if k == n then WroteAll else if k == killedAt then Stopped else if k == room then Full else BadSource)
  }

  /** A run that has put k bytes and meets none of the limits before. */
  lemma WriteStops(v: Flow, n: nat, readable: nat, killedAt: nat, k: nat, why: WriteEnd)
    requires 0 <= Held(v) && Held(v) + k <= PIPESIZE && k <= n && k <= readable && k <= killedAt
    requires 0 < k ==> v.readopen
    requires match why
             case WroteAll => k == n
             case Stopped => k < n && (!v.readopen || k == killedAt)
             case Full => k < n && v.readopen && k < killedAt && Held(v) + k == PIPESIZE
             case BadSource => k < n && v.readopen && k < killedAt && Held(v) + k < PIPESIZE && k == readable
    ensures WriteResult(v, n, readable, killedAt) == (k, why)
  {
  }

  datatype ReadEnd = Took | WouldSleep | Interrupted

  /** How many bytes a run of piperead takes out of the ring, and why it ends.  The destination takes `room`
      bytes; the byte it refuses is out of the ring all the same. */
  function ReadResult(v: Flow, n: nat, room: nat, killed: bool): (r: (nat, ReadEnd))
    requires 0 <= Held(v)
    ensures r.0 <= n && r.0 <= Held(v) && (!r.1.Took? ==> r.0 == 0)
  {
    if Held(v) == 0 && v.writeopen then (0, if killed then Interrupted else WouldSleep)
    else (Min(Min(n, Held(v)), room + 1), Took)
  }

  /** The flow after c more bytes have been taken. */
  ghost function TakenOut(v: Flow, c: nat): Flow
    requires |v.taken| + c <= |v.put|
  {
    v.(taken := v.taken + v.put[|v.taken|..|v.taken| + c])
  }

  lemma TookOldest(v: Flow, out: seq<int>)
    requires Fifo(v) && Fifo(v.(taken := v.taken + out))
    ensures |v.taken| + |out| <= |v.put| && v.(taken := v.taken + out) == TakenOut(v, |out|)
  {
    assert v.taken + out == v.put[..|v.taken|] + v.put[|v.taken|..|v.taken| + |out|];
  }

  lemma SameSlot(a: nat, b: nat)
    requires a <= b < a + PIPESIZE && a % PIPESIZE == b % PIPESIZE
    ensures a == b
  {
  }

  /** 512 divides 2^32, so a wrapped counter still names the right slot and the right distance. */
  lemma Wraps(a: nat, b: nat)
    requires a <= b <= a + PIPESIZE
    ensures (b % UINT) % PIPESIZE == b % PIPESIZE
    ensures b % UINT == (a % UINT + PIPESIZE) % UINT <==> b == a + PIPESIZE
    ensures a % UINT == b % UINT <==> a == b
    ensures (b % UINT + 1) % UINT == (b + 1) % UINT
  {
  }

  datatype Part = Counts | Bytes

  /** The counters have wrapped around, and the bytes not taken yet are in their slots. */
  ghost predicate Stored(u: Part, data: seq<int>, nread: nat, nwrite: nat, put: seq<int>, from: nat) {
    match u
    case Counts => nread == from % UINT && nwrite == |put| % UINT
    case Bytes => |data| == PIPESIZE && forall k :: from <= k < |put| ==> data[k % PIPESIZE] == put[k]
  }

  class Ring {
    var data: array<int>
    var nread: nat
    var nwrite: nat
    var readopen: bool
    var writeopen: bool
    ghost var put: seq<int>
    ghost var taken: seq<int>

    ghost function Abs(): Flow
      reads this
    {
      Flow(put, taken, readopen, writeopen)
    }

    ghost predicate Valid()
      reads this, data
    {
      && data.Length == PIPESIZE && Fifo(Abs())
      && forall u :: Stored(u, data[..], nread, nwrite, put, |taken|)
    }

    /** pipealloc. */
    constructor ()
      ensures Valid() && fresh(data) && Abs() == Flow([], [], true, true)
    {
      data := new int[PIPESIZE];
      nread, nwrite, readopen, writeopen, put, taken := 0, 0, true, true, [], [];
    }

    lemma Opened()
      requires Valid()
      ensures Stored(Counts, data[..], nread, nwrite, put, |taken|)
      ensures Stored(Bytes, data[..], nread, nwrite, put, |taken|)
    {
    }

    /** The wrapped counters tell an empty ring and a full one. */
    lemma Counters()
      requires Valid()
      ensures nread == nwrite <==> Held(Abs()) == 0
      ensures nwrite == (nread + PIPESIZE) % UINT <==> Held(Abs()) == PIPESIZE
    {
      Opened();
      Wraps(|taken|, |put|);
    }

    method Put(ch: int)
      requires Valid() && Held(Abs()) < PIPESIZE
      modifies this`nwrite, this`put, data
      ensures Valid() && put == old(put) + [ch]
    {
      Wraps(|taken|, |put|);
      Opened();
      forall k | |taken| <= k < |put|
        ensures k % PIPESIZE != nwrite % PIPESIZE
      {
        if k % PIPESIZE == |put| % PIPESIZE {
          SameSlot(k, |put|);
        }
      }
      data[nwrite % PIPESIZE] := ch;
      nwrite := (nwrite + 1) % UINT;
      put := put + [ch];
    }

    method Take() returns (ch: int)
      requires Valid() && Held(Abs()) > 0
      modifies this`nread, this`taken
      ensures Valid() && taken == old(taken) + [ch]
    {
      Wraps(|taken|, |put|);
      Wraps(|taken|, |taken|);
      Opened();
      ch := data[nread % PIPESIZE];
      nread := (nread + 1) % UINT;
      taken := taken + [ch];
    }

    /** pipewrite's loop from index i on, with the lock held. */
    method WriteRun(src: seq<int>, i: nat, readable: nat, killedAt: nat) returns (i1: nat, why: WriteEnd)
      requires Valid() && i <= |src|
      modifies this`nwrite, this`put, data
      ensures Valid() && i <= i1 <= |src| && Abs() == old(Abs()).(put := old(put) + src[i..i1])
      ensures (i1 - i, why) == WriteResult(old(Abs()), |src| - i, readable, killedAt)
    {
      i1, why := i, WroteAll;
      while i1 < |src|
        invariant i <= i1 <= |src| && Valid() && Held(old(Abs())) + (i1 - i) <= PIPESIZE
        invariant Abs() == old(Abs()).(put := old(put) + src[i..i1]) && (i < i1 ==> readopen)
        invariant i1 - i <= readable && i1 - i <= killedAt && why == WroteAll
      {
        why := WhyStop(i1 - i, readable, killedAt);
        if why != WroteAll {
          break;
        }
        Put(src[i1]);
        assert src[i..i1] + [src[i1]] == src[i..i1 + 1];
        i1 := i1 + 1;
      }
      WriteStops(old(Abs()), |src| - i, readable, killedAt, i1 - i, why);
    }

    /** The tests before a byte is put, after k others: WroteAll when none of them stops the run. */
    method WhyStop(k: nat, readable: nat, killedAt: nat) returns (why: WriteEnd)
      requires Valid()
      ensures why == Stopped <==> !readopen || killedAt <= k
      ensures why == Full <==> readopen && k < killedAt && Held(Abs()) == PIPESIZE
      ensures why == BadSource <==> readopen && k < killedAt && Held(Abs()) < PIPESIZE && readable <= k
    {
      Counters();
      if !readopen || killedAt <= k {
        return Stopped;
      }
      if nwrite == (nread + PIPESIZE) % UINT {
        return Full;
      }
      return if readable <= k then BadSource else WroteAll;
    }

    /** piperead with the lock held: `delivered` of the bytes taken reach the destination. */
    method ReadRun(n: nat, room: nat, killed: bool) returns (delivered: nat, out: seq<int>, why: ReadEnd)
      requires Valid()
      modifies this`nread, this`taken
      ensures Valid() && (|out|, why) == ReadResult(old(Abs()), n, room, killed)
      ensures Abs() == old(TakenOut(Abs(), ReadResult(Abs(), n, room, killed).0)) && taken == old(taken) + out
      ensures delivered == if why.Took? then Min(Min(n, old(Held(Abs()))), room) else 0
    {
      Counters();
      TookOldest(Abs(), []);
      if nread == nwrite && writeopen {
        return 0, [], if killed then Interrupted else WouldSleep;
      }
      delivered, out := TakeRun(n, room);
      why := Took;
      TookOldest(old(Abs()), out);
    }

    /** Its loop. */
    method TakeRun(n: nat, room: nat) returns (delivered: nat, out: seq<int>)
      requires Valid()
      modifies this`nread, this`taken
      ensures Valid() && Abs() == old(Abs()).(taken := old(taken) + out)
      ensures |out| == Min(Min(n, old(Held(Abs()))), room + 1) && delivered == Min(Min(n, old(Held(Abs()))), room)
    {
      delivered, out := 0, [];
      while delivered < n
        invariant delivered <= n && delivered <= room && Valid()
        invariant Abs() == old(Abs()).(taken := old(taken) + out) && |out| == delivered
      {
        Counters();
        if nread == nwrite {
          break;
        }
        var ch := Take();
        out := out + [ch];
        if room <= delivered {
          break;
        }
        delivered := delivered + 1;
      }
    }

    /** pipeclose; the pipe is freed when this was the last end. */
    method Close(writable: bool) returns (freed: bool)
      requires Valid()
      modifies this`readopen, this`writeopen
      ensures Valid() && Abs() == Closed(old(Abs()), writable) && (freed <==> Gone(Abs()))
    {
      if writable { writeopen := false; } else { readopen := false; }
      freed := !readopen && !writeopen;
    }
  }

  function Closed(v: Flow, writable: bool): Flow {
    if writable then v.(writeopen := false) else v.(readopen := false)
  }

  /** Both ends are closed, so pipeclose has freed the pipe. */
  predicate Gone(v: Flow) { !v.readopen && !v.writeopen }

  // ---------- sleeping and waking ----------

  datatype Thread =
    | Idle | Writing(rest: seq<int>) | WriterAsleep(rest: seq<int>) | Reading(n: nat) | ReaderAsleep(n: nat)

  /** The pipe and its users at moments when pi->lock is free. */
  datatype State = State(v: Flow, ts: seq<Thread>)

  datatype Action =
    | BeginWrite(t: nat, rest: seq<int>)
    | BeginRead(t: nat, n: nat)
    | RunWrite(t: nat, readable: nat, killedAt: nat)
    | RunRead(t: nat, room: nat, killed: bool)
    | WakeByKill(t: nat)
    | CloseEnd(writable: bool)

  /** wakeup(&pi->nread) and wakeup(&pi->nwrite). */
  function WakeReaders(ts: seq<Thread>): (r: seq<Thread>)
    ensures |r| == |ts|
  {
    seq(|ts|, t requires 0 <= t < |ts| => if ts[t].ReaderAsleep? then Reading(ts[t].n) else ts[t])
  }

  function WakeWriters(ts: seq<Thread>): (r: seq<Thread>)
    ensures |r| == |ts|
  {
    seq(|ts|, t requires 0 <= t < |ts| => if ts[t].WriterAsleep? then Writing(ts[t].rest) else ts[t])
  }

  predicate Enabled(s: State, a: Action) {
    match a
    case BeginWrite(t, rest) => t < |s.ts| && s.ts[t].Idle? && s.v.writeopen
    case BeginRead(t, n) => t < |s.ts| && s.ts[t].Idle? && s.v.readopen
    case RunWrite(t, _, _) => t < |s.ts| && s.ts[t].Writing?
    case RunRead(t, _, _) => t < |s.ts| && s.ts[t].Reading?
    case WakeByKill(t) => t < |s.ts| && (s.ts[t].WriterAsleep? || s.ts[t].ReaderAsleep?)
    case CloseEnd(writable) => forall t :: 0 <= t < |s.ts| ==> if writable then !Writes(s.ts[t]) else !Reads(s.ts[t])
  }

  ghost function Apply(s: State, a: Action): State
    requires Fifo(s.v) && Enabled(s, a)
  {
    match a
    case BeginWrite(t, rest) => s.(ts := s.ts[t := Writing(rest)])
    case BeginRead(t, n) => s.(ts := s.ts[t := Reading(n)])
    case RunWrite(t, readable, killedAt) =>
      var rest := s.ts[t].rest;
      var (k, why) := WriteResult(s.v, |rest|, readable, killedAt);
      State(s.v.(put := s.v.put + rest[..k]),
            if why.Stopped? then s.ts[t := Idle]
            else WakeReaders(s.ts)[t := if why.Full? then WriterAsleep(rest[k..]) else Idle])
    case RunRead(t, room, killed) =>
      var (c, why) := ReadResult(s.v, s.ts[t].n, room, killed);
      State(TakenOut(s.v, c),
            if why.Took? then WakeWriters(s.ts)[t := Idle]
            else s.ts[t := if why.WouldSleep? then ReaderAsleep(s.ts[t].n) else Idle])
    case WakeByKill(t) =>
      s.(ts := s.ts[t := if s.ts[t].WriterAsleep? then Writing(s.ts[t].rest) else Reading(s.ts[t].n)])
    case CloseEnd(writable) => State(Closed(s.v, writable), if writable then WakeReaders(s.ts) else WakeWriters(s.ts))
  }

  predicate Writes(t: Thread) { t.Writing? || t.WriterAsleep? }

  predicate Reads(t: Thread) { t.Reading? || t.ReaderAsleep? }

  /** A process inside a call holds a reference to its end, so that end is open. */
  ghost predicate Sound(s: State) {
    && Fifo(s.v)
    && (forall t :: 0 <= t < |s.ts| && Writes(s.ts[t]) ==> s.v.writeopen)
    && (forall t :: 0 <= t < |s.ts| && Reads(s.ts[t]) ==> s.v.readopen)
    && (forall t :: 0 <= t < |s.ts| && s.ts[t].WriterAsleep? ==> Held(s.v) == PIPESIZE && s.v.readopen)
  }

  /** A sleeping reader means an empty pipe with the write end open. */
  ghost predicate ReadersSleepOnEmpty(s: State) {
    forall t :: 0 <= t < |s.ts| && s.ts[t].ReaderAsleep? ==> Held(s.v) == 0 && s.v.writeopen
  }

  ghost predicate SomeReaderAsleep(s: State) {
    exists t :: 0 <= t < |s.ts| && s.ts[t].ReaderAsleep?
  }

  /** A writer finds its killed flag set after at least one byte, with bytes left, before the pipe is full
      and before the source fails: it returns without a wakeup. */
  predicate Strands(s: State, a: Action) {
    && a.RunWrite? && a.t < |s.ts| && s.ts[a.t].Writing? && s.v.readopen
    && 0 < a.killedAt < |s.ts[a.t].rest| && a.killedAt <= a.readable && Held(s.v) + a.killedAt <= PIPESIZE
  }

  lemma StepSound(s: State, a: Action)
    requires Sound(s) && Enabled(s, a)
    ensures Sound(Apply(s, a))
  {
    match a
    case BeginWrite(t, rest) =>
    case BeginRead(t, n) =>
    case RunWrite(t, readable, killedAt) =>
      var rest := s.ts[t].rest;
      PutFifo(s.v, rest[..WriteResult(s.v, |rest|, readable, killedAt).0]);
    case RunRead(t, room, killed) => TakenFifo(s.v, ReadResult(s.v, s.ts[t].n, room, killed).0);
    case WakeByKill(t) =>
    case CloseEnd(writable) =>
  }

  lemma PutFifo(v: Flow, more: seq<int>)
    requires Fifo(v) && Held(v) + |more| <= PIPESIZE
    ensures Fifo(v.(put := v.put + more))
  {
    assert (v.put + more)[..|v.taken|] == v.put[..|v.taken|];
  }

  lemma TakenFifo(v: Flow, c: nat)
    requires Fifo(v) && c <= Held(v)
    ensures Fifo(TakenOut(v, c))
  {
    assert v.put[..|v.taken|] + v.put[|v.taken|..|v.taken| + c] == v.put[..|v.taken| + c];
  }

  /** Exactly when a step breaks the promise to sleeping readers. */
  lemma StepReaders(s: State, a: Action)
    requires Sound(s) && ReadersSleepOnEmpty(s) && Enabled(s, a)
    ensures ReadersSleepOnEmpty(Apply(s, a)) <==> !(Strands(s, a) && SomeReaderAsleep(s))
  {
    if Strands(s, a) && SomeReaderAsleep(s) {
      var u :| 0 <= u < |s.ts| && s.ts[u].ReaderAsleep?;
      var r := Apply(s, a);
      assert r.ts[u].ReaderAsleep? && Held(r.v) == a.killedAt;
    }
  }

  /** Nobody is inside a call on a pipe that pipeclose has freed. */
  lemma FreedUnused(s: State, t: nat)
    requires Sound(s) && Gone(s.v) && t < |s.ts|
    ensures s.ts[t].Idle?
  {
  }

  // ---------- whole runs ----------

  /** A new pipe used by n processes. */
  ghost predicate Fresh(s: State) {
    s.v == Flow([], [], true, true) && forall t :: 0 <= t < |s.ts| ==> s.ts[t].Idle?
  }

  ghost predicate Step(s: State, a: Action, r: State) {
    Fifo(s.v) && Enabled(s, a) && r == Apply(s, a)
  }

  /** With calm, no step strands a sleeping reader. */
  ghost predicate Runs(s: State, run: seq<Action>, r: State, calm: bool)
    decreases |run|
  {
    if run == [] then Fresh(s) && r == s
    else
      var before, a := run[..|run| - 1], run[|run| - 1];
      exists m :: Runs(s, before, m, calm) && Step(m, a, r) && (calm ==> !(Strands(m, a) && SomeReaderAsleep(m)))
  }

  /** Over every run: FIFO order; a sleeping writer means a full pipe with the read end open; and, as long
      as no writer with a sleeping reader was stopped by its killed flag in the middle of putting bytes, a
      sleeping reader means an empty pipe with the write end open. */
  lemma {:induction false} RunSound(s: State, run: seq<Action>, r: State, calm: bool)
    requires Runs(s, run, r, calm)
    ensures Sound(r) && (calm ==> ReadersSleepOnEmpty(r))
    decreases |run|
  {
    if run != [] {
      var before, a := run[..|run| - 1], run[|run| - 1];
      var m :| Runs(s, before, m, calm) && Step(m, a, r) && (calm ==> !(Strands(m, a) && SomeReaderAsleep(m)));
      RunSound(s, before, m, calm);
      StepSound(m, a);
      if calm {
        StepReaders(m, a);
      }
    }
  }

  /** One step on from the end of a run. */
  lemma Extend(s: State, run: seq<Action>, m: State, a: Action, r: State)
    requires Runs(s, run, m, false) && Step(m, a, r)
    ensures Runs(s, run + [a], r, false)
  {
    var longer := run + [a];
    assert longer[..|longer| - 1] == run;
  }

  /** A reader goes to sleep on an empty pipe; a writer puts one byte of two and is killed. */
  ghost function Scene(k: nat): State {
    var v := Flow([], [], true, true);
    if k == 0 then State(v, [Idle, Idle])
    else if k == 1 then State(v, [Reading(1), Idle])
    else if k == 2 then State(v, [ReaderAsleep(1), Idle])
    else if k == 3 then State(v, [ReaderAsleep(1), Writing([7, 8])])
    else State(v.(put := [7]), [ReaderAsleep(1), Idle])
  }

  function Moves(k: nat): Action {
    if k == 0 then BeginRead(0, 1) else if k == 1 then RunRead(0, 1, false)
    else if k == 2 then BeginWrite(1, [7, 8]) else RunWrite(1, 2, 1)
  }

  lemma SceneStep(k: nat)
    requires k < 4
    ensures Step(Scene(k), Moves(k), Scene(k + 1))
  {
    var s, r := Scene(k), Apply(Scene(k), Moves(k));
    assert k == 1 ==> TakenOut(s.v, 0) == s.v;
    assert k == 3 ==> [7, 8][..1] == [7] && [] + [7] == [7];
    assert r.ts == Scene(k + 1).ts;
    assert r.v == Scene(k + 1).v;
  }

  lemma {:induction false} SceneRun(k: nat) returns (run: seq<Action>)
    requires k <= 4
    ensures Runs(Scene(0), run, Scene(k), false)
  {
    run := [];
    if k > 0 {
      run := SceneRun(k - 1);
      SceneStep(k - 1);
      Extend(Scene(0), run, Scene(k - 1), Moves(k - 1), Scene(k));
      run := run + [Moves(k - 1)];
    }
  }

  /** The excluded case does occur: a reader stays asleep although a byte is waiting. */
  lemma KilledWriterStrandsReader()
    ensures exists s, run, r :: Runs(s, run, r, false) && !ReadersSleepOnEmpty(r)
  {
    var run := SceneRun(4);
    assert Scene(4).ts[0].ReaderAsleep?;
  }
}
