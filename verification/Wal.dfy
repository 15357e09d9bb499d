/** The redo log of kernel/log.c: disk images, commit, recovery, and what a crash leaves behind.

    A disk is a sequence of blocks and a block write is atomic.  `CommitImage` and
    `RecoveryImage` give the disk after each single write of commit() and of
    recover_from_log(); the class `Log` is the code itself, proved to leave exactly those
    images behind, one per bwrite; the lemmas say what any number of crashes and partial
    recoveries can make of them. */
module Wal {
  import opened Params

  const BWORDS: nat := 256   // 4-byte words in a block

  type Block = b: seq<int> | |b| == BWORDS witness seq(BWORDS, _ => 0)
  type Disk = seq<Block>

  /** Where the log lives: header at `start`, slot i at `start + 1 + i`, `size` blocks in all. */
  datatype Geometry = Geometry(start: nat, size: nat) {
    ghost predicate Fits(d: Disk) {
      1 <= size && start + size <= |d|
    }

    predicate InLog(b: int) {
      start <= b < start + size
    }

    function Slot(i: nat): nat {
      start + 1 + i
    }
  }

  // ---------- the header block ----------

  /** write_head: the entries past the last one keep whatever the block held before. */
  function EncodeHeader(b: Block, lh: seq<int>): Block
    requires |lh| < BWORDS
  {
    [|lh|] + lh + b[1 + |lh|..]
  }

  ghost predicate ReadableHeader(b: Block) {
    0 <= b[0] < BWORDS
  }

  /** read_head. */
  function DecodeHeader(b: Block): seq<int>
    requires ReadableHeader(b)
  {
    b[1..1 + b[0]]
  }

  lemma HeaderRoundTrip(b: Block, lh: seq<int>)
    requires |lh| < BWORDS
    ensures ReadableHeader(EncodeHeader(b, lh))
    ensures DecodeHeader(EncodeHeader(b, lh)) == lh
  {
    var e := EncodeHeader(b, lh);
    assert e[1..1 + |lh|] == lh;
  }

  // ---------- disk images ----------

  /** `lh` lists home blocks that fit the log (both guards of log_write). */
  ghost predicate Loggable(g: Geometry, d: Disk, lh: seq<int>) {
    && g.Fits(d)
    && |lh| <= LOGSIZE
    && |lh| <= g.size - 1
    && forall i :: 0 <= i < |lh| ==> 0 <= lh[i] < |d| && !g.InLog(lh[i])
  }

  ghost predicate Distinct(lh: seq<int>) {
    forall i, j :: 0 <= i < j < |lh| ==> lh[i] != lh[j]
  }

  /** A disk recovery can be started on. */
  ghost predicate Bootable(g: Geometry, d: Disk) {
    && g.Fits(d)
    && ReadableHeader(d[g.start])
    && Loggable(g, d, DecodeHeader(d[g.start]))
  }

  /** The same blocks outside the log. */
  ghost predicate SameHome(g: Geometry, d: Disk, e: Disk) {
    && |d| == |e|
    && forall b :: 0 <= b < |d| && !g.InLog(b) ==> d[b] == e[b]
  }

  /** The disk with the logged blocks replaced: what the transaction means. */
  ghost function Overlay(d: Disk, src: map<int, Block>): (r: Disk)
    ensures |r| == |d|
  {
    seq(|d|, b requires 0 <= b < |d| => if b in src then src[b] else d[b])
  }

  /** After write_log has copied the first k blocks into their slots. */
  function LogWritten(g: Geometry, d: Disk, lh: seq<int>, src: map<int, Block>, k: nat): (r: Disk)
    requires Loggable(g, d, lh) && k <= |lh|
    requires forall b :: b in lh ==> b in src
    ensures |r| == |d|
  {
    if k == 0 then d
    else LogWritten(g, d, lh, src, k - 1)[g.Slot(k - 1) := src[lh[k - 1]]]
  }

  /** After write_head. */
  function HeadWritten(g: Geometry, d: Disk, lh: seq<int>): (r: Disk)
    requires g.Fits(d) && |lh| < BWORDS
  {
    d[g.start := EncodeHeader(d[g.start], lh)]
  }

  /** After install_trans has copied the first k slots to their homes. */
  function Installed(g: Geometry, d: Disk, lh: seq<int>, k: nat): (r: Disk)
    requires Loggable(g, d, lh) && k <= |lh|
    ensures |r| == |d|
  {
    if k == 0 then d
    else
      Installed(g, d, lh, k - 1)[lh[k - 1] := d[g.Slot(k - 1)]]
  }

  /** write_log fills the first k slots and touches nothing else. */
  lemma {:induction false} LogWrittenAt(g: Geometry, d: Disk, lh: seq<int>, src: map<int, Block>, k: nat)
    requires Loggable(g, d, lh) && k <= |lh|
    requires forall b :: b in lh ==> b in src
    ensures var r := LogWritten(g, d, lh, src, k);
            && (forall b :: 0 <= b < |d| && !(g.start < b <= g.start + k) ==> r[b] == d[b])
            && (forall i :: 0 <= i < k ==> r[g.Slot(i)] == src[lh[i]])
  {
    if k > 0 {
      LogWrittenAt(g, d, lh, src, k - 1);
    }
  }

  /** install_trans writes only the listed home blocks. */
  lemma {:induction false} InstalledElsewhere(g: Geometry, d: Disk, lh: seq<int>, k: nat)
    requires Loggable(g, d, lh) && k <= |lh|
    ensures var r := Installed(g, d, lh, k);
            forall b :: 0 <= b < |d| && (g.InLog(b) || b !in lh[..k]) ==> r[b] == d[b]
  {
    if k > 0 {
      InstalledElsewhere(g, d, lh, k - 1);
      assert lh[..k] == lh[..k - 1] + [lh[k - 1]];
    }
  }

  /** The disk after the first k block writes of commit(): |lh| log blocks, the header,
      |lh| home blocks, the empty header. */
  ghost function CommitImage(g: Geometry, d: Disk, lh: seq<int>, src: map<int, Block>, k: nat): (r: Disk)
    requires Loggable(g, d, lh) && k <= 2 * |lh| + 2
    requires forall b :: b in lh ==> b in src
    ensures |r| == |d|
  {
    var n := |lh|;
    if k <= n then LogWritten(g, d, lh, src, k)
    else
      var h := HeadWritten(g, LogWritten(g, d, lh, src, n), lh);
      if k <= 2 * n + 1 then Installed(g, h, lh, k - n - 1)
      else HeadWritten(g, Installed(g, h, lh, n), [])
  }

  /** The disk after the first k block writes of recover_from_log(). */
  ghost function RecoveryImage(g: Geometry, d: Disk, k: nat): (r: Disk)
    requires Bootable(g, d) && k <= |DecodeHeader(d[g.start])| + 1
    ensures |r| == |d|
  {
    var lh := DecodeHeader(d[g.start]);
    if k <= |lh| then Installed(g, d, lh, k)
    else HeadWritten(g, Installed(g, d, lh, |lh|), [])
  }

  /** A recovery that runs to its end. */
  ghost function Boot(g: Geometry, d: Disk): (r: Disk)
    requires Bootable(g, d)
    ensures |r| == |d|
  {
    RecoveryImage(g, d, |DecodeHeader(d[g.start])| + 1)
  }

  /** A recovery that loses power after k writes (a k beyond the last write means it finished). */
  ghost function CrashedBoot(g: Geometry, d: Disk, k: nat): (r: Disk)
    requires Bootable(g, d)
    ensures |r| == |d|
  {
    var last := |DecodeHeader(d[g.start])| + 1;
    RecoveryImage(g, d, if k < last then k else last)
  }

  // ---------- recovery is idempotent, however often it is cut short ----------

  /** Installing everything does not care which of the listed home blocks were already written. */
  lemma {:induction false} InstallForgets(g: Geometry, d: Disk, e: Disk, lh: seq<int>, k: nat)
    requires Loggable(g, d, lh) && |e| == |d| && k <= |lh|
    requires forall b :: 0 <= b < |d| && (g.InLog(b) || b !in lh[..k]) ==> d[b] == e[b]
    ensures Installed(g, d, lh, k) == Installed(g, e, lh, k)
  {
    var x, y := Installed(g, d, lh, k), Installed(g, e, lh, k);
    InstalledElsewhere(g, d, lh, k);
    InstalledElsewhere(g, e, lh, k);
    forall b | 0 <= b < |d|
      ensures x[b] == y[b]
    {
      if b in lh[..k] {
        InstalledAgree(g, d, e, lh, k, b);
      }
    }
  }

  lemma {:induction false} InstalledAgree(g: Geometry, d: Disk, e: Disk, lh: seq<int>, k: nat, b: int)
    requires Loggable(g, d, lh) && |e| == |d| && k <= |lh| && b in lh[..k]
    requires forall c :: 0 <= c < |d| && g.InLog(c) ==> d[c] == e[c]
    ensures 0 <= b < |d| && Installed(g, d, lh, k)[b] == Installed(g, e, lh, k)[b]
  {
    if lh[k - 1] != b {
      assert lh[..k] == lh[..k - 1] + [lh[k - 1]];
      InstalledAgree(g, d, e, lh, k - 1, b);
    }
  }

  /** A recovery cut short changes neither what the next one will do nor whether it can run. */
  lemma CrashedBootKeeps(g: Geometry, d: Disk, k: nat)
    requires Bootable(g, d)
    ensures var e := CrashedBoot(g, d, k); Bootable(g, e) && SameHome(g, Boot(g, d), Boot(g, e))
  {
    var lh := DecodeHeader(d[g.start]);
    var e := CrashedBoot(g, d, k);
    if k <= |lh| {
      InstalledElsewhere(g, d, lh, k);
      assert forall b :: b in lh[..k] ==> b in lh[..|lh|];
      InstallForgets(g, d, e, lh, |lh|);
    } else {
      HeaderRoundTrip(Installed(g, d, lh, |lh|)[g.start], []);
      assert DecodeHeader(e[g.start]) == [];
    }
  }

  /** Power fails once in each of the recoveries ks, at the given write. */
  ghost function CrashedBoots(g: Geometry, d: Disk, ks: seq<nat>): (r: Disk)
    requires Bootable(g, d)
    ensures |r| == |d| && Bootable(g, r)
    decreases |ks|
  {
    if ks == [] then d
    else
      CrashedBootKeeps(g, d, ks[0]);
      CrashedBoots(g, CrashedBoot(g, d, ks[0]), ks[1..])
  }

  /** Any number of interrupted recoveries followed by one that finishes is one recovery. */
  lemma {:induction false} RecoveryIdempotent(g: Geometry, d: Disk, ks: seq<nat>)
    requires Bootable(g, d)
    ensures SameHome(g, Boot(g, d), Boot(g, CrashedBoots(g, d, ks)))
    ensures var e := Boot(g, CrashedBoots(g, d, ks));
            ReadableHeader(e[g.start]) && DecodeHeader(e[g.start]) == []
    decreases |ks|
  {
    if ks == [] {
      HeaderRoundTrip(Installed(g, d, DecodeHeader(d[g.start]), |DecodeHeader(d[g.start])|)[g.start], []);
    } else {
      CrashedBootKeeps(g, d, ks[0]);
      RecoveryIdempotent(g, CrashedBoot(g, d, ks[0]), ks[1..]);
    }
  }

  // ---------- commit is atomic ----------

  /** A disk with nothing to replay. */
  ghost predicate Quiet(g: Geometry, d: Disk) {
    g.Fits(d) && ReadableHeader(d[g.start]) && DecodeHeader(d[g.start]) == []
  }

  lemma QuietBoot(g: Geometry, d: Disk)
    requires Quiet(g, d)
    ensures Bootable(g, d) && SameHome(g, Boot(g, d), d)
  {
  }

  /** With distinct entries, installing every slot is the overlay. */
  lemma {:induction false} InstalledIsOverlay(g: Geometry, d: Disk, lh: seq<int>, src: map<int, Block>, k: nat)
    requires Loggable(g, d, lh) && Distinct(lh) && k <= |lh|
    requires forall i :: 0 <= i < |lh| ==> lh[i] in src && d[g.Slot(i)] == src[lh[i]]
    ensures forall b :: b in lh[..k] ==> 0 <= b < |d| && Installed(g, d, lh, k)[b] == src[b]
  {
    if k > 0 {
      InstalledIsOverlay(g, d, lh, src, k - 1);
      assert lh[..k] == lh[..k - 1] + [lh[k - 1]];
    }
  }

  /** The disk just after the header write: the log holds the transaction. */
  lemma CommitPoint(g: Geometry, d: Disk, lh: seq<int>, src: map<int, Block>)
    requires Loggable(g, d, lh) && Distinct(lh)
    requires src.Keys == set b | b in lh
    ensures var h := HeadWritten(g, LogWritten(g, d, lh, src, |lh|), lh);
            && Bootable(g, h) && DecodeHeader(h[g.start]) == lh
            && (forall i :: 0 <= i < |lh| ==> h[g.Slot(i)] == src[lh[i]])
            && SameHome(g, h, d)
  {
    LogWrittenAt(g, d, lh, src, |lh|);
    HeaderRoundTrip(LogWritten(g, d, lh, src, |lh|)[g.start], lh);
  }

  /** Once every slot is installed the home blocks are the overlay. */
  lemma CommitInstalls(g: Geometry, d: Disk, lh: seq<int>, src: map<int, Block>)
    requires Loggable(g, d, lh) && Distinct(lh)
    requires src.Keys == set b | b in lh
    ensures var h := HeadWritten(g, LogWritten(g, d, lh, src, |lh|), lh);
            && Bootable(g, h) && DecodeHeader(h[g.start]) == lh
            && SameHome(g, Installed(g, h, lh, |lh|), Overlay(d, src))
  {
    CommitPoint(g, d, lh, src);
    var h := HeadWritten(g, LogWritten(g, d, lh, src, |lh|), lh);
    AllInstalled(g, d, h, lh, src);
  }

  lemma AllInstalled(g: Geometry, d: Disk, h: Disk, lh: seq<int>, src: map<int, Block>)
    requires Loggable(g, h, lh) && Distinct(lh) && src.Keys == (set b | b in lh) && SameHome(g, h, d)
    requires forall i :: 0 <= i < |lh| ==> h[g.Slot(i)] == src[lh[i]]
    ensures SameHome(g, Installed(g, h, lh, |lh|), Overlay(d, src))
  {
    InstalledIsOverlay(g, h, lh, src, |lh|);
    InstalledElsewhere(g, h, lh, |lh|);
    assert lh[..|lh|] == lh;
  }

  /** Replaying the image right after the header write, or any later one, gives the new contents. */
  lemma CommittedImage(g: Geometry, d: Disk, lh: seq<int>, src: map<int, Block>, k: nat)
    requires Loggable(g, d, lh) && Distinct(lh)
    requires src.Keys == set b | b in lh
    requires |lh| < k <= 2 * |lh| + 2
    ensures var e := CommitImage(g, d, lh, src, k);
            Bootable(g, e) && SameHome(g, Boot(g, e), Overlay(d, src))
  {
    var h := HeadWritten(g, LogWritten(g, d, lh, src, |lh|), lh);
    CommittedBoot(g, d, lh, src, h);
    CrashedBootKeeps(g, h, k - |lh| - 1);
    CommittedCrash(g, d, lh, src, h, k);
    SameHomeBoth(g, Boot(g, h), Boot(g, CommitImage(g, d, lh, src, k)), Overlay(d, src));
  }

  lemma SameHomeBoth(g: Geometry, a: Disk, b: Disk, c: Disk)
    requires SameHome(g, a, b) && SameHome(g, a, c)
    ensures SameHome(g, b, c)
  {
  }

  /** A crash after the header write is a crash in a recovery from the image just after it. */
  lemma CommittedCrash(g: Geometry, d: Disk, lh: seq<int>, src: map<int, Block>, h: Disk, k: nat)
    requires Loggable(g, d, lh) && (forall b :: b in lh ==> b in src) && |lh| < k <= 2 * |lh| + 2
    requires h == HeadWritten(g, LogWritten(g, d, lh, src, |lh|), lh) && Bootable(g, h)
    requires DecodeHeader(h[g.start]) == lh
    ensures CommitImage(g, d, lh, src, k) == CrashedBoot(g, h, k - |lh| - 1)
  {
  }

  lemma CommittedBoot(g: Geometry, d: Disk, lh: seq<int>, src: map<int, Block>, h: Disk)
    requires Loggable(g, d, lh) && Distinct(lh) && src.Keys == set b | b in lh
    requires h == HeadWritten(g, LogWritten(g, d, lh, src, |lh|), lh)
    ensures Bootable(g, h) && DecodeHeader(h[g.start]) == lh && SameHome(g, Boot(g, h), Overlay(d, src))
  {
    CommitInstalls(g, d, lh, src);
  }

  lemma UncommittedImage(g: Geometry, d: Disk, lh: seq<int>, src: map<int, Block>, k: nat)
    requires Loggable(g, d, lh) && Quiet(g, d) && k <= |lh|
    requires forall b :: b in lh ==> b in src
    ensures var e := CommitImage(g, d, lh, src, k); Quiet(g, e) && SameHome(g, e, d)
  {
    LogWrittenAt(g, d, lh, src, k);
  }

  /** Crash atomicity.  Power fails after the k-th block write of commit() and again in each of
      any number of recoveries.  The next full recovery yields the old home blocks when the
      header had not been written and all the new ones when it had: nothing in between. */
  lemma CommitIsAtomic(g: Geometry, d: Disk, lh: seq<int>, src: map<int, Block>, k: nat, ks: seq<nat>)
    requires Loggable(g, d, lh) && Distinct(lh) && Quiet(g, d)
    requires src.Keys == set b | b in lh
    requires k <= 2 * |lh| + 2
    ensures var e := CommitImage(g, d, lh, src, k);
            && Bootable(g, e)
            && Quiet(g, Boot(g, CrashedBoots(g, e, ks)))
            && SameHome(g, Boot(g, CrashedBoots(g, e, ks)), if k <= |lh| then d else Overlay(d, src))
  {
    var e := CommitImage(g, d, lh, src, k);
    if k <= |lh| {
      UncommittedImage(g, d, lh, src, k);
      QuietBoot(g, e);
    } else {
      CommittedImage(g, d, lh, src, k);
    }
    RecoveryIdempotent(g, e, ks);
  }

  /** The images of write_log's first k writes, one after the other. */
  ghost function LogTrace(g: Geometry, d: Disk, lh: seq<int>, src: map<int, Block>, k: nat): seq<Disk>
    requires Loggable(g, d, lh) && k <= |lh|
    requires forall b :: b in lh ==> b in src
  {
    seq(k, i requires 0 <= i < k => LogWritten(g, d, lh, src, i + 1))
  }

  /** The images of install_trans's first k writes. */
  ghost function InstallTrace(g: Geometry, d: Disk, lh: seq<int>, k: nat): seq<Disk>
    requires Loggable(g, d, lh) && k <= |lh|
  {
    seq(k, i requires 0 <= i < k => Installed(g, d, lh, i + 1))
  }

  /** Every image commit() leaves, in order. */
  ghost function CommitTrace(g: Geometry, d: Disk, lh: seq<int>, src: map<int, Block>): seq<Disk>
    requires Loggable(g, d, lh)
    requires forall b :: b in lh ==> b in src
  {
    seq(2 * |lh| + 2, i requires 0 <= i < 2 * |lh| + 2 => CommitImage(g, d, lh, src, i + 1))
  }

  /** Every image recover_from_log() leaves, in order. */
  ghost function RecoveryTrace(g: Geometry, d: Disk): seq<Disk>
    requires Bootable(g, d)
  {
    var last := |DecodeHeader(d[g.start])| + 1;
    seq(last, i requires 0 <= i < last => RecoveryImage(g, d, i + 1))
  }

  lemma LogStep(g: Geometry, d: Disk, lh: seq<int>, src: map<int, Block>, k: nat)
    requires Loggable(g, d, lh) && k < |lh|
    requires forall b :: b in lh ==> b in src
    ensures LogWritten(g, d, lh, src, k + 1) == LogWritten(g, d, lh, src, k)[g.Slot(k) := src[lh[k]]]
    ensures LogTrace(g, d, lh, src, k + 1) == LogTrace(g, d, lh, src, k) + [LogWritten(g, d, lh, src, k + 1)]
  {
  }

  /** One round of install_trans reads its slot from the disk as it is. */
  lemma InstallStep(g: Geometry, d: Disk, lh: seq<int>, k: nat)
    requires Loggable(g, d, lh) && k < |lh|
    ensures var e := Installed(g, d, lh, k); Installed(g, d, lh, k + 1) == e[lh[k] := e[g.Slot(k)]]
    ensures InstallTrace(g, d, lh, k + 1) == InstallTrace(g, d, lh, k) + [Installed(g, d, lh, k + 1)]
  {
    InstalledElsewhere(g, d, lh, k);
  }

  lemma CommitTraceSplits(g: Geometry, d: Disk, lh: seq<int>, src: map<int, Block>)
    requires Loggable(g, d, lh)
    requires forall b :: b in lh ==> b in src
    ensures var h := HeadWritten(g, LogWritten(g, d, lh, src, |lh|), lh);
            CommitTrace(g, d, lh, src)
            == LogTrace(g, d, lh, src, |lh|) + [h] + InstallTrace(g, h, lh, |lh|)
               + [HeadWritten(g, Installed(g, h, lh, |lh|), [])]
  {
  }

  lemma RecoveryTraceSplits(g: Geometry, d: Disk)
    requires Bootable(g, d)
    ensures var lh := DecodeHeader(d[g.start]);
            RecoveryTrace(g, d) == InstallTrace(g, d, lh, |lh|) + [Boot(g, d)]
  {
  }

  /** However many recoveries are cut short, the next full one gives `target`. */
  ghost predicate Promises(g: Geometry, e: Disk, target: Disk) {
    Bootable(g, e) && forall ks: seq<nat> :: SameHome(g, Boot(g, CrashedBoots(g, e, ks)), target)
  }

  /** The images of a run of writes: the first n promise `before`, the others `after`. */
  ghost predicate CrashSafe(g: Geometry, images: seq<Disk>, n: nat, before: Disk, after: Disk) {
    forall i :: 0 <= i < |images| ==> Promises(g, images[i], if i < n then before else after)
  }

  lemma CommitPromises(g: Geometry, d: Disk, lh: seq<int>, src: map<int, Block>, k: nat, after: Disk)
    requires Loggable(g, d, lh) && Distinct(lh) && Quiet(g, d)
    requires src.Keys == set b | b in lh
    requires k <= 2 * |lh| + 2 && SameHome(g, after, Overlay(d, src))
    ensures Promises(g, CommitImage(g, d, lh, src, k), if k <= |lh| then d else after)
  {
    var e := CommitImage(g, d, lh, src, k);
    CommitIsAtomic(g, d, lh, src, k, []);
    forall ks: seq<nat>
      ensures SameHome(g, Boot(g, CrashedBoots(g, e, ks)), if k <= |lh| then d else after)
    {
      CommitIsAtomic(g, d, lh, src, k, ks);
    }
  }

  lemma CommitTraceIsCrashSafe(g: Geometry, d: Disk, lh: seq<int>, src: map<int, Block>, after: Disk)
    requires Loggable(g, d, lh) && Distinct(lh) && Quiet(g, d)
    requires src.Keys == set b | b in lh
    requires SameHome(g, after, Overlay(d, src))
    ensures CrashSafe(g, CommitTrace(g, d, lh, src), |lh|, d, after)
  {
    forall i | 0 <= i < 2 * |lh| + 2
      ensures Promises(g, CommitTrace(g, d, lh, src)[i], if i < |lh| then d else after)
    {
      CommitPromises(g, d, lh, src, i + 1, after);
    }
  }

  lemma RecoveryTraceIsCrashSafe(g: Geometry, d: Disk)
    requires Bootable(g, d)
    ensures CrashSafe(g, RecoveryTrace(g, d), 0, d, Boot(g, d))
  {
    var images := RecoveryTrace(g, d);
    forall i | 0 <= i < |images|
      ensures Promises(g, images[i], Boot(g, d))
    {
      assert images[i] == CrashedBoot(g, d, i + 1);
      CrashedBootKeeps(g, d, i + 1);
      forall ks: seq<nat>
        ensures SameHome(g, Boot(g, CrashedBoots(g, images[i], ks)), Boot(g, d))
      {
        RecoveryIdempotent(g, images[i], ks);
      }
    }
  }

  /** The last image needs no replay. */
  lemma CommitEnds(g: Geometry, d: Disk, lh: seq<int>, src: map<int, Block>)
    requires Loggable(g, d, lh) && Distinct(lh)
    requires src.Keys == set b | b in lh
    ensures var e := CommitImage(g, d, lh, src, 2 * |lh| + 2); Quiet(g, e) && SameHome(g, e, Overlay(d, src))
  {
    CommitInstalls(g, d, lh, src);
    var h := HeadWritten(g, LogWritten(g, d, lh, src, |lh|), lh);
    HeaderRoundTrip(Installed(g, h, lh, |lh|)[g.start], []);
  }

  lemma NoneLeft(lh: seq<int>, pinned: set<int>)
    requires forall b :: b in pinned ==> b in lh
    requires forall i :: 0 <= i < |lh| ==> lh[i] !in pinned
    ensures pinned == {}
  {
    assert forall b :: b in lh ==> b !in pinned;
    assert forall b :: b !in pinned;
  }

  lemma Snoc<T>(t: seq<T>, a: seq<T>, x: T)
    ensures t + a + [x] == t + (a + [x])
  {
  }

  lemma ConcatAssociates<T>(t: seq<T>, a: seq<T>, b: seq<T>, c: seq<T>, d: seq<T>)
    ensures t + a + b + c + d == t + (a + b + c + d)
  {
  }

  // ---------- the code ----------

  /** The part of a cache that is pinned. */
  ghost function Only(cache: map<int, Block>, pinned: set<int>): map<int, Block>
    requires pinned <= cache.Keys
  {
    map b | b in pinned :: cache[b]
  }

  lemma OnlyMore(cache: map<int, Block>, pinned: set<int>, b: int, data: Block)
    requires pinned <= cache.Keys
    ensures Only(cache[b := data], pinned + {b}) == Only(cache, pinned)[b := data]
  {
  }

  /** One more distinct entry. */
  lemma EntryAdded(g: Geometry, d: Disk, lh: seq<int>, b: int)
    requires Loggable(g, d, lh) && Distinct(lh) && |lh| < LOGSIZE && |lh| < g.size - 1 && 0 <= b < |d| && !g.InLog(b)
    ensures (set x | x in lh + [b]) == (set x | x in lh) + {b}
    ensures b !in lh ==> Loggable(g, d, lh + [b]) && Distinct(lh + [b])
  {
  }

  /** The in-memory log together with the buffer cache and the disk beneath it.  `cache` holds the
      valid buffers, `pinned` the blocks whose buffers bpin() keeps in memory.  `trace` is the
      disk after every bwrite so far: the images a power failure can leave. */
  class Log {
    const geo: Geometry
    var disk: Disk
    var cache: map<int, Block>
    var pinned: set<int>
    var n: nat
    const block: array<int>
    ghost var trace: seq<Disk>

    constructor (geo: Geometry, disk: Disk)
      requires geo.Fits(disk)
      ensures Coherent() && this.geo == geo && this.disk == disk && fresh(block)
      ensures cache == map[] && pinned == {} && n == 0 && trace == []
    {
      this.geo, this.disk := geo, disk;
      cache, pinned, n, trace := map[], {}, 0, [];
      block := new int[LOGSIZE];
    }

    /** Only a pinned buffer may differ from its block on disk. */
    ghost predicate Coherent()
      reads this
    {
      Keeps(pinned)
    }

    /** Cached blocks other than those in s are as on disk. */
    ghost predicate Keeps(s: set<int>)
      reads this
    {
      && geo.Fits(disk)
      && block.Length == LOGSIZE
      && n <= LOGSIZE
      && pinned <= cache.Keys
      && (forall b :: b in cache ==> 0 <= b < |disk|)
      && (forall b :: b in cache && b !in s ==> cache[b] == disk[b])
    }

    ghost function Entries(): seq<int>
      reads this, block
      requires Coherent()
    {
      block[..n]
    }

    /** The logged blocks are pinned home blocks, each listed once. */
    ghost predicate Valid()
      reads this, block
    {
      && Coherent()
      && Loggable(geo, disk, Entries())
      && Distinct(Entries())
      && pinned == set b | b in Entries()
    }

    /** The uncommitted contents: every pinned buffer. */
    ghost function Pending(): map<int, Block>
      reads this
      requires Coherent()
    {
      Only(cache, pinned)
    }

    /** What a reader should see: the disk overlaid with the current transaction's writes. */
    ghost function View(b: int): Block
      reads this
      requires Coherent() && 0 <= b < |disk|
    {
      if b in pinned then cache[b] else disk[b]
    }

    /** bread: a hit, or a read into a buffer whose previous block nobody references.  Which
        unreferenced buffers are recycled is left open; `held` are the caller's other buffers. */
    method Bread(b: nat, held: set<int>) returns (data: Block)
      requires Coherent() && b < |disk| && held <= cache.Keys
      modifies this`cache
      ensures Coherent() && held + {b} <= cache.Keys
      ensures data == View(b) == cache[b] && Pending() == old(Pending())
    {
      var recycled: set<int> :| recycled <= cache.Keys - pinned - held - {b};
      cache := map c | c in cache.Keys - recycled :: cache[c];
      if b !in cache {
        cache := cache[b := disk[b]];
      }
      data := cache[b];
    }

    /** bwrite. */
    method Bwrite(b: nat, data: Block)
      requires Coherent() && b in cache
      modifies this`cache, this`disk, this`trace
      ensures Coherent()
      ensures disk == old(disk)[b := data] && cache == old(cache)[b := data]
      ensures trace == old(trace) + [disk]
    {
      cache := cache[b := data];
      disk := disk[b := data];
      trace := trace + [disk];
    }

    /** bread both, memmove, bwrite the target. */
    method Copy(to: nat, from: nat)
      requires Coherent() && to < |disk| && from < |disk|
      modifies this`cache, this`disk, this`trace
      ensures Coherent() && to in cache && cache[to] == disk[to]
      ensures disk == old(disk)[to := old(View(from))] && trace == old(trace) + [disk]
      ensures Pending() == if to in pinned then old(Pending())[to := old(View(from))] else old(Pending())
    {
      var target := Bread(to, {});
      var data := Bread(from, {to});
      assert from in pinned ==> Pending()[from] == old(Pending()[from]);
      Bwrite(to, data);
    }

    /** write_log. */
    method WriteLog()
      requires Valid()
      modifies this`cache, this`disk, this`trace
      ensures Coherent() && Pending() == old(Pending())
      ensures disk == LogWritten(geo, old(disk), Entries(), Pending(), n)
      ensures trace == old(trace) + LogTrace(geo, old(disk), Entries(), Pending(), n)
    {
      ghost var d, lh, src := disk, Entries(), Pending();
      var tail := 0;
      while tail < n
        invariant tail <= n && Coherent() && Pending() == src
        invariant disk == LogWritten(geo, d, lh, src, tail)
        invariant trace == old(trace) + LogTrace(geo, d, lh, src, tail)
      {
        CopyToSlot(tail, d, lh, src);
        LogStep(geo, d, lh, src, tail);
        Snoc(old(trace), LogTrace(geo, d, lh, src, tail), disk);
        tail := tail + 1;
      }
    }

    /** The body of write_log's loop. */
    method CopyToSlot(tail: nat, ghost d: Disk, ghost lh: seq<int>, ghost src: map<int, Block>)
      requires Coherent() && Pending() == src && tail < n && lh == Entries() && Loggable(geo, d, lh)
      requires pinned == set b | b in lh
      requires disk == LogWritten(geo, d, lh, src, tail)
      modifies this`cache, this`disk, this`trace
      ensures Coherent() && Pending() == src && disk == LogWritten(geo, d, lh, src, tail + 1)
      ensures trace == old(trace) + [disk]
    {
      LogStep(geo, d, lh, src, tail);
      assert block[tail] == lh[tail] && lh[tail] in pinned && geo.Slot(tail) !in pinned;
      Copy(geo.start + tail + 1, block[tail]);
    }

    /** write_head. */
    method WriteHead()
      requires Coherent() && geo.start !in pinned
      modifies this`cache, this`disk, this`trace
      ensures Coherent() && Pending() == old(Pending())
      ensures disk == HeadWritten(geo, old(disk), Entries()) && trace == old(trace) + [disk]
    {
      var buf := Bread(geo.start, {});
      var hb := buf[0 := n];
      for i := 0 to n
        invariant |hb| == BWORDS
        invariant hb[0] == n && hb[1..i + 1] == block[..i] && hb[i + 1..] == buf[i + 1..]
      {
        hb := hb[i + 1 := block[i]];
      }
      assert hb == EncodeHeader(buf, Entries());
      Bwrite(geo.start, hb);
    }

    /** The body of install_trans's loop. */
    method InstallOne(recovering: bool, tail: nat, ghost d: Disk)
      requires Coherent() && tail < n && Loggable(geo, d, Entries())
      requires disk == Installed(geo, d, Entries(), tail)
      requires forall b :: b in pinned ==> !geo.InLog(b)
      modifies this`cache, this`disk, this`trace, this`pinned
      ensures Coherent() && pinned == old(pinned) - if recovering then {} else {block[tail]}
      ensures disk == Installed(geo, d, Entries(), tail + 1) && trace == old(trace) + [disk]
    {
      InstallStep(geo, d, Entries(), tail);
      Copy(block[tail], geo.start + tail + 1);
      if !recovering {
        pinned := pinned - {block[tail]};
      }
    }

    /** install_trans.  When not recovering each block is unpinned as it reaches its home. */
    method InstallTrans(recovering: bool)
      requires Coherent() && Loggable(geo, disk, Entries())
      requires recovering ==> pinned == {}
      requires !recovering ==> pinned == set b | b in Entries()
      modifies this`cache, this`disk, this`trace, this`pinned
      ensures Coherent() && pinned == {}
      ensures disk == Installed(geo, old(disk), Entries(), n)
      ensures trace == old(trace) + InstallTrace(geo, old(disk), Entries(), n)
    {
      ghost var d, lh := disk, Entries();
      var tail := 0;
      while tail < n
        invariant tail <= n && Coherent()
        invariant forall b :: b in pinned ==> b in lh
        invariant recovering ==> pinned == {}
        invariant forall i :: 0 <= i < tail ==> lh[i] !in pinned
        invariant disk == Installed(geo, d, lh, tail)
        invariant trace == old(trace) + InstallTrace(geo, d, lh, tail)
      {
        InstallOne(recovering, tail, d);
        InstallStep(geo, d, lh, tail);
        Snoc(old(trace), InstallTrace(geo, d, lh, tail), disk);
        tail := tail + 1;
      }
      NoneLeft(lh, pinned);
    }

    /** read_head. */
    method ReadHead()
      requires Coherent() && pinned == {} && Bootable(geo, disk)
      modifies this`cache, this`n, block
      ensures Coherent() && Entries() == DecodeHeader(disk[geo.start])
    {
      var lh := Bread(geo.start, {});
      n := lh[0];
      for i := 0 to n
        invariant Coherent() && n == lh[0]
        invariant block[..i] == lh[1..i + 1]
      {
        block[i] := lh[i + 1];
      }
      assert block[..n] == lh[1..n + 1];
    }

    /** recover_from_log.  A crash on the way loses nothing. */
    method RecoverFromLog()
      requires Coherent() && pinned == {} && Bootable(geo, disk)
      modifies this`cache, this`disk, this`trace, this`pinned, this`n, block
      ensures Valid() && Quiet(geo, disk) && n == 0
      ensures disk == Boot(geo, old(disk))
      ensures trace == old(trace) + RecoveryTrace(geo, old(disk))
      ensures CrashSafe(geo, RecoveryTrace(geo, old(disk)), 0, old(disk), disk)
    {
      ghost var d := disk;
      ReadHead();
      InstallTrans(true);
      n := 0;
      WriteHead();
      RecoveryTraceSplits(geo, d);
      RecoveryTraceIsCrashSafe(geo, d);
      RecoveryIdempotent(geo, d, []);
    }

    /** The writes of commit(). */
    method WriteTransaction()
      requires Valid()
      modifies this`cache, this`disk, this`trace, this`pinned, this`n
      ensures Coherent() && pinned == {} && n == 0
      ensures trace == old(trace) + CommitTrace(geo, old(disk), old(Entries()), old(Pending()))
      ensures disk == CommitImage(geo, old(disk), old(Entries()), old(Pending()), 2 * old(n) + 2)
    {
      ghost var d, lh, src := disk, Entries(), Pending();
      WriteLog();
      WriteHead();
      ghost var h := disk;
      InstallTrans(false);
      n := 0;
      WriteHead();
      CommitTraceSplits(geo, d, lh, src);
      ConcatAssociates(old(trace), LogTrace(geo, d, lh, src, |lh|), [h], InstallTrace(geo, h, lh, |lh|), [disk]);
    }

    /** commit.  Afterwards no buffer is pinned and the disk holds the transaction; at every
        write on the way a crash leaves all of the old contents or all of the new. */
    method Commit()
      requires Valid() && Quiet(geo, disk)
      modifies this`cache, this`disk, this`trace, this`pinned, this`n
      ensures Valid() && Quiet(geo, disk) && n == 0
      ensures SameHome(geo, disk, Overlay(old(disk), old(Pending())))
      ensures trace == old(trace) +
        if old(n) == 0 then [] else CommitTrace(geo, old(disk), old(Entries()), old(Pending()))
      ensures CrashSafe(geo, CommitTrace(geo, old(disk), old(Entries()), old(Pending())), old(n), old(disk), disk)
    {
      ghost var d, lh, src := disk, Entries(), Pending();
      if n > 0 {
        WriteTransaction();
        CommitEnds(geo, d, lh, src);
      }
      CommitTraceIsCrashSafe(geo, d, lh, src, disk);
    }

    /** The search for an earlier entry. */
    method FindEntry(b: nat) returns (i: nat)
      requires n <= block.Length
      ensures i <= n && b !in block[..i] && (i < n ==> block[i] == b)
    {
      i := 0;
      while i < n && block[i] != b
        invariant i <= n && b !in block[..i]
      {
        i := i + 1;
      }
    }

    /** log_write, called with a buffer that holds the new data; false is a panic. */
    method LogWrite(b: nat, data: Block, outstanding: nat) returns (ok: bool)
      requires Valid() && b < |disk| && !geo.InLog(b) && b in cache
      modifies this`cache, this`pinned, this`n, block
      ensures ok <==> old(n) < LOGSIZE && old(n) < geo.size - 1 && outstanding >= 1
      ensures !ok ==> n == old(n) && block[..] == old(block[..]) && cache == old(cache)
      ensures ok ==> Valid() && Pending() == old(Pending())[b := data]
      ensures ok ==> Entries() == if b in old(Entries()) then old(Entries()) else old(Entries()) + [b]
    {
      if n >= LOGSIZE || n >= geo.size - 1 {
        return false;
      }
      if outstanding < 1 {
        return false;
      }
      cache := cache[b := data];
      Enter(b);
      OnlyMore(old(cache), old(pinned), b, data);
      return true;
    }

    /** The entry for b, found or added; a new one pins the block. */
    method Enter(b: nat)
      requires Keeps(pinned + {b}) && n < LOGSIZE && n < geo.size - 1 && b < |disk| && !geo.InLog(b) && b in cache
      requires Loggable(geo, disk, block[..n]) && Distinct(block[..n]) && pinned == set x | x in block[..n]
      modifies this`pinned, this`n, block
      ensures Valid() && pinned == old(pinned) + {b} && cache == old(cache)
      ensures Entries() == if b in old(block[..n]) then old(block[..n]) else old(block[..n]) + [b]
    {
      ghost var lh := block[..n];
      var i := FindEntry(b);
      block[i] := b;
      EntryAdded(geo, disk, lh, b);
      if i == n {
        pinned := pinned + {b};
        n := n + 1;
        assert block[..n] == lh + [b];
      } else {
        assert block[..n] == lh;
        assert b in lh;
      }
    }
  }
}
