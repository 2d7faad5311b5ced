/** Crashes during a commit. The sector writes persist in the order they are issued; a crash keeps a
    prefix of them, with the next one possibly torn. */
module Crash {
  import opened ArcTypes
  import opened Reader
  import opened Writer
  import opened Soundness
  import opened CommitProofs
  import opened Commit
  import opened Space
  import opened CommitTheorems

  /** The disk after the writes of a log, in order. */
  function Replay(d: Disk, log: seq<Write>): (e: Disk)
    requires forall w | w in log :: w.sector < |d|
    ensures |e| == |d|
  {
    if |log| == 0 then d else
    assert forall w | w in log[..|log| - 1] :: w in log;
    var last := log[|log| - 1];
    Replay(d, log[..|log| - 1])[last.sector := last.content]
  }

  /** The disk a crash leaves after `k` whole writes, with write number `k` torn or not begun. */
  function CrashDisk(d: Disk, log: seq<Write>, k: nat, torn: bool): (e: Disk)
    requires k <= |log| && (torn ==> k < |log|) && forall w | w in log :: w.sector < |d|
    ensures |e| == |d|
  {
    var e := Replay(d, log[..k]);
    if torn then e[log[k].sector := Junk] else e
  }

  lemma {:induction false} ReplayRun(d: Disk, start: nat, run: seq<Sector>, k: nat)
    requires start + |run| <= |d| && k <= |run|
    ensures Replay(d, RunLog(start, run)[..k]) == Overwrite(d, start, run[..k])
  {
    var log := RunLog(start, run)[..k];
    if k == 0 {
      assert Overwrite(d, start, run[..0]) == d;
    } else {
      ReplayRun(d, start, run, k - 1);
      assert log[..k - 1] == RunLog(start, run)[..k - 1];
      assert Overwrite(d, start, run[..k]) == Overwrite(d, start, run[..k - 1])[start + k - 1 := run[k - 1]];
    }
  }

  lemma {:induction false} ReplayConcat(d: Disk, a: seq<Write>, b: seq<Write>)
    requires forall w | w in a + b :: w.sector < |d|
    ensures (forall w | w in a :: w.sector < |d|) && forall w | w in b :: w.sector < |d|
    ensures Replay(d, a + b) == Replay(Replay(d, a), b)
  {
    assert forall w | w in a :: w in a + b;
    assert forall w | w in b :: w in a + b;
    if |b| == 0 {
      assert a + b == a;
    } else {
      var c := b[..|b| - 1];
      assert forall w | w in a + c :: w in a + b;
      assert (a + b)[..|a + b| - 1] == a + c;
      ReplayConcat(d, a, c);
    }
  }

  /** The ring after `j` of the four superblock writes. */
  function PartRing(d: Disk, super: SuperRecord, j: nat): (e: Disk)
    requires j <= RING_SLOTS <= |d|
    ensures |e| == |d| && forall i | 0 <= i < |d| :: e[i] == if i < j then Super(super) else d[i]
  {
    seq(|d|, i requires 0 <= i < |d| => if i < j then Super(super) else d[i])
  }

  lemma {:induction false} ReplayRing(d: Disk, super: SuperRecord, j: nat)
    requires j <= RING_SLOTS <= |d|
    ensures forall w | w in RingLog(super) :: w.sector < |d|
    ensures Replay(d, RingLog(super)[..j]) == PartRing(d, super, j)
  {
    if j == 0 {
      assert PartRing(d, super, 0) == d;
    } else {
      ReplayRing(d, super, j - 1);
      assert RingLog(super)[..j][..j - 1] == RingLog(super)[..j - 1];
      assert PartRing(d, super, j) == PartRing(d, super, j - 1)[j - 1 := Super(super)];
    }
  }

  /** The log a successful `Prepare` leads to. */
  function PublishLog(v: Vol, p: Prepared): (log: seq<Write>)
    ensures |log| == |p.flow.out| + RING_SLOTS
  {
    RunLog(v.HighWater(), p.flow.out) + RingLog(CommitSuper(v, p))
  }

  lemma LogInRange(d: Disk, v: Vol, p: Prepared)
    requires RING_SLOTS <= |d| && v.HighWater() + |p.flow.out| <= |d|
    ensures forall w | w in PublishLog(v, p) :: w.sector < |d|
  {
    forall w | w in PublishLog(v, p)
      ensures w.sector < |d|
    {
      var i :| 0 <= i < |PublishLog(v, p)| && PublishLog(v, p)[i] == w;
      if i < |p.flow.out| {
        assert w == RunLog(v.HighWater(), p.flow.out)[i];
      } else {
        assert w == RingLog(CommitSuper(v, p))[i - |p.flow.out|];
      }
    }
  }

  /** A crash before the ring is touched: the body in part, or in whole. */
  lemma CrashInBody(d: Disk, v: Vol, p: Prepared, k: nat, torn: bool)
    requires RING_SLOTS <= v.HighWater() && v.HighWater() + |p.flow.out| <= |d|
    requires k <= |p.flow.out| && (torn ==> k < |p.flow.out|)
    ensures forall w | w in PublishLog(v, p) :: w.sector < |d|
    ensures var e := CrashDisk(d, PublishLog(v, p), k, torn);
      forall i | 0 <= i < v.HighWater() :: e[i] == d[i]
  {
    LogInRange(d, v, p);
    var log := PublishLog(v, p);
    assert log[..k] == RunLog(v.HighWater(), p.flow.out)[..k];
    ReplayRun(d, v.HighWater(), p.flow.out, k);
  }

  /** A crash in the ring: the whole body, `j` new slots, and the next one torn or not begun. */
  lemma CrashInRing(d: Disk, v: Vol, p: Prepared, j: nat, torn: bool)
    requires RING_SLOTS <= v.HighWater() && v.HighWater() + |p.flow.out| <= |d|
    requires j <= RING_SLOTS && (torn ==> j < RING_SLOTS)
    ensures forall w | w in PublishLog(v, p) :: w.sector < |d|
    ensures var body := Overwrite(d, v.HighWater(), p.flow.out);
      var ring := PartRing(body, CommitSuper(v, p), j);
      CrashDisk(d, PublishLog(v, p), |p.flow.out| + j, torn) == if torn then ring[j := Junk] else ring
  {
    LogInRange(d, v, p);
    LogSplits(v, p, j);
    PrefixInRange(d, PublishLog(v, p), |p.flow.out| + j);
    hide Replay, PublishLog, Overwrite, PartRing, RingLog, RunLog, CommitSuper;
    ReplayConcat(d, RunLog(v.HighWater(), p.flow.out), RingLog(CommitSuper(v, p))[..j]);
    ReplayWholeRun(d, v.HighWater(), p.flow.out);
    ReplayRing(Overwrite(d, v.HighWater(), p.flow.out), CommitSuper(v, p), j);
  }

  /** The log in the ring: the whole body, then superblocks. */
  lemma LogSplits(v: Vol, p: Prepared, j: nat)
    requires j <= RING_SLOTS
    ensures PublishLog(v, p)[..|p.flow.out| + j] == RunLog(v.HighWater(), p.flow.out) + RingLog(CommitSuper(v, p))[..j]
    ensures j < RING_SLOTS ==> PublishLog(v, p)[|p.flow.out| + j] == Write(j, Super(CommitSuper(v, p)))
  {
  }

  lemma PrefixInRange(d: Disk, log: seq<Write>, k: nat)
    requires k <= |log| && forall w | w in log :: w.sector < |d|
    ensures forall w | w in log[..k] :: w.sector < |d|
  {
    assert forall w | w in log[..k] :: w in log;
  }

  lemma ReplayWholeRun(d: Disk, start: nat, run: seq<Sector>)
    requires start + |run| <= |d|
    ensures forall w | w in RunLog(start, run) :: w.sector < |d|
    ensures Replay(d, RunLog(start, run)) == Overwrite(d, start, run)
  {
    ReplayRun(d, start, run, |run|);
    assert RunLog(start, run)[..|run|] == RunLog(start, run) && run[..|run|] == run;
  }

  /** The log describes what the commit does: replaying all of it gives the committed disk. */
  lemma LogIsCommit(d: Disk, v: Vol)
    requires RING_SLOTS <= v.HighWater() <= v.Total() <= |d| && !v.Clean() && !Prepare(v).flow.Failed()
    ensures CommitLog(v) == PublishLog(v, Prepare(v))
    ensures forall w | w in CommitLog(v) :: w.sector < |d|
    ensures Replay(d, CommitLog(v)) == CommitDisk(d, v)
  {
    PublishReplays(d, v, Prepare(v));
  }

  lemma PublishReplays(d: Disk, v: Vol, p: Prepared)
    requires RING_SLOTS <= v.HighWater() && v.HighWater() + |p.flow.out| <= |d| && !p.flow.Failed()
    ensures forall w | w in PublishLog(v, p) :: w.sector < |d|
    ensures Replay(d, PublishLog(v, p)) == Publish(d, v, p)
  {
    CrashInRing(d, v, p, RING_SLOTS, false);
    var log := PublishLog(v, p);
    assert log[..|log|] == log;
    assert PartRing(Overwrite(d, v.HighWater(), p.flow.out), CommitSuper(v, p), RING_SLOTS) == Publish(d, v, p);
  }

  // ---- What mounting finds after a crash ----------------------------------------------------------

  /** Some ring slot other than the first carries the current superblock. A finished commit and a fresh
      format leave it in all four; recovery from a crash may leave it in the first alone. */
  predicate Backed(d: Disk, v: Vol) {
    exists i: nat :: 0 < i < RING_SLOTS && i < |d| && d[i] == Super(v.super.record)
  }

  /** The crash tears the first ring write. */
  predicate TearsFirst(p: Prepared, k: nat, torn: bool) {
    k == |p.flow.out| && torn
  }

  /** Before slot 0 is rewritten, mounting yields the old volume. */
  lemma CrashBefore(d: Disk, v: Vol, p: Prepared, k: nat, torn: bool)
    requires Sound(d, v) && RING_SLOTS <= v.HighWater() && v.HighWater() + |p.flow.out| <= |d|
    requires k <= |p.flow.out| && (torn ==> k < |p.flow.out|)
    ensures forall w | w in PublishLog(v, p) :: w.sector < |d|
    ensures var e := CrashDisk(d, PublishLog(v, p), k, torn); DiskOk(e) && Mount(e) == Mount(d)
  {
    CrashInBody(d, v, p, k, torn);
    KeepsMount(d, v, CrashDisk(d, PublishLog(v, p), k, torn));
  }

  lemma RingMixes(d: Disk, v: Vol, p: Prepared, s: Stage, e: Disk)
    requires Closed(v, p) && HoldsCommit(d, v, p, e) && NewGeneration(d, v, p, s, e)
    requires RING_SLOTS <= v.HighWater() <= |d|
    requires forall i: nat | i < RING_SLOTS :: e[i] == d[i] || e[i] == Junk || e[i] == Super(CommitSuper(v, p))
    ensures MixedRing(d, v, p, s, e)
  {
    forall i: nat | i < RING_SLOTS
      ensures OldSlot(d, e, i) || e[i] == Junk || NewSlot(d, v, p, s, e, i)
    {
    }
  }

  lemma BodyClosed(d: Disk, v: Vol, p: Prepared, s: Stage)
    requires BodyOk(d, v, p, s)
    ensures Closed(v, p) && v.HighWater() <= |d|
  {
  }

  /** A crash in the ring leaves the body whole and each slot old, torn or new. */
  lemma CrashRingShape(d: Disk, v: Vol, p: Prepared, j: nat, torn: bool)
    requires Closed(v, p) && RING_SLOTS <= v.HighWater() <= v.Total() <= |d|
    requires j <= RING_SLOTS && (torn ==> j < RING_SLOTS)
    ensures forall w | w in PublishLog(v, p) :: w.sector < |d|
    ensures var e := CrashDisk(d, PublishLog(v, p), |p.flow.out| + j, torn);
      HoldsCommit(d, v, p, e)
      && (forall i: nat | i < RING_SLOTS :: e[i] == d[i] || e[i] == Junk || e[i] == Super(CommitSuper(v, p)))
      && (j > 0 ==> e[0] == Super(CommitSuper(v, p)))
  {
    hide CrashDisk, PublishLog, PartRing, CommitSuper;
    CrashInRing(d, v, p, j, torn);
    var e := CrashDisk(d, PublishLog(v, p), |p.flow.out| + j, torn);
    RingOverBody(d, v.HighWater(), p.flow.out, CommitSuper(v, p), j, torn);
    assert p.flow.start == v.HighWater() && p.flow.Cursor() == v.HighWater() + |p.flow.out|;
  }

  lemma RingOverBody(d: Disk, at: nat, out: seq<Sector>, super: SuperRecord, j: nat, torn: bool)
    requires RING_SLOTS <= at && at + |out| <= |d| && j <= RING_SLOTS && (torn ==> j < RING_SLOTS)
    ensures var ring := PartRing(Overwrite(d, at, out), super, j);
      var e := if torn then ring[j := Junk] else ring;
      && |e| == |d| && e[at..at + |out|] == out
      && (forall i | RING_SLOTS <= i < at :: e[i] == d[i])
      && (forall i: nat | i < RING_SLOTS :: e[i] == d[i] || e[i] == Junk || e[i] == Super(super))
      && (j > 0 ==> e[0] == Super(super))
  {
    var body := Overwrite(d, at, out);
    var ring := PartRing(body, super, j);
    var e := if torn then ring[j := Junk] else ring;
    forall i: nat | i < |out|
      ensures e[at + i] == out[i]
    {
      assert e[at + i] == body[at + i];
    }
  }

  /** Once slot 0 is rewritten, mounting yields the new volume. */
  lemma CrashAfter(d: Disk, v: Vol, p: Prepared, s: Stage, j: nat, torn: bool)
    requires Sound(d, v) && BodyOk(d, v, p, s) && Remountable(v)
    requires RING_SLOTS <= v.HighWater() <= v.Total() <= |d|
    requires 0 < j <= RING_SLOTS && (torn ==> j < RING_SLOTS)
    ensures forall w | w in PublishLog(v, p) :: w.sector < |d|
    ensures var e := CrashDisk(d, PublishLog(v, p), |p.flow.out| + j, torn);
      DiskOk(e) && Mount(e).Ok? && SameVolume(Mount(e).value, NewVolume(v, p, s, 0))
  {
    hide Sound, NewGeneration, BodyOk, DiskOk, Mount, HoldsCommit, MixedRing;
    BodyClosed(d, v, p, s);
    CrashRingShape(d, v, p, j, torn);
    var e := CrashDisk(d, PublishLog(v, p), |p.flow.out| + j, torn);
    NewGenerationHolds(d, v, p, s, e);
    RingMixes(d, v, p, s, e);
    assert NewSlot(d, v, p, s, e, 0);
    MountsNew(d, v, p, s, e, 0);
  }

  /** When the write of slot 0 is torn, the old volume survives exactly if another slot carries it. */
  lemma CrashAtFirst(d: Disk, v: Vol, p: Prepared)
    requires Sound(d, v) && RING_SLOTS <= v.HighWater() && v.HighWater() + |p.flow.out| <= |d|
    ensures forall w | w in PublishLog(v, p) :: w.sector < |d|
    ensures var e := CrashDisk(d, PublishLog(v, p), |p.flow.out|, true);
      RingOk(e)
      && (Backed(d, v) ==> DiskOk(e) && Mount(e).Ok? && Mount(d).Ok? && SameVolume(Mount(e).value, Mount(d).value))
      && (!Backed(d, v) && Mount(e).Ok? ==>
            Mount(e).value.checkpoint.record.generation < v.checkpoint.record.generation
                && Mount(e).value.Total() == v.Total())
  {
    hide Sound, RingOk, DiskOk, Mount, CrashDisk, PublishLog;
    CrashInRing(d, v, p, 0, true);
    TornFirst(d, v, CrashDisk(d, PublishLog(v, p), |p.flow.out|, true));
  }

  /** A disk that differs from the old one only by a torn slot 0 and above the high-water mark. */
  lemma TornFirst(d: Disk, v: Vol, e: Disk)
    requires Sound(d, v) && |e| == |d| >= RING_SLOTS && v.HighWater() <= |d| && e[0] == Junk
    requires forall i | 0 < i < v.HighWater() || 0 < i < RING_SLOTS :: e[i] == d[i]
    ensures RingOk(e)
    ensures Backed(d, v) ==> DiskOk(e) && Mount(e).Ok? && Mount(d).Ok? && SameVolume(Mount(e).value, Mount(d).value)
    ensures !Backed(d, v) && Mount(e).Ok? ==>
      (Mount(e).value.checkpoint.record.generation < v.checkpoint.record.generation
          && Mount(e).value.Total() == v.Total())
  {
    hide Sound, RingOk, DiskOk, Mount, Survives;
    assert OldRing(d, v, e);
    OldRingOk(d, v, e);
    if i: nat :| Survives(d, v, e, i) {
      SurvivorBacks(d, v, e, i);
      MountsOld(d, v, e, i);
    } else {
      if Backed(d, v) {
        var i: nat :| 0 < i < RING_SLOTS && i < |d| && d[i] == Super(v.super.record);
        BackedSurvives(d, v, e, i);
        assert false;
      }
      MountsOlder(d, v, e);
    }
  }

  lemma SurvivorBacks(d: Disk, v: Vol, e: Disk, i: nat)
    requires |e| == |d| >= RING_SLOTS && e[0] == Junk && Survives(d, v, e, i)
    ensures Backed(d, v)
  {
    assert i != 0;
    assert d[i] == Super(v.super.record);
  }

  lemma BackedSurvives(d: Disk, v: Vol, e: Disk, i: nat)
    requires Sound(d, v) && i < RING_SLOTS && i < |d| && d[i] == Super(v.super.record) && OldSlot(d, e, i)
    ensures Survives(d, v, e, i)
  {
    SoundBounds(d, v);
    assert d[v.super.slot] == d[i];
  }

  /** Mounting `e` yields the old volume or the new one. */
  predicate OldOrNew(d: Disk, v: Vol, e: Disk)
    requires RING_SLOTS <= v.HighWater() <= v.Total() <= |d|
  {
    Mount(e).Ok? && Mount(d).Ok?
    && (SameVolume(Mount(e).value, Mount(d).value)
        || (CommitEnding(d, v).Done? && SameVolume(Mount(e).value, CommitEnding(d, v).vol)))
  }

  /** A point at which a commit can be interrupted. */
  predicate CrashPoint(v: Vol, k: nat, torn: bool) {
    k <= |CommitLog(v)| && (torn ==> k < |CommitLog(v)|)
  }

  /** Both disks mount, `e` as `d` does or as `w`. */
  predicate Either(d: Disk, e: Disk, w: Vol) {
    Mount(e).Ok? && Mount(d).Ok? && (SameVolume(Mount(e).value, Mount(d).value) || SameVolume(Mount(e).value, w))
  }

  lemma BeforeRing(d: Disk, v: Vol, p: Prepared, k: nat, torn: bool, w: Vol)
    requires Sound(d, v) && RING_SLOTS <= v.HighWater() && v.HighWater() + |p.flow.out| <= |d|
    requires k <= |p.flow.out| && (torn ==> k < |p.flow.out|)
    ensures forall x | x in PublishLog(v, p) :: x.sector < |d|
    ensures DiskOk(CrashDisk(d, PublishLog(v, p), k, torn)) && Either(d, CrashDisk(d, PublishLog(v, p), k, torn), w)
  {
    hide *;
    CrashBefore(d, v, p, k, torn);
    SoundMounts(d, v);
    SameMount(d, CrashDisk(d, PublishLog(v, p), k, torn), w);
  }

  lemma SoundMounts(d: Disk, v: Vol)
    requires Sound(d, v)
    ensures Mount(d).Ok?
  {
    hide Sound, Mount;
    SoundBounds(d, v);
  }

  lemma AtFirst(d: Disk, v: Vol, p: Prepared, w: Vol)
    requires Sound(d, v) && RING_SLOTS <= v.HighWater() && v.HighWater() + |p.flow.out| <= |d| && Backed(d, v)
    ensures forall x | x in PublishLog(v, p) :: x.sector < |d|
    ensures var e := CrashDisk(d, PublishLog(v, p), |p.flow.out|, true); DiskOk(e) && Either(d, e, w)
  {
    hide Sound, Mount, DiskOk, RingOk, Backed, Either, SameVolume, CrashDisk, PublishLog;
    CrashAtFirst(d, v, p);
    AsOld(d, CrashDisk(d, PublishLog(v, p), |p.flow.out|, true), w);
  }

  lemma AfterFirst(d: Disk, v: Vol, p: Prepared, s: Stage, j: nat, torn: bool, w: Vol)
    requires Sound(d, v) && BodyOk(d, v, p, s) && Remountable(v) && SameVolume(w, NewVolume(v, p, s, 0))
    requires RING_SLOTS <= v.HighWater() <= v.Total() <= |d|
    requires 0 < j <= RING_SLOTS && (torn ==> j < RING_SLOTS)
    ensures forall x | x in PublishLog(v, p) :: x.sector < |d|
    ensures var e := CrashDisk(d, PublishLog(v, p), |p.flow.out| + j, torn); DiskOk(e) && Either(d, e, w)
  {
    hide Sound, BodyOk, Mount, DiskOk, Remountable, Either, SameVolume, NewVolume, CrashDisk, PublishLog;
    CrashAfter(d, v, p, s, j, torn);
    SoundMounts(d, v);
    AsNew(d, CrashDisk(d, PublishLog(v, p), |p.flow.out| + j, torn), w, NewVolume(v, p, s, 0));
  }

  lemma CrashIsOldOrNew(d: Disk, v: Vol, p: Prepared, s: Stage, k: nat, torn: bool, w: Vol)
    requires Sound(d, v) && BodyOk(d, v, p, s) && Remountable(v) && RING_SLOTS <= v.HighWater() <= v.Total() <= |d|
    requires k <= |PublishLog(v, p)| && (torn ==> k < |PublishLog(v, p)|)
    requires SameVolume(w, NewVolume(v, p, s, 0))
    requires Backed(d, v) || !TearsFirst(p, k, torn)
    ensures forall x | x in PublishLog(v, p) :: x.sector < |d|
    ensures DiskOk(CrashDisk(d, PublishLog(v, p), k, torn)) && Either(d, CrashDisk(d, PublishLog(v, p), k, torn), w)
  {
    hide Sound, BodyOk, Mount, DiskOk, Remountable, Backed, Either, SameVolume, NewVolume, CrashDisk;
    hide PublishLog, Closed;
    BodyClosed(d, v, p, s);
    ClosedFits(v, p);
    var n := |p.flow.out|;
    if k < n || (k == n && !torn) {
      BeforeRing(d, v, p, k, torn, w);
    } else if k == n {
      AtFirst(d, v, p, w);
    } else {
      AfterFirst(d, v, p, s, k - n, torn, w);
    }
  }

  lemma ClosedFits(v: Vol, p: Prepared)
    requires Closed(v, p)
    ensures v.HighWater() + |p.flow.out| <= v.Total()
  {
  }

  lemma SameMount(d: Disk, e: Disk, w: Vol)
    requires Mount(e) == Mount(d) && Mount(d).Ok?
    ensures Either(d, e, w)
  {
    hide Mount;
  }

  lemma AsOld(d: Disk, e: Disk, w: Vol)
    requires Mount(e).Ok? && Mount(d).Ok? && SameVolume(Mount(e).value, Mount(d).value)
    ensures Either(d, e, w)
  {
    hide Mount;
  }

  lemma AsNew(d: Disk, e: Disk, w: Vol, x: Vol)
    requires Mount(e).Ok? && Mount(d).Ok? && SameVolume(Mount(e).value, x) && SameVolume(w, x)
    ensures Either(d, e, w)
  {
    hide Mount;
  }

  /** Crash atomicity, exactly: every interruption of a commit leaves a disk that mounts as the old
      volume or as the new one if and only if a ring slot other than the first carries the current
      superblock. Where none does, tearing the first ring write loses the current generation. */
  lemma CrashAtomicIff(d: Disk, v: Vol)
    requires Sound(d, v) && !v.Clean() && RoomFor(v) && Remountable(v)
    ensures RING_SLOTS <= v.HighWater() <= v.Total() <= |d|
    ensures forall w | w in CommitLog(v) :: w.sector < |d|
    ensures Backed(d, v) <==>
      forall k: nat, torn: bool {:trigger CrashPoint(v, k, torn)} ::
        CrashPoint(v, k, torn) ==> OldOrNew(d, v, CrashDisk(d, CommitLog(v), k, torn))
  {
    hide Sound, BodyOk, Prepare, FinalStage, RoomFor, DiskOk, Mount, CrashDisk, CommitLog, Backed;
    hide SameVolume, Remountable;
    hide PublishLog, NewVolume;
    SoundBounds(d, v);
    RoomIff(d, v);
    LogIsCommit(d, v);
    PrepareBody(d, v);
    CommitRefinesBody(d, v, Prepare(v), FinalStage(v));
    CrashAtomicBody(d, v, Prepare(v), FinalStage(v), CommitEnding(d, v).vol);
    if !Backed(d, v) {
      assert CrashPoint(v, |Prepare(v).flow.out|, true);
    }
  }

  lemma SameGeneration(a: Vol, b: Vol)
    ensures SameVolume(a, b) ==> a.checkpoint == b.checkpoint
  {
  }

  /** The generations of the old and the new volume. */
  lemma GenerationsApart(d: Disk, v: Vol, p: Prepared, s: Stage, w: Vol)
    requires Sound(d, v) && BodyOk(d, v, p, s) && SameVolume(w, NewVolume(v, p, s, 0))
    ensures Mount(d).Ok? ==> Mount(d).value.checkpoint == v.checkpoint
    ensures w.checkpoint.record.generation == v.checkpoint.record.generation + 1
  {
    hide DiskOk, NewView;
    SoundBounds(d, v);
    BodyClosed(d, v, p, s);
  }

  lemma CrashAtomicBody(d: Disk, v: Vol, p: Prepared, s: Stage, w: Vol)
    requires Sound(d, v) && BodyOk(d, v, p, s) && Remountable(v) && RING_SLOTS <= v.HighWater() <= v.Total() <= |d|
    requires SameVolume(w, NewVolume(v, p, s, 0))
    ensures forall x | x in PublishLog(v, p) :: x.sector < |d|
    ensures Backed(d, v) ==>
      forall k: nat, torn: bool | k <= |PublishLog(v, p)| && (torn ==> k < |PublishLog(v, p)|) ::
        Either(d, CrashDisk(d, PublishLog(v, p), k, torn), w)
    ensures !Backed(d, v) ==>
      !Either(d, CrashDisk(d, PublishLog(v, p), |p.flow.out|, true), w)
  {
    hide Sound, BodyOk, Mount, DiskOk, CrashDisk, PublishLog, Backed, Remountable, NewVolume, SameVolume;
    BodyClosed(d, v, p, s);
    LogInRange(d, v, p);
    if Backed(d, v) {
      forall k: nat, torn: bool | k <= |PublishLog(v, p)| && (torn ==> k < |PublishLog(v, p)|)
        ensures Either(d, CrashDisk(d, PublishLog(v, p), k, torn), w)
      {
        CrashIsOldOrNew(d, v, p, s, k, torn, w);
      }
    } else {
      CrashAtFirst(d, v, p);
      GenerationsApart(d, v, p, s, w);
      var e := CrashDisk(d, PublishLog(v, p), |p.flow.out|, true);
      if Mount(e).Ok? && Mount(d).Ok? {
        SameGeneration(Mount(e).value, Mount(d).value);
        SameGeneration(Mount(e).value, w);
      }
    }
  }
}
