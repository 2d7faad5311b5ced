/** The allocation bitmap of a commit: how many sectors it takes, and what it says. */
module BitmapProofs {
  import opened ArcTypes
  import opened Writer
  import opened Soundness
  import opened CommitProofs
  import opened Commit
  import opened Space

  /** `count` bitmap sectors describe every sector below the cursor, the bitmap and the checkpoint. */
  predicate Describes(cursor: nat, count: nat) {
    cursor + count + 1 <= BITMAP_SPAN * count
  }

  /** The retry loop never skips a count that would do. */
  lemma {:induction false} RetryFindsLeast(cursor: nat, count: nat)
    requires count <= BitmapNeeded(cursor, count)
    requires forall b: nat | b < count :: !Describes(cursor, b)
    ensures var n := BitmapCount(cursor, count);
      Describes(cursor, n) && forall b: nat | b < n :: !Describes(cursor, b)
    decreases cursor + 2 - count
  {
    var needed := BitmapNeeded(cursor, count);
    if needed != count {
      forall b: nat | b < needed
        ensures !Describes(cursor, b)
      {
        if b >= count {
          assert BITMAP_SPAN * b < cursor + count + 1;
        }
      }
      RetryFindsLeast(cursor, needed);
    }
  }

  /** The loop started at one ends at the least number of sectors that describe everything. */
  lemma BitmapIsLeast(cursor: nat)
    ensures var n := BitmapCount(cursor, 1);
      Describes(cursor, n) && forall b: nat | b < n :: !Describes(cursor, b)
  {
    RetryFindsLeast(cursor, 1);
  }

  /** What the bitmap on `d` says about sector `s`. */
  predicate Marked(d: Disk, bitmapSector: nat, s: nat) {
    var at := bitmapSector + s / BITMAP_SPAN;
    at < |d| && d[at].Bitmap? && s % BITMAP_SPAN < |d[at].marks| && d[at].marks[s % BITMAP_SPAN]
  }

  lemma MarksAre(d: Disk, at: nat, highWater: nat, total: nat, count: nat, s: nat)
    requires at + count <= |d| && d[at..at + count] == BitmapSectors(highWater, total, count)
    requires highWater <= total && s < BITMAP_SPAN * count
    ensures Marked(d, at, s) <==> s < highWater
  {
    var i, j := s / BITMAP_SPAN, s % BITMAP_SPAN;
    assert BITMAP_SPAN * i + j == s && i < count;
    assert d[at + i] == d[at..at + count][i] == BitmapSector(highWater, total, i);
  }

  /** After a commit, the bitmap of the new generation has exactly the sectors it needs, and marks a
      sector allocated exactly when it lies below the new high-water mark. */
  lemma CommitBitmap(d: Disk, v: Vol)
    requires Sound(d, v) && !v.Clean() && RoomFor(v)
    ensures RING_SLOTS <= v.HighWater() <= v.Total() <= |d|
    ensures var e, record, cursor := CommitDisk(d, v), Prepare(v).record, Prepare(v).record.bitmapSector;
      var count := BitmapCount(cursor, 1);
      record.highWater == cursor + count + 1 <= BITMAP_SPAN * count
      && forall s: nat | s < BITMAP_SPAN * count :: Marked(e, cursor, s) <==> s < record.highWater
  {
    hide Sound, Prepare, WriteForest, FinalStage, BitmapStart;
    SoundBounds(d, v);
    RoomIff(d, v);
    PrepareShape(v);
    var p, e := Prepare(v), CommitDisk(d, v);
    var f := WriteForest(v, FinalStage(v)).snapshots.flow;
    ForestStart(v);
    BitmapIsLeast(f.Cursor());
    PublishedBitmap(d, v, p, f, BitmapCount(f.Cursor(), 1));
  }

  lemma ForestStart(v: Vol)
    ensures WriteForest(v, FinalStage(v)).snapshots.flow.start == v.HighWater()
  {
    hide FinalStage, WriteTree;
  }

  lemma PublishedBitmap(d: Disk, v: Vol, p: Prepared, f: Flow, count: nat)
    requires RING_SLOTS <= v.HighWater() <= v.Total() <= |d| && !p.flow.Failed()
    requires p.flow.start == f.start == v.HighWater() && p.record.highWater == p.flow.Cursor() <= v.Total()
    requires p.flow.out == f.out + BitmapSectors(p.record.highWater, v.Total(), count) + [Check(p.record)]
    ensures forall s: nat | s < BITMAP_SPAN * count ::
        Marked(Publish(d, v, p), f.Cursor(), s) <==> s < p.record.highWater
    ensures p.record.highWater == f.Cursor() + count + 1
  {
    var e := Publish(d, v, p);
    assert e[f.Cursor()..f.Cursor() + count] == BitmapSectors(p.record.highWater, v.Total(), count);
    forall s: nat | s < BITMAP_SPAN * count
      ensures Marked(e, f.Cursor(), s) <==> s < p.record.highWater
    {
      MarksAre(e, f.Cursor(), p.record.highWater, v.Total(), count, s);
    }
  }
}
