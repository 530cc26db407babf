/** Safety of the recorder: the storage invariant holds in every reachable state, whatever the
    writer and the file system do. */
module RecorderSafety {
  import opened Bytes
  import opened HistoryRing
  import opened ReplayLog
  import opened Recorder

  /** The files of segment `s` in `q` are those it had in `r`. */
  predicate Kept(r: State, q: State, s: nat) {
    && s in r.logs && s in q.logs && q.logs[s] == r.logs[s]
    && s in r.blobs && s in q.blobs && q.blobs[s] == r.blobs[s]
  }

  /** `Sound` without what depends on the recording being open. */
  predicate Shelved(c: Config, r: State) {
    && Housed(r, r.ring.segment)
    && r.ring.oldest <= r.ring.segment + 1
    && r.ring.bytes <= c.limit
    && r.ring.current <= STATE_LIMIT
  }

  predicate Stopped(r: State) {
    !r.recording && !r.pending
  }

  lemma TrimsKeeps(r: State, q: State, newest: nat)
    requires Housed(r, newest) && Housed(q, newest) && Trims(r, q)
    ensures forall s :: s in q.logs ==> Kept(r, q, s)
  {
    forall s | s in q.logs
      ensures Kept(r, q, s)
    {
      assert s in r.logs && s in q.blobs;
    }
  }

  lemma AdvanceHoused(r: State)
    requires Housed(r, r.ring.segment)
    ensures Booked(NextSegment(r)) && Housed(NextSegment(r), r.ring.segment)
  {
  }

  /** Opening the files of a segment that room was made for. */
  lemma OpenedActive(r: State, frame: nat, env: Env)
    requires 0 < r.ring.segment && Housed(r, r.ring.segment - 1) && env.beginOk
    requires r.ring.oldest <= r.ring.segment < r.ring.oldest + SEGMENTS
    ensures var s := r.ring.segment;
            var q := OpenFiles(r, frame, env);
            Housed(q, s) && Active(q) && (forall t :: t in q.logs && t != s ==> Kept(r, q, t))
  {
    FreshSlotIsEmpty(r.ring);
  }

  /** A segment was opened, or starting one failed and only old files were dropped. */
  predicate StartedAs(c: Config, r: State, q: State) {
    && Shelved(c, q) && !q.pending && r.ring.segment <= q.ring.segment
    && (q.enabled, q.loads, q.recordedLoads) == (r.enabled, r.loads, r.recordedLoads)
    && (q.failed ==> Stopped(q) && forall s :: s in q.logs ==> Kept(r, q, s))
    && (!q.failed ==>
          && q.recording && q.rows == 0 && Active(q) && q.ring.current == 0
          && q.ring.segment == r.ring.segment + 1
          && q.logs[q.ring.segment] == [] && BlobOf(q, q.ring.segment) == []
          && forall s :: s in q.logs && s != q.ring.segment ==> Kept(r, q, s))
  }

  /** The close of the last segment failed, or the set-up was refused: nothing is touched. */
  lemma CloseRefused(c: Config, r: State, closeOk: bool)
    requires Shelved(c, r)
    ensures Close(r, closeOk).failed ==> StartedAs(c, r, Close(r, closeOk))
    ensures StartedAs(c, r, Fail(Close(r, closeOk)))
  {
    assert forall s :: s in r.logs ==> s in r.blobs && Kept(r, Close(r, closeOk), s);
  }

  /** The set-up went well: room is made in the window, and the files are opened. */
  lemma SetUpSound(c: Config, r: State, frame: nat, env: Env, next: State)
    requires Shelved(c, r) && !Close(r, env.closeOk).failed
    requires next == Close(r, env.closeOk).(ring := r.ring.(segment := r.ring.segment + 1))
    ensures Booked(next)
    ensures var roomy := EvictForWindow(next, env.stuck);
            StartedAs(c, r, if roomy.failed then roomy else OpenFiles(roomy, frame, env))
  {
    AdvanceHoused(Close(r, env.closeOk));
    WindowTrims(next, env.stuck, r.ring.segment);
    var roomy := EvictForWindow(next, env.stuck);
    TrimsKeeps(next, roomy, r.ring.segment);
    if roomy.failed {
      RoomyRefused(c, r, next, roomy);
    } else {
      RoomySound(c, r, next, roomy, frame, env);
    }
  }

  lemma StartSound(c: Config, r: State, frame: nat, env: Env)
    requires Shelved(c, r)
    ensures StartedAs(c, r, StartSegment(r, frame, env))
  {
    CloseRefused(c, r, env.closeOk);
    var closed := Close(r, env.closeOk);
    if !closed.failed && env.setupOk {
      SetUpSound(c, r, frame, env, NextSegment(closed));
    }
  }

  /** Making room failed: the recording is closed, and only old files are gone. */
  lemma RoomyRefused(c: Config, r: State, next: State, roomy: State)
    requires Shelved(c, r) && Trims(next, roomy) && roomy.failed
    requires next == r.(recording := false, pending := false, rows := 0, ring := r.ring.(segment := r.ring.segment + 1))
    requires Housed(roomy, r.ring.segment) && roomy.ring.oldest <= roomy.ring.segment
    requires forall s :: s in roomy.logs ==> Kept(next, roomy, s)
    ensures StartedAs(c, r, roomy)
  {
    assert forall s :: s in roomy.logs ==> Kept(r, roomy, s);
  }

  lemma RoomySound(c: Config, r: State, next: State, roomy: State, frame: nat, env: Env)
    requires Shelved(c, r) && Trims(next, roomy) && !roomy.failed && !next.failed && Stopped(next)
    requires next == Close(r, env.closeOk).(ring := r.ring.(segment := r.ring.segment + 1))
    requires Housed(roomy, r.ring.segment) && roomy.ring.oldest <= roomy.ring.segment < roomy.ring.oldest + SEGMENTS
    requires forall s :: s in roomy.logs ==> Kept(next, roomy, s)
    ensures StartedAs(c, r, OpenFiles(roomy, frame, env))
  {
    assert forall s :: s in roomy.logs ==> Kept(r, roomy, s);
    assert Housed(roomy, roomy.ring.segment);
    if env.beginOk {
      OpenedActive(roomy, frame, env);
    }
  }

  /** Charging the current segment for the bytes that its file grows by. */
  lemma ChargeHoused(r: State, snapshot: seq<Byte>)
    requires Housed(r, r.ring.segment) && Active(r)
    ensures Housed(StoreSnapshot(r, snapshot), r.ring.segment) && Active(StoreSnapshot(r, snapshot))
  {
    var s, q := r.ring.segment, StoreSnapshot(r, snapshot);
    ChargedLive(r.ring, |snapshot|);
    forall t | t in q.blobs
      ensures q.ring.oldest <= t <= s && t < q.ring.oldest + SEGMENTS
      ensures |q.blobs[t]| == q.ring.sizes[Slot(t)]
    {
      assert t == s || t in r.blobs;
      if t != s && Slot(t) == Slot(s) {
        SlotsDistinct(t, s);
      }
    }
  }

  /** A checkpoint was appended to the open segment, or the recording ended. */
  predicate SnapshotAs(c: Config, r: State, snapshot: seq<Byte>, q: State) {
    var s := r.ring.segment;
    && Shelved(c, q) && q.ring.segment == s && !q.pending
    && (q.enabled, q.loads, q.recordedLoads) == (r.enabled, r.loads, r.recordedLoads)
    && (q.failed ==> Stopped(q) && forall t :: t in q.logs ==> Kept(r, q, t))
    && (!q.failed ==>
          && q.recording && q.rows == r.rows && Active(q) && SnapshotFits(r, |snapshot|)
          && q.ring.current == r.ring.current + |snapshot|
          && q.logs[s] == LogOf(r, s) + [CheckpointLine(|BlobOf(r, s)|, snapshot)]
          && BlobOf(q, s) == BlobOf(r, s) + snapshot
          && forall t :: t in q.logs && t != s ==> Kept(r, q, t))
  }

  /** Once old segments have been evicted, the new checkpoint is within the budget: either there
      was room, or only the current segment is left and the guard of record_begin applies. */
  lemma RoomForSnapshot(c: Config, r: State, size: nat)
    requires ConfigOk(c) && Housed(r, r.ring.segment) && Active(r) && size <= SNAPSHOT_LIMIT
    requires r.ring.current <= SegmentLimit(c) - SNAPSHOT_LIMIT
    requires r.ring.oldest == r.ring.segment || r.ring.bytes + size <= c.limit
    ensures r.ring.bytes + size <= c.limit
  {
    if r.ring.oldest == r.ring.segment {
      LoneSegmentHoldsAll(r.ring);
    }
  }

  /** Evicting and charging leave the files of all other segments alone. */
  lemma ChargedKeeps(r: State, snapshot: seq<Byte>, roomy: State)
    requires Booked(roomy) && forall t :: t in roomy.logs ==> Kept(r, roomy, t)
    ensures forall t :: t in StoreSnapshot(roomy, snapshot).logs && t != roomy.ring.segment ==>
              Kept(r, StoreSnapshot(roomy, snapshot), t)
  {
    var q := StoreSnapshot(roomy, snapshot);
    forall t | t in q.logs && t != roomy.ring.segment
      ensures Kept(r, q, t)
    {
      assert Kept(r, roomy, t);
    }
  }

  lemma RoomyShelved(c: Config, roomy: State, snapshot: seq<Byte>)
    requires ConfigOk(c) && Housed(roomy, roomy.ring.segment) && Active(roomy)
    requires SnapshotFits(roomy, |snapshot|) && roomy.ring.current <= SegmentLimit(c) - SNAPSHOT_LIMIT
    requires roomy.ring.oldest == roomy.ring.segment || roomy.ring.bytes + |snapshot| <= c.limit
    ensures Shelved(c, StoreSnapshot(roomy, snapshot)) && Active(StoreSnapshot(roomy, snapshot))
  {
    RoomForSnapshot(c, roomy, |snapshot|);
    ChargeHoused(roomy, snapshot);
  }

  lemma RoomyStored(r: State, snapshot: seq<Byte>, roomy: State)
    requires Booked(roomy) && Trims(r, roomy) && !roomy.failed && Kept(r, roomy, roomy.ring.segment)
    ensures var s, q := r.ring.segment, StoreSnapshot(roomy, snapshot);
            && q.logs[s] == LogOf(r, s) + [CheckpointLine(|BlobOf(r, s)|, snapshot)]
            && BlobOf(q, s) == BlobOf(r, s) + snapshot
            && q.ring.segment == s && q.ring.current == r.ring.current + |snapshot|
            && q == r.(ring := q.ring, logs := q.logs, blobs := q.blobs)
  {
  }

  /** Charging a checkpoint for which room was made. */
  lemma RoomyCharged(c: Config, r: State, snapshot: seq<Byte>, roomy: State)
    requires ConfigOk(c) && Shelved(c, r) && Active(r) && r.recording && !r.failed && !r.pending
    requires r.ring.current <= SegmentLimit(c) - SNAPSHOT_LIMIT && SnapshotFits(r, |snapshot|)
    requires Trims(r, roomy) && !roomy.failed && Housed(roomy, roomy.ring.segment) && Active(roomy)
    requires roomy.ring.oldest == roomy.ring.segment || roomy.ring.bytes + |snapshot| <= c.limit
    ensures SnapshotAs(c, r, snapshot, StoreSnapshot(roomy, snapshot))
  {
    TrimsKeeps(r, roomy, roomy.ring.segment);
    RoomyShelved(c, roomy, snapshot);
    ChargedKeeps(r, snapshot, roomy);
    RoomyStored(r, snapshot, roomy);
  }

  /** A checkpoint that could not be stored ends the recording; only old files may be gone. */
  lemma SnapshotRefused(c: Config, r: State, snapshot: seq<Byte>, roomy: State)
    requires Shelved(c, r) && Trims(r, roomy) && Housed(roomy, roomy.ring.segment)
    requires roomy.ring.oldest <= roomy.ring.segment
    ensures SnapshotAs(c, r, snapshot, Fail(roomy))
  {
    TrimsKeeps(r, roomy, r.ring.segment);
  }

  /** write_snapshot never breaks the budget once the guard of record_begin has been passed. */
  lemma SnapshotSound(c: Config, r: State, snapshot: seq<Byte>, env: Env)
    requires ConfigOk(c) && Shelved(c, r) && Active(r) && r.recording && !r.failed && !r.pending
    requires r.ring.current <= SegmentLimit(c) - SNAPSHOT_LIMIT
    ensures SnapshotAs(c, r, snapshot, WriteSnapshot(c, r, snapshot, env))
  {
    var size := |snapshot|;
    if !env.saveOk || !SnapshotFits(r, size) {
      SnapshotRefused(c, r, snapshot, r);
    } else {
      BytesTrims(r, size, c.limit, env.stuck);
      var roomy := EvictForBytes(r, size, c.limit, env.stuck);
      SnapshotRefused(c, r, snapshot, roomy);
      if roomy.failed {
        assert roomy == Fail(roomy);
      } else {
        RoomyCharged(c, r, snapshot, roomy);
      }
    }
  }

  /** What the segment being written held before this call. */
  function BaseLog(c: Config, r: State, b: Boundary, env: Env): seq<Line> {
    if NeedsSegment(c, r, b.frame, env) then [] else LogOf(r, r.ring.segment)
  }

  function BaseBlob(c: Config, r: State, b: Boundary, env: Env): seq<Byte> {
    if NeedsSegment(c, r, b.frame, env) then [] else BlobOf(r, r.ring.segment)
  }

  function BaseSegment(c: Config, r: State, b: Boundary, env: Env): nat {
    if NeedsSegment(c, r, b.frame, env) then r.ring.segment + 1 else r.ring.segment
  }

  /** The call recorded an input: at most one checkpoint and then the input record were appended to
      one segment, a checkpoint whenever the segment is new or the run is discontinuous. */
  predicate RecordsInput(c: Config, r: State, b: Boundary, env: Env, q: State)
    requires Booked(r)
  {
    var s := q.ring.segment;
    var taken := NeedsCheckpoint(c, r, b.frame, env);
    var blob := BaseBlob(c, r, b, env);
    && q.recording && q.pending && !q.failed
    && s == BaseSegment(c, r, b, env)
    && (!taken ==> !NeedsSegment(c, r, b.frame, env) && !Discontinuous(r, b.frame, env))
    && (taken ==> 0 < |b.snapshot| <= SNAPSHOT_LIMIT && |blob| + |b.snapshot| <= STATE_LIMIT)
    && s in q.logs && s in q.blobs
    && q.logs[s] == BaseLog(c, r, b, env)
                    + (if taken then [CheckpointLine(|blob|, b.snapshot)] else []) + [InputLine(b)]
    && q.blobs[s] == blob + (if taken then b.snapshot else [])
    && forall t :: t in q.logs && t != s ==> Kept(r, q, t)
  }

  /** The files of the segment that a failed call had started to write. */
  predicate Dangling(c: Config, r: State, b: Boundary, env: Env, q: State) {
    var s := q.ring.segment;
    var log := BaseLog(c, r, b, env);
    && s == BaseSegment(c, r, b, env)
    && s in q.logs && s in q.blobs
    && BaseBlob(c, r, b, env) <= q.blobs[s]
    && (|| q.logs[s] == log
        || (&& q.logs[s] == log + [CheckpointLine(|BaseBlob(c, r, b, env)|, b.snapshot)]
            && 0 < |b.snapshot| <= SNAPSHOT_LIMIT && |BaseBlob(c, r, b, env)| + |b.snapshot| <= STATE_LIMIT))
  }

  /** The call left no recording open. */
  predicate LeavesClosed(c: Config, r: State, b: Boundary, env: Env, q: State) {
    && Stopped(q)
    && forall t :: t in q.logs ==> Kept(r, q, t) || (t == q.ring.segment && Dangling(c, r, b, env, q))
  }

  /** The segment is open and, as far as the records before the input go, up to date. */
  predicate Ready(c: Config, r: State, b: Boundary, env: Env, q: State, log: seq<Line>, blob: seq<Byte>) {
    && Shelved(c, q) && q.recording && !q.failed && !q.pending && Active(q)
    && (q.enabled, q.loads, q.recordedLoads) == (r.enabled, r.loads, r.recordedLoads)
    && q.ring.segment == BaseSegment(c, r, b, env)
    && LogOf(q, q.ring.segment) == log && BlobOf(q, q.ring.segment) == blob
    && forall t :: t in q.logs && t != q.ring.segment ==> Kept(r, q, t)
  }

  lemma OpenedSound(c: Config, r: State, b: Boundary, env: Env)
    requires ConfigOk(c) && Sound(c, r) && !r.pending && !r.failed
    ensures var o := Opened(c, r, b.frame, env);
            if o.failed then Shelved(c, o) && Stopped(o) && r.ring.segment <= o.ring.segment && forall t :: t in o.logs ==> Kept(r, o, t)
            else
              && Ready(c, r, b, env, o, BaseLog(c, r, b, env), BaseBlob(c, r, b, env))
              && (o.rows == 0 <==> NeedsSegment(c, r, b.frame, env))
              && (NeedsCheckpoint(c, r, b.frame, env) ==> o.ring.current <= SegmentLimit(c) - SNAPSHOT_LIMIT)
              && o.ring.current == |BaseBlob(c, r, b, env)|
  {
    assert forall t :: t in r.logs ==> t in r.blobs && Kept(r, r, t);
    if NeedsSegment(c, r, b.frame, env) {
      StartSound(c, r, b.frame, env);
    }
  }

  /** The input record was written onto a segment that was ready for it, or the writer failed. */
  predicate InputAs(c: Config, r: State, b: Boundary, s: nat, log: seq<Line>, blob: seq<Byte>, q: State) {
    && Sound(c, q)
    && q.ring.segment == s && s in q.logs && s in q.blobs
    && (forall t :: t in q.logs && t != s ==> Kept(r, q, t))
    && q.blobs[s] == blob
    && if q.failed then Stopped(q) && q.logs[s] == log
       else q.recording && q.pending && q.logs[s] == log + [InputLine(b)]
  }

  lemma InputSound(c: Config, r: State, b: Boundary, env: Env, k: State, log: seq<Line>, blob: seq<Byte>)
    requires Ready(c, r, b, env, k, log, blob) && (k.enabled || c.autoRecord)
    ensures InputAs(c, r, b, BaseSegment(c, r, b, env), log, blob, WriteInput(k, b, env))
  {
    assert k.ring.segment in k.blobs;
  }

  lemma CheckpointReady(c: Config, r: State, b: Boundary, env: Env, o: State, k: State)
    requires Ready(c, r, b, env, o, BaseLog(c, r, b, env), BaseBlob(c, r, b, env))
    requires SnapshotAs(c, o, b.snapshot, k)
    ensures k.failed ==> Sound(c, k) && LeavesClosed(c, r, b, env, k)
    ensures !k.failed ==>
              var blob := BaseBlob(c, r, b, env);
              Ready(c, r, b, env, k, BaseLog(c, r, b, env) + [CheckpointLine(|blob|, b.snapshot)], blob + b.snapshot)
  {
    var s := o.ring.segment;
    forall t | t in k.logs && t != s
      ensures Kept(r, k, t)
    {
      assert Kept(o, k, t) && Kept(r, o, t);
    }
    if k.failed && s in k.logs {
      assert Kept(o, k, s);
      assert Dangling(c, r, b, env, k);
    }
  }

  lemma CheckpointRecorded(c: Config, r: State, b: Boundary, env: Env, q: State)
    requires Booked(r) && NeedsCheckpoint(c, r, b.frame, env)
    requires 0 < |b.snapshot| <= SNAPSHOT_LIMIT && |BaseBlob(c, r, b, env)| + |b.snapshot| <= STATE_LIMIT
    requires var blob := BaseBlob(c, r, b, env);
             InputAs(c, r, b, BaseSegment(c, r, b, env),
                     BaseLog(c, r, b, env) + [CheckpointLine(|blob|, b.snapshot)], blob + b.snapshot, q)
    ensures RecordsInput(c, r, b, env, q) || LeavesClosed(c, r, b, env, q)
  {
    if q.failed {
      assert Dangling(c, r, b, env, q);
    }
  }

  lemma BareInputRecorded(c: Config, r: State, b: Boundary, env: Env, q: State)
    requires Booked(r) && !NeedsCheckpoint(c, r, b.frame, env) && !NeedsSegment(c, r, b.frame, env)
    requires InputAs(c, r, b, BaseSegment(c, r, b, env), BaseLog(c, r, b, env), BaseBlob(c, r, b, env), q)
    ensures RecordsInput(c, r, b, env, q) || LeavesClosed(c, r, b, env, q)
  {
    var log, blob := BaseLog(c, r, b, env), BaseBlob(c, r, b, env);
    assert log + [] == log && blob + [] == blob;
    if q.failed {
      assert Dangling(c, r, b, env, q);
    }
  }

  /** What Begin does once the early exits are passed: the segment, then the checkpoint, then the
      input record, each only if what came before it succeeded. */
  lemma BeginParts(c: Config, r: State, b: Boundary, env: Env, o: State, k: State)
    requires Booked(r) && !r.failed && (r.enabled || c.autoRecord) && !env.writerError && !env.speculative
    requires o == Opened(c, r, b.frame, env)
    requires k == if NeedsCheckpoint(c, r, b.frame, env) then WriteSnapshot(c, o, b.snapshot, env) else o
    ensures Begin(c, r, b, env) == if o.failed then o else if k.failed then k else WriteInput(k, b, env)
  {
  }

  /** What every call of Begin comes to. */
  predicate BegunAs(c: Config, r: State, b: Boundary, env: Env, q: State)
    requires Booked(r)
  {
    && Sound(c, q) && r.ring.segment <= q.ring.segment
    && (RecordsInput(c, r, b, env, q) || LeavesClosed(c, r, b, env, q))
  }

  lemma BeginCheckpointed(c: Config, r: State, b: Boundary, env: Env, o: State, k: State)
    requires ConfigOk(c) && Booked(r) && (o.enabled || c.autoRecord) && NeedsCheckpoint(c, r, b.frame, env)
    requires Ready(c, r, b, env, o, BaseLog(c, r, b, env), BaseBlob(c, r, b, env))
    requires o.ring.current <= SegmentLimit(c) - SNAPSHOT_LIMIT && o.ring.current == |BaseBlob(c, r, b, env)|
    requires k == WriteSnapshot(c, o, b.snapshot, env)
    ensures BegunAs(c, r, b, env, if k.failed then k else WriteInput(k, b, env))
  {
    var log, blob := BaseLog(c, r, b, env), BaseBlob(c, r, b, env);
    SnapshotSound(c, o, b.snapshot, env);
    CheckpointReady(c, r, b, env, o, k);
    if !k.failed {
      InputSound(c, r, b, env, k, log + [CheckpointLine(|blob|, b.snapshot)], blob + b.snapshot);
      CheckpointRecorded(c, r, b, env, WriteInput(k, b, env));
    }
  }

  /** Every call of record_begin keeps the storage invariant, and it either records an input after
      its checkpoint or leaves no recording open. */
  lemma BeginSound(c: Config, r: State, b: Boundary, env: Env)
    requires ConfigOk(c) && Sound(c, r) && !r.pending
    ensures var q := Begin(c, r, b, env);
            && Sound(c, q) && r.ring.segment <= q.ring.segment
            && (RecordsInput(c, r, b, env, q) || LeavesClosed(c, r, b, env, q))
  {
    if r.failed || (!r.enabled && !c.autoRecord) || env.writerError || env.speculative {
      assert forall t :: t in r.logs ==> t in r.blobs && Kept(r, r, t);
    } else {
      var o := Opened(c, r, b.frame, env);
      var k := if NeedsCheckpoint(c, r, b.frame, env) then WriteSnapshot(c, o, b.snapshot, env) else o;
      BeginParts(c, r, b, env, o, k);
      OpenedSound(c, r, b, env);
      if !o.failed && NeedsCheckpoint(c, r, b.frame, env) {
        BeginCheckpointed(c, r, b, env, o, k);
      } else if !o.failed {
        InputSound(c, r, b, env, o, BaseLog(c, r, b, env), BaseBlob(c, r, b, env));
        BareInputRecorded(c, r, b, env, WriteInput(o, b, env));
      }
    }
  }

  // ----- why Begin and End must alternate

  function Zeros(n: nat): (bytes: seq<Byte>)
    ensures |bytes| == n
  {
    seq(n, _ => 0)
  }

  /** Nothing fails, nothing is stuck. */
  function Quiet(): Env {
    Env(0, false, false, true, true, map[], true, true, true, true)
  }

  function FrameAt(frame: nat): Boundary {
    Boundary(frame, 0, Settings(false, false, false, false, 256), Zeros(SNAPSHOT_LIMIT))
  }

  lemma FirstBegin(c: Config)
    requires c == Config(SNAPSHOT_LIMIT, true)
    ensures var r := Begin(c, Initial(true), FrameAt(0), Quiet());
            && r.recording && r.pending && !r.failed && r.enabled && r.rows == 0 && r.nextFrame == 1
            && r.generation == 0 && r.loads == r.recordedLoads
            && r.ring.oldest == r.ring.segment == 1
            && r.ring.current == r.ring.bytes == SNAPSHOT_LIMIT
  {
    var first := StartSegment(Initial(true), 0, Quiet());
    assert EvictForWindow(NextSegment(Initial(true)), map[]) == NextSegment(Initial(true));
    assert EvictForBytes(first, SNAPSHOT_LIMIT, c.limit, map[]) == first;
  }

  /** If the host calls Begin again without End, the guard of record_begin is skipped: it looks at
      the byte count only on a discontinuity, but a segment without rows is checkpointed anyway.
      With the smallest limit, a second checkpoint of the largest size doubles it. */
  lemma MissedEndOverruns(c: Config)
    requires c == Config(SNAPSHOT_LIMIT, true)
    ensures ConfigOk(c) && Sound(c, Begin(c, Initial(true), FrameAt(0), Quiet()))
    ensures Begin(c, Begin(c, Initial(true), FrameAt(0), Quiet()), FrameAt(1), Quiet()).ring.bytes == 2 * c.limit
  {
    InitialSound(c, true);
    BeginSound(c, Initial(true), FrameAt(0), Quiet());
    FirstBegin(c);
    var r := Begin(c, Initial(true), FrameAt(0), Quiet());
    assert Opened(c, r, 1, Quiet()) == r;
    assert EvictForBytes(r, SNAPSHOT_LIMIT, c.limit, map[]) == r;
    var k := WriteSnapshot(c, r, Zeros(SNAPSHOT_LIMIT), Quiet());
    assert k.ring.bytes == 2 * SNAPSHOT_LIMIT && !k.failed;
  }

  lemma EndSound(c: Config, r: State, line: Line, frameOk: bool)
    requires Sound(c, r)
    ensures var q := End(r, line, frameOk);
            && Sound(c, q) && !q.pending
            && (forall t :: t in q.logs && t != r.ring.segment ==> Kept(r, q, t))
            && q.blobs == r.blobs && q.ring == r.ring
            && (r.pending && frameOk ==>
                  q.recording && !q.failed && q.logs == r.logs[r.ring.segment := LogOf(r, r.ring.segment) + [line]])
            && (!(r.pending && frameOk) ==> q.logs == r.logs && q.recording == (r.recording && !r.pending))
  {
    assert forall t :: t in r.logs ==> t in r.blobs;
  }

  /** Close, Enable and StateLoaded touch no file and no book, and close what they close. A reported
      load makes the next frame a discontinuity, whatever its number and generation. */
  lemma OthersSound(c: Config, r: State, on: bool, closeOk: bool)
    requires Sound(c, r)
    ensures Sound(c, Close(r, closeOk)) && Stopped(Close(r, closeOk))
    ensures Sound(c, Enable(r, on, closeOk)) && (!on ==> Stopped(Enable(r, on, closeOk)))
    ensures Sound(c, StateLoaded(r))
    ensures r.recordedLoads <= r.loads ==> forall frame, env :: Discontinuous(StateLoaded(r), frame, env)
  {
  }

  // ----- what the budget means on disk

  function SlotBytes(sizes: seq<nat>, lo: nat, hi: nat): nat
    requires |sizes| == SEGMENTS
    decreases hi - lo
  {
    if lo >= hi then 0 else sizes[Slot(lo)] + SlotBytes(sizes, lo + 1, hi)
  }

  /** The checkpoint bytes held by the files of segments lo .. hi-1. */
  function DiskBytes(blobs: map<nat, seq<Byte>>, lo: nat, hi: nat): nat
    decreases hi - lo
  {
    if lo >= hi then 0 else (if lo in blobs then |blobs[lo]| else 0) + DiskBytes(blobs, lo + 1, hi)
  }

  lemma {:induction false} SlotBytesClear(sizes: seq<nat>, k: nat, lo: nat, hi: nat)
    requires |sizes| == SEGMENTS && k < lo && hi <= k + SEGMENTS
    ensures SlotBytes(sizes[Slot(k) := 0], lo, hi) == SlotBytes(sizes, lo, hi)
    decreases hi - lo
  {
    if lo < hi {
      if Slot(k) == Slot(lo) {
        SlotsDistinct(k, lo);
      }
      SlotBytesClear(sizes, k, lo + 1, hi);
    }
  }

  lemma {:induction false} WindowWithinSum(sizes: seq<nat>, lo: nat, hi: nat)
    requires |sizes| == SEGMENTS && hi <= lo + SEGMENTS
    ensures SlotBytes(sizes, lo, hi) <= Sum(sizes)
    decreases hi - lo
  {
    if lo < hi {
      var k := Slot(lo);
      SumUpdate(sizes, k, 0);
      SlotBytesClear(sizes, lo, lo + 1, hi);
      WindowWithinSum(sizes[k := 0], lo + 1, hi);
    }
  }

  lemma {:induction false} DiskWithinSlots(r: State, lo: nat, hi: nat)
    requires Housed(r, r.ring.segment)
    ensures DiskBytes(r.blobs, lo, hi) <= SlotBytes(r.ring.sizes, lo, hi)
    decreases hi - lo
  {
    if lo < hi {
      DiskWithinSlots(r, lo + 1, hi);
    }
  }

  /** The promise of bounded storage: in every sound state all checkpoint files together hold at
      most history_limit() bytes, and no file lies outside the ring window. */
  lemma DiskWithinLimit(c: Config, r: State)
    requires Sound(c, r)
    ensures DiskBytes(r.blobs, r.ring.oldest, r.ring.segment + 1) <= r.ring.bytes <= c.limit
    ensures forall s :: s in r.blobs ==> r.ring.oldest <= s < r.ring.oldest + SEGMENTS && s <= r.ring.segment
  {
    var o := r.ring.oldest;
    var top := if r.ring.segment + 1 <= o + SEGMENTS then r.ring.segment + 1 else o + SEGMENTS;
    WindowWithinSum(r.ring.sizes, o, top);
    DiskWithinSlots(r, o, top);
    if top < r.ring.segment + 1 {
      DiskBeyondWindow(r, o, top, r.ring.segment + 1);
    }
  }

  lemma {:induction false} DiskBeyondWindow(r: State, lo: nat, top: nat, hi: nat)
    requires Housed(r, r.ring.segment) && lo <= top <= hi
    requires forall s :: top <= s < hi ==> s !in r.blobs
    ensures DiskBytes(r.blobs, lo, hi) == DiskBytes(r.blobs, lo, top)
    decreases hi - lo
  {
    if lo < hi {
      DiskBeyondWindow(r, lo + 1, if lo < top then top else lo + 1, hi);
    }
  }
}
