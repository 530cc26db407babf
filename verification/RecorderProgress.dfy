/** What the recorder achieves, beside what it never does: exactly when a frame is recorded, that
    nothing is evicted without need, and how long segments and sessions get. */
module RecorderProgress {
  import opened Bytes
  import opened HistoryRing
  import opened ReplayLog
  import opened Recorder
  import opened RecorderSafety
  import Machine

  // ----- when a frame is recorded

  /** None of the segments that are still on the books resists removal. */
  predicate Unstuck(r: State, env: Env) {
    forall s :: s in env.stuck && r.ring.oldest <= s <= r.ring.segment ==> env.stuck[s] >= 5
  }

  predicate CanStart(r: State, env: Env) {
    && (r.recording ==> env.closeOk) && env.setupOk && env.beginOk
  }

  predicate CanCheckpoint(b: Boundary, env: Env) {
    && env.saveOk && env.snapshotOk && 0 < |b.snapshot| <= SNAPSHOT_LIMIT
  }

  /** Recording is wanted and possible, and whatever this frame needs first succeeds. */
  predicate CanRecord(c: Config, r: State, b: Boundary, env: Env) {
    && !r.failed && (r.enabled || c.autoRecord) && !env.writerError && !env.speculative
    && (NeedsSegment(c, r, b.frame, env) ==> CanStart(r, env))
    && (NeedsSegment(c, r, b.frame, env) || Discontinuous(r, b.frame, env) ==> CanCheckpoint(b, env))
    && env.lineOk
  }

  lemma {:induction false} WindowEvicts(r: State, env: Env)
    requires Booked(r) && !r.failed && Unstuck(r, env)
    ensures !EvictForWindow(r, env.stuck).failed
    ensures Unstuck(EvictForWindow(r, env.stuck), env)
    decreases r.ring.segment - r.ring.oldest
  {
    if r.ring.segment - r.ring.oldest >= SEGMENTS {
      WindowEvicts(Evict(r, env.stuck), env);
    }
  }

  lemma {:induction false} BytesEvict(r: State, size: nat, limit: nat, env: Env)
    requires Booked(r) && !r.failed && Unstuck(r, env)
    ensures !EvictForBytes(r, size, limit, env.stuck).failed
    decreases r.ring.segment - r.ring.oldest
  {
    if r.ring.oldest < r.ring.segment && r.ring.bytes + size > limit {
      BytesEvict(Evict(r, env.stuck), size, limit, env);
    }
  }

  lemma StartsIffPossible(r: State, frame: nat, env: Env)
    requires Booked(r) && !r.failed && Unstuck(r, env)
    requires r.ring.segment + 1 in env.stuck ==> env.stuck[r.ring.segment + 1] >= 5
    ensures var q := StartSegment(r, frame, env);
            && (!q.failed <==> CanStart(r, env))
            && (!q.failed ==> Unstuck(q, env))
  {
    var closed := Close(r, env.closeOk);
    if !closed.failed && env.setupOk {
      WindowEvicts(NextSegment(closed), env);
    }
  }

  /** The guard on a segment's bytes never refuses a checkpoint of legal size. */
  lemma SnapshotIffPossible(c: Config, r: State, b: Boundary, env: Env)
    requires ConfigOk(c) && Booked(r) && !r.failed && Unstuck(r, env)
    requires r.ring.current <= SegmentLimit(c) - SNAPSHOT_LIMIT
    ensures !WriteSnapshot(c, r, b.snapshot, env).failed <==> CanCheckpoint(b, env)
  {
    if env.saveOk && SnapshotFits(r, |b.snapshot|) {
      BytesEvict(r, |b.snapshot|, c.limit, env);
    }
  }

  lemma OpensIffPossible(c: Config, r: State, b: Boundary, env: Env, o: State)
    requires ConfigOk(c) && Sound(c, r) && !r.pending && !r.failed && Unstuck(r, env)
    requires r.ring.segment + 1 in env.stuck ==> env.stuck[r.ring.segment + 1] >= 5
    requires o == Opened(c, r, b.frame, env)
    ensures o.failed <==> NeedsSegment(c, r, b.frame, env) && !CanStart(r, env)
    ensures !o.pending
    ensures !o.failed ==>
              && Unstuck(o, env) && Shelved(c, o) && Active(o) && o.recording
              && (NeedsCheckpoint(c, r, b.frame, env) ==> o.ring.current <= SegmentLimit(c) - SNAPSHOT_LIMIT)
              && (NeedsCheckpoint(c, r, b.frame, env) <==>
                    NeedsSegment(c, r, b.frame, env) || Discontinuous(r, b.frame, env))
  {
    OpenedSound(c, r, b, env);
    if NeedsSegment(c, r, b.frame, env) {
      StartsIffPossible(r, b.frame, env);
    }
  }

  /** A frame is recorded if and only if recording is on, the writer is well, and the segment and
      checkpoint it needs can be made. In particular no budget ever stops a recording. */
  lemma RecordsIffPossible(c: Config, r: State, b: Boundary, env: Env)
    requires ConfigOk(c) && Sound(c, r) && !r.pending && Unstuck(r, env)
    requires r.ring.segment + 1 in env.stuck ==> env.stuck[r.ring.segment + 1] >= 5
    ensures Begin(c, r, b, env).pending <==> CanRecord(c, r, b, env)
  {
    if !r.failed && (r.enabled || c.autoRecord) && !env.writerError && !env.speculative {
      var o := Opened(c, r, b.frame, env);
      var k := if NeedsCheckpoint(c, r, b.frame, env) then WriteSnapshot(c, o, b.snapshot, env) else o;
      BeginParts(c, r, b, env, o, k);
      OpensIffPossible(c, r, b, env, o);
      if !o.failed && NeedsCheckpoint(c, r, b.frame, env) {
        SnapshotIffPossible(c, o, b, env);
        SnapshotSound(c, o, b.snapshot, env);
      }
    }
  }

  // ----- when a recorder fails, and how it recovers

  /** A frame is skipped without an error: recording is off, has failed before, or is suspended while
      the machine runs ahead, and then closing went well. */
  predicate Skips(c: Config, r: State, env: Env) {
    || r.failed || (!r.enabled && !c.autoRecord)
    || (!env.writerError && env.speculative && (r.recording ==> env.closeOk))
  }

  /** Exactly these frames latch the failure: those that are neither skipped nor recorded. In
      particular a speculative frame does not, unless closing the open segment fails. */
  lemma FailsIffNeither(c: Config, r: State, b: Boundary, env: Env)
    requires ConfigOk(c) && Sound(c, r) && !r.pending && Unstuck(r, env)
    requires r.ring.segment + 1 in env.stuck ==> env.stuck[r.ring.segment + 1] >= 5
    ensures Begin(c, r, b, env).failed && !r.failed <==> !Skips(c, r, env) && !CanRecord(c, r, b, env)
    ensures r.failed ==> Begin(c, r, b, env) == r
  {
    RecordsIffPossible(c, r, b, env);
    if !r.failed && (r.enabled || c.autoRecord) && !env.writerError && !env.speculative {
      BeginFails(c, r, b, env);
    }
  }

  lemma BeginFails(c: Config, r: State, b: Boundary, env: Env)
    requires ConfigOk(c) && Sound(c, r) && !r.pending && Unstuck(r, env)
    requires r.ring.segment + 1 in env.stuck ==> env.stuck[r.ring.segment + 1] >= 5
    requires !r.failed && (r.enabled || c.autoRecord) && !env.writerError && !env.speculative
    ensures Begin(c, r, b, env).failed <==> !Begin(c, r, b, env).pending
  {
    var o := Opened(c, r, b.frame, env);
    var k := if NeedsCheckpoint(c, r, b.frame, env) then WriteSnapshot(c, o, b.snapshot, env) else o;
    BeginParts(c, r, b, env, o, k);
    OpensIffPossible(c, r, b, env, o);
    if !o.failed && NeedsCheckpoint(c, r, b.frame, env) {
      SnapshotSound(c, o, b.snapshot, env);
    }
  }

  /** Between frames, End latches it exactly when the digest record of a recorded frame is refused,
      and closing exactly when an open segment does not close; nothing else does. */
  lemma OthersFail(r: State, line: Line, ok: bool, on: bool)
    requires !r.failed && (r.pending ==> r.recording)
    ensures End(r, line, ok).failed <==> r.pending && !ok
    ensures Close(r, ok).failed <==> r.recording && !ok
    ensures Enable(r, on, ok).failed <==> !on && r.recording && !ok
    ensures !StateLoaded(r).failed
  {
  }

  /** A failed recorder records nothing until it is switched off and on again; then it records as if
      it had never failed. Switching on what is on changes nothing. */
  lemma SwitchRearms(c: Config, r: State, b: Boundary, env: Env, offOk: bool, onOk: bool)
    requires ConfigOk(c) && Sound(c, r) && !r.pending && r.failed
    ensures !Begin(c, r, b, env).pending
    ensures r.enabled ==> Enable(r, true, onOk) == r
    ensures var again := Enable(Enable(r, false, offOk), true, onOk);
            && !again.failed && again.enabled
            && again == r.(failed := false, enabled := true, recording := false, pending := false, rows := 0)
    ensures !r.enabled ==> Enable(r, true, onOk) == r.(failed := false, enabled := true)
  {
  }

  // ----- nothing is evicted without need

  predicate NoLarger(sizes: seq<nat>, than: seq<nat>) {
    |sizes| == |than| && forall k :: 0 <= k < |sizes| ==> sizes[k] <= than[k]
  }

  lemma {:induction false} WindowMinimal(r: State, stuck: map<nat, nat>)
    requires Booked(r) && !r.failed
    ensures var q := EvictForWindow(r, stuck);
            && NoLarger(q.ring.sizes, r.ring.sizes)
            && q.ring.segment == r.ring.segment && r.ring.oldest <= q.ring.oldest
            && (q.ring.oldest > r.ring.oldest ==> q.ring.segment - (q.ring.oldest - 1) >= SEGMENTS)
    decreases r.ring.segment - r.ring.oldest
  {
    if r.ring.segment - r.ring.oldest >= SEGMENTS {
      var e := Evict(r, stuck);
      if !e.failed {
        WindowMinimal(e, stuck);
      }
    }
  }

  /** If anything went, the total with what went last and the new bytes was over the limit. */
  predicate BytesNeeded(g: Ring, h: Ring, size: nat, limit: nat)
    requires |g.sizes| == SEGMENTS
  {
    && h.segment == g.segment && g.oldest <= h.oldest
    && (h.oldest == g.oldest ==> h == g)
    && (h.oldest > g.oldest ==> h.bytes + g.sizes[Slot(h.oldest - 1)] + size > limit)
  }

  lemma NeededOne(g: Ring, h: Ring, size: nat, limit: nat)
    requires Accounted(g) && g.bytes + size > limit && BytesNeeded(Evicted(g), h, size, limit)
    ensures BytesNeeded(g, h, size, limit)
  {
  }

  lemma {:induction false} BytesMinimal(r: State, size: nat, limit: nat, stuck: map<nat, nat>)
    requires Booked(r) && !r.failed
    ensures BytesNeeded(r.ring, EvictForBytes(r, size, limit, stuck).ring, size, limit)
    decreases r.ring.segment - r.ring.oldest
  {
    if r.ring.oldest < r.ring.segment && r.ring.bytes + size > limit {
      var e := Evict(r, stuck);
      EvictTrims(r, stuck);
      if !e.failed {
        BytesMinimal(e, size, limit, stuck);
        NeededOne(r.ring, EvictForBytes(e, size, limit, stuck).ring, size, limit);
      }
    }
  }

  /** The last segment that was evicted had to go: with it there would be more than 360 segments, or
      more bytes than the limit. */
  predicate EvictedOfNeed(c: Config, g: Ring, h: Ring)
    requires |g.sizes| == SEGMENTS
  {
    h.oldest > g.oldest ==>
      || h.segment - (h.oldest - 1) >= SEGMENTS
      || h.bytes + g.sizes[Slot(h.oldest - 1)] > c.limit
  }

  lemma StartMinimal(r: State, frame: nat, env: Env)
    requires Booked(r) && !r.failed
    ensures var q := StartSegment(r, frame, env);
            && NoLarger(q.ring.sizes, r.ring.sizes)
            && r.ring.oldest <= q.ring.oldest
            && (q.ring.oldest > r.ring.oldest ==> q.ring.segment - (q.ring.oldest - 1) >= SEGMENTS)
  {
    var closed := Close(r, env.closeOk);
    if !closed.failed && env.setupOk {
      WindowMinimal(NextSegment(closed), env.stuck);
    }
  }

  lemma SnapshotMinimal(c: Config, r: State, snapshot: seq<Byte>, env: Env, q: State)
    requires Booked(r) && !r.failed && !q.failed && q == WriteSnapshot(c, r, snapshot, env)
    ensures && q.ring.segment == r.ring.segment && r.ring.oldest <= q.ring.oldest
            && (q.ring.oldest > r.ring.oldest ==> q.ring.bytes + r.ring.sizes[Slot(q.ring.oldest - 1)] > c.limit)
  {
    BytesMinimal(r, |snapshot|, c.limit, env.stuck);
  }

  lemma OpenedMinimal(c: Config, r: State, b: Boundary, env: Env, o: State)
    requires Booked(r) && !r.failed && o == Opened(c, r, b.frame, env)
    ensures NoLarger(o.ring.sizes, r.ring.sizes)
    ensures r.ring.oldest <= o.ring.oldest
    ensures o.ring.oldest > r.ring.oldest ==> o.ring.segment - (o.ring.oldest - 1) >= SEGMENTS
  {
    if NeedsSegment(c, r, b.frame, env) {
      StartMinimal(r, b.frame, env);
    }
  }

  /** Window evictions first, then evictions for bytes. */
  lemma NeedJoins(c: Config, g: Ring, o: Ring, k: Ring)
    requires |g.sizes| == SEGMENTS && NoLarger(o.sizes, g.sizes) && g.oldest <= o.oldest
    requires o.oldest > g.oldest ==> o.segment - (o.oldest - 1) >= SEGMENTS
    requires k.segment == o.segment && o.oldest <= k.oldest
    requires k.oldest > o.oldest ==> k.bytes + o.sizes[Slot(k.oldest - 1)] > c.limit
    ensures EvictedOfNeed(c, g, k)
  {
    if k.oldest > o.oldest {
      assert o.sizes[Slot(k.oldest - 1)] <= g.sizes[Slot(k.oldest - 1)];
    }
  }

  lemma PartsMinimal(c: Config, r: State, b: Boundary, env: Env, o: State, k: State)
    requires Booked(r) && !r.failed && o == Opened(c, r, b.frame, env) && !o.failed && !k.failed
    requires k == if NeedsCheckpoint(c, r, b.frame, env) then WriteSnapshot(c, o, b.snapshot, env) else o
    ensures EvictedOfNeed(c, r.ring, k.ring)
  {
    OpenedMinimal(c, r, b, env, o);
    if NeedsCheckpoint(c, r, b.frame, env) {
      SnapshotMinimal(c, o, b.snapshot, env, k);
    }
    NeedJoins(c, r.ring, o.ring, k.ring);
  }

  /** Recording a frame evicts only what it must. */
  lemma EvictsOnlyOfNeed(c: Config, r: State, b: Boundary, env: Env)
    requires ConfigOk(c) && Sound(c, r) && !r.pending && Begin(c, r, b, env).pending
    ensures EvictedOfNeed(c, r.ring, Begin(c, r, b, env).ring)
  {
    var o := Opened(c, r, b.frame, env);
    var k := if NeedsCheckpoint(c, r, b.frame, env) then WriteSnapshot(c, o, b.snapshot, env) else o;
    RecordedParts(c, r, b, env, o, k);
    PartsMinimal(c, r, b, env, o, k);
  }

  /** When a frame was recorded, every part before it succeeded. */
  lemma RecordedParts(c: Config, r: State, b: Boundary, env: Env, o: State, k: State)
    requires ConfigOk(c) && Sound(c, r) && !r.pending && Begin(c, r, b, env).pending
    requires o == Opened(c, r, b.frame, env)
    requires k == if NeedsCheckpoint(c, r, b.frame, env) then WriteSnapshot(c, o, b.snapshot, env) else o
    ensures !r.failed && !o.failed && !k.failed && k.ring == Begin(c, r, b, env).ring
  {
    BeginParts(c, r, b, env, o, k);
    OpenedSound(c, r, b, env);
    if !o.failed && NeedsCheckpoint(c, r, b.frame, env) {
      SnapshotSound(c, o, b.snapshot, env);
    }
  }

  /** Only evicted segments lose their logs. */
  predicate Retains(r: State, q: State) {
    r.ring.oldest <= q.ring.oldest && forall s :: s in r.logs && q.ring.oldest <= s ==> s in q.logs
  }

  lemma OpenedRetains(c: Config, r: State, b: Boundary, env: Env, o: State)
    requires Shelved(c, r) && !r.failed && o == Opened(c, r, b.frame, env) && !o.failed
    ensures Retains(r, o)
  {
    if NeedsSegment(c, r, b.frame, env) {
      var closed := Close(r, env.closeOk);
      AdvanceHoused(closed);
      WindowTrims(NextSegment(closed), env.stuck, r.ring.segment);
    }
  }

  lemma SnapshotRetains(c: Config, r: State, snapshot: seq<Byte>, env: Env, q: State)
    requires Housed(r, r.ring.segment) && Active(r) && !r.failed && q == WriteSnapshot(c, r, snapshot, env) && !q.failed
    ensures Retains(r, q)
  {
    BytesTrims(r, |snapshot|, c.limit, env.stuck);
  }

  lemma BeginRetains(c: Config, r: State, b: Boundary, env: Env)
    requires ConfigOk(c) && Sound(c, r) && !r.pending && Begin(c, r, b, env).pending
    ensures Retains(r, Begin(c, r, b, env))
  {
    var o := Opened(c, r, b.frame, env);
    var k := if NeedsCheckpoint(c, r, b.frame, env) then WriteSnapshot(c, o, b.snapshot, env) else o;
    RecordedParts(c, r, b, env, o, k);
    BeginParts(c, r, b, env, o, k);
    OpenedRetains(c, r, b, env, o);
    OpenedSound(c, r, b, env);
    if NeedsCheckpoint(c, r, b.frame, env) {
      SnapshotRetains(c, o, b.snapshot, env, k);
    }
    assert Retains(r, k);
  }

  /** Segments below the open one that are still on the books have the logs they had. */
  predicate KeepsBelow(r: State, q: State) {
    && r.ring.oldest <= q.ring.oldest && q.ring.segment <= r.ring.segment + 1
    && forall s :: s in r.logs && q.ring.oldest <= s < q.ring.segment ==> s in q.logs && q.logs[s] == r.logs[s]
  }

  lemma BegunKeepsBelow(c: Config, r: State, b: Boundary, env: Env, q: State)
    requires ConfigOk(c) && Sound(c, r) && !r.pending && q == Begin(c, r, b, env) && q.pending
    ensures KeepsBelow(r, q)
  {
    BeginSound(c, r, b, env);
    BeginRetains(c, r, b, env);
    forall s | s in r.logs && q.ring.oldest <= s < q.ring.segment
      ensures s in q.logs && q.logs[s] == r.logs[s]
    {
      assert Kept(r, q, s);
    }
  }

  // ----- how many frames a segment holds

  /** A recorded frame is counted in the segment it is written to. */
  lemma RowsOfBegin(c: Config, r: State, b: Boundary, env: Env)
    requires ConfigOk(c) && Sound(c, r) && !r.pending
    ensures var q := Begin(c, r, b, env);
            && (q.pending ==> q.rows == if NeedsSegment(c, r, b.frame, env) then 0 else r.rows)
            && q.rows <= r.rows
  {
    if !r.failed && (r.enabled || c.autoRecord) && !env.writerError && !env.speculative {
      OpenedSound(c, r, b, env);
      OpenedRows(c, r, b, env);
      var o := Opened(c, r, b.frame, env);
      if !o.failed && NeedsCheckpoint(c, r, b.frame, env) {
        SnapshotRows(c, o, b.snapshot, env);
      }
    }
  }

  lemma OpenedRows(c: Config, r: State, b: Boundary, env: Env)
    requires Booked(r)
    ensures var o := Opened(c, r, b.frame, env);
            o.rows <= r.rows && (!o.failed ==> o.rows == if NeedsSegment(c, r, b.frame, env) then 0 else r.rows)
  {
    var closed := Close(r, env.closeOk);
    if !closed.failed && env.setupOk {
      WindowRows(NextSegment(closed), env.stuck);
    }
  }

  lemma {:induction false} WindowRows(r: State, stuck: map<nat, nat>)
    requires Booked(r)
    ensures EvictForWindow(r, stuck).rows == r.rows
    decreases r.ring.segment - r.ring.oldest, if r.failed then 0 else 1
  {
    if !r.failed && r.ring.segment - r.ring.oldest >= SEGMENTS {
      WindowRows(Evict(r, stuck), stuck);
    }
  }

  lemma {:induction false} BytesRows(r: State, size: nat, limit: nat, stuck: map<nat, nat>)
    requires Booked(r)
    ensures EvictForBytes(r, size, limit, stuck).rows == r.rows
    decreases r.ring.segment - r.ring.oldest, if r.failed then 0 else 1
  {
    if !r.failed && r.ring.oldest < r.ring.segment && r.ring.bytes + size > limit {
      BytesRows(Evict(r, stuck), size, limit, stuck);
    }
  }

  lemma SnapshotRows(c: Config, r: State, snapshot: seq<Byte>, env: Env)
    requires Booked(r)
    ensures WriteSnapshot(c, r, snapshot, env).rows == r.rows
  {
    BytesRows(r, |snapshot|, c.limit, env.stuck);
  }

  /** What a recorded frame leaves for the next frame's discontinuity test. */
  predicate MarkedAs(r: State, b: Boundary, env: Env, q: State) {
    && q.nextFrame == Machine.NextFrame(b.frame) && q.generation == env.generation
    && q.loads == r.loads == q.recordedLoads
  }

  lemma BeginMarks(c: Config, r: State, b: Boundary, env: Env)
    requires ConfigOk(c) && Sound(c, r) && !r.pending && Begin(c, r, b, env).pending
    ensures MarkedAs(r, b, env, Begin(c, r, b, env))
  {
    var o := Opened(c, r, b.frame, env);
    var k := if NeedsCheckpoint(c, r, b.frame, env) then WriteSnapshot(c, o, b.snapshot, env) else o;
    RecordedParts(c, r, b, env, o, k);
    BeginParts(c, r, b, env, o, k);
    OpenedSound(c, r, b, env);
    if NeedsCheckpoint(c, r, b.frame, env) {
      SnapshotSound(c, o, b.snapshot, env);
    }
    assert k.loads == r.loads;
  }

  // ----- how far back the history reaches

  /** No slot holds more than `bound` bytes. */
  predicate Even(g: Ring, bound: nat) {
    |g.sizes| == SEGMENTS && forall k :: 0 <= k < SEGMENTS ==> g.sizes[k] <= bound
  }

  lemma {:induction false} SumWithGap(sizes: seq<nat>, gap: nat, bound: nat)
    requires forall k :: 0 <= k < |sizes| ==> sizes[k] <= bound
    ensures Sum(sizes) <= |sizes| * bound
    ensures gap < |sizes| && sizes[gap] == 0 ==> Sum(sizes) <= (|sizes| - 1) * bound
  {
    if sizes != [] {
      var n := |sizes| - 1;
      SumWithGap(sizes[..n], gap, bound);
      assert |sizes| * bound == n * bound + bound;
      if gap < n {
        assert (|sizes| - 1) * bound == (n - 1) * bound + bound;
      }
    }
  }

  /** The oldest segment of a window of 360 that ends at `newest`. */
  function WindowStart(oldest: nat, newest: nat): nat {
    if newest - oldest >= SEGMENTS then newest - SEGMENTS + 1 else oldest
  }

  lemma {:induction false} WindowExact(r: State, stuck: map<nat, nat>)
    requires Booked(r) && !r.failed && !EvictForWindow(r, stuck).failed
    ensures var q := EvictForWindow(r, stuck);
            q.ring.oldest == WindowStart(r.ring.oldest, r.ring.segment) && q.ring.segment == r.ring.segment
    decreases r.ring.segment - r.ring.oldest
  {
    if r.ring.segment - r.ring.oldest >= SEGMENTS {
      WindowExact(Evict(r, stuck), stuck);
    }
  }

  lemma OpenedExact(c: Config, r: State, b: Boundary, env: Env, o: State)
    requires Booked(r) && !r.failed && o == Opened(c, r, b.frame, env) && !o.failed
    requires NeedsSegment(c, r, b.frame, env)
    ensures o.ring.oldest == WindowStart(r.ring.oldest, r.ring.segment + 1) && o.ring.segment == r.ring.segment + 1
  {
    var closed := Close(r, env.closeOk);
    WindowExact(NextSegment(closed), env.stuck);
  }

  /** With room for a checkpoint of bounded size in every slot, none goes for lack of bytes. */
  lemma RoomEverywhere(o: Ring, size: nat, bound: nat, limit: nat)
    requires Accounted(o) && Even(o, bound) && size <= bound && SEGMENTS * bound <= limit
    requires o.sizes[Slot(o.segment)] == 0
    ensures o.bytes + size <= limit
  {
    SumWithGap(o.sizes, Slot(o.segment), bound);
  }

  /** If the limit has room for 360 checkpoints and a segment is checkpointed once, only the window
      of 360 segments decides what is evicted. */
  lemma BeginExact(c: Config, r: State, b: Boundary, env: Env, bound: nat)
    requires ConfigOk(c) && Sound(c, r) && !r.pending && Begin(c, r, b, env).pending
    requires Even(r.ring, bound) && |b.snapshot| <= bound && SEGMENTS * bound <= c.limit
    requires NeedsCheckpoint(c, r, b.frame, env) <==> NeedsSegment(c, r, b.frame, env)
    ensures var q := Begin(c, r, b, env);
            && Even(q.ring, bound)
            && q.ring.oldest == if NeedsSegment(c, r, b.frame, env) then WindowStart(r.ring.oldest, r.ring.segment + 1)
                                else r.ring.oldest
  {
    var o := Opened(c, r, b.frame, env);
    var k := if NeedsCheckpoint(c, r, b.frame, env) then WriteSnapshot(c, o, b.snapshot, env) else o;
    RecordedParts(c, r, b, env, o, k);
    if NeedsSegment(c, r, b.frame, env) {
      OpenedExact(c, r, b, env, o);
      OpenedMinimal(c, r, b, env, o);
      OpenedSound(c, r, b, env);
      StoredExact(c, o, b.snapshot, env, bound, k);
    }
  }

  lemma StoredExact(c: Config, o: State, snapshot: seq<Byte>, env: Env, bound: nat, k: State)
    requires Booked(o) && Active(o) && o.ring.current == 0 && k == WriteSnapshot(c, o, snapshot, env) && !k.failed
    requires Even(o.ring, bound) && |snapshot| <= bound && SEGMENTS * bound <= c.limit
    ensures Even(k.ring, bound) && k.ring.oldest == o.ring.oldest
  {
    RoomEverywhere(o.ring, |snapshot|, bound, c.limit);
    assert EvictForBytes(o, |snapshot|, c.limit, env.stuck) == o;
  }
}
