/** The recorder half of src/mmx_replay.c as transitions on its static variables. The writer is an
    append-only log and a checkpoint file per segment; everything the recorder cannot control
    (writer, file system, mod selection, emulator flags) is an `Env` chosen freely at each call. */
module Recorder {
  import opened Bytes
  import opened HistoryRing
  import opened ReplayLog
  import opened Machine
  import Player
  import Fnv

  const SEGMENT_FRAMES: nat := 600
  const STATE_LIMIT: nat := Player.STATE_LIMIT
  const SNAPSHOT_LIMIT: nat := Player.SNAPSHOT_LIMIT

  /** Fixed for the process: history_limit() and the MMX_REPLAY_RECORD default. */
  datatype Config = Config(limit: nat, autoRecord: bool)

  predicate ConfigOk(c: Config) {
    SNAPSHOT_LIMIT <= c.limit <= HISTORY_LIMIT
  }

  datatype State = State(
    enabled: bool, recording: bool, pending: bool, failed: bool,
    rows: nat, nextFrame: nat, generation: nat, loads: nat, recordedLoads: nat,
    ring: Ring, logs: map<nat, seq<Line>>, blobs: map<nat, seq<Byte>>)

  /** Outcomes of the calls into the engine and the writer during one Begin. `stuck` maps a
      segment that cannot be removed to the index of the first of its five files that resists. */
  datatype Env = Env(
    generation: nat, writerError: bool, speculative: bool, closeOk: bool, setupOk: bool,
    stuck: map<nat, nat>, beginOk: bool, saveOk: bool, snapshotOk: bool, lineOk: bool)

  /** What the engine presents at a frame boundary: the frame counter, the player's input, the
      settings in force and the serialized machine. */
  datatype Boundary = Boundary(frame: nat, word: nat, settings: Settings, snapshot: seq<Byte>)

  function Initial(enabled: bool): (r: State)
    ensures Booked(r)
  {
    SumOfZeros(seq(SEGMENTS, _ => 0));
    State(enabled, false, false, false, 0, 0, 0, 0, 0,
          Ring(1, 0, seq(SEGMENTS, _ => 0), 0, 0), map[], map[])
  }

  // ----- transitions

  function Fail(r: State): State {
    r.(failed := true, pending := false, recording := false)
  }

  function Close(r: State, closeOk: bool): State {
    r.(failed := r.failed || (r.recording && !closeOk), recording := false, pending := false, rows := 0)
  }

  function Enable(r: State, on: bool, closeOk: bool): State {
    var armed := r.(enabled := on, failed := if on && !r.enabled then false else r.failed);
    if on then armed else Close(armed, closeOk)
  }

  function StateLoaded(r: State): State {
    r.(loads := r.loads + 1)
  }

  function LogOf(r: State, s: nat): seq<Line> {
    if s in r.logs then r.logs[s] else []
  }

  function BlobOf(r: State, s: nat): seq<Byte> {
    if s in r.blobs then r.blobs[s] else []
  }

  function Append(r: State, line: Line): State {
    var s := r.ring.segment;
    r.(logs := r.logs[s := LogOf(r, s) + [line]])
  }

  /** The running total is the sum of the slots, so that taking a slot off it cannot underflow. */
  predicate Booked(r: State) {
    Accounted(r.ring)
  }

  /** evict_segment: the five files go in order, the log first and the checkpoints second; the
      books change only when all of them are gone. */
  function Evict(r: State, stuck: map<nat, nat>): (q: State)
    requires Booked(r)
    ensures Booked(q)
  {
    var o := r.ring.oldest;
    if o in stuck && stuck[o] < 5 then
      Fail(r.(logs := if stuck[o] > 0 then r.logs - {o} else r.logs,
              blobs := if stuck[o] > 1 then r.blobs - {o} else r.blobs))
    else
      r.(logs := r.logs - {o}, blobs := r.blobs - {o}, ring := Evicted(r.ring))
  }

  /** The loop of start_segment. */
  function EvictForWindow(r: State, stuck: map<nat, nat>): (q: State)
    requires Booked(r)
    ensures Booked(q)
    decreases r.ring.segment - r.ring.oldest, if r.failed then 0 else 1
  {
    if r.failed || r.ring.segment - r.ring.oldest < SEGMENTS then r
    else EvictForWindow(Evict(r, stuck), stuck)
  }

  /** The loop of write_snapshot. */
  function EvictForBytes(r: State, size: nat, limit: nat, stuck: map<nat, nat>): (q: State)
    requires Booked(r)
    ensures Booked(q)
    decreases r.ring.segment - r.ring.oldest, if r.failed then 0 else 1
  {
    if r.failed || r.ring.oldest >= r.ring.segment || r.ring.bytes + size <= limit then r
    else EvictForBytes(Evict(r, stuck), size, limit, stuck)
  }

  function NextSegment(r: State): (q: State)
    requires Booked(r)
    ensures Booked(q)
  {
    r.(ring := r.ring.(segment := r.ring.segment + 1))
  }

  /** The last part of start_segment: the new segment's files are created. */
  function OpenFiles(r: State, frame: nat, env: Env): (q: State)
    ensures q.ring == r.ring.(current := 0)
  {
    var ready := r.(ring := r.ring.(current := 0), nextFrame := frame, generation := env.generation);
    if !env.beginOk then Fail(ready)
    else
      var s := ready.ring.segment;
      ready.(recording := true, logs := ready.logs[s := []], blobs := ready.blobs[s := []])
  }

  function StartSegment(r: State, frame: nat, env: Env): (q: State)
    requires Booked(r)
    ensures Booked(q)
  {
    var closed := Close(r, env.closeOk);
    if closed.failed then closed
    else if !env.setupOk then Fail(closed)
    else
      var roomy := EvictForWindow(NextSegment(closed), env.stuck);
      if roomy.failed then roomy else OpenFiles(roomy, frame, env)
  }

  function CheckpointLine(offset: nat, snapshot: seq<Byte>): Line {
    Checkpoint(offset, |snapshot|, Fnv.Digest(snapshot))
  }

  /** The guards of write_snapshot, which serializes the whole machine. */
  predicate SnapshotFits(r: State, size: nat) {
    0 < size <= SNAPSHOT_LIMIT && r.ring.current + size <= STATE_LIMIT
  }

  /** The last part of write_snapshot: the checkpoint is appended and charged to its segment. */
  function StoreSnapshot(r: State, snapshot: seq<Byte>): (q: State)
    requires Booked(r)
    ensures Booked(q)
  {
    var s := r.ring.segment;
    var blob := BlobOf(r, s);
    r.(logs := r.logs[s := LogOf(r, s) + [CheckpointLine(|blob|, snapshot)]],
       blobs := r.blobs[s := blob + snapshot],
       ring := Charged(r.ring, |snapshot|))
  }

  function WriteSnapshot(c: Config, r: State, snapshot: seq<Byte>, env: Env): (q: State)
    requires Booked(r)
    ensures Booked(q)
  {
    var size := |snapshot|;
    if !env.saveOk || !SnapshotFits(r, size) then Fail(r)
    else
      var roomy := EvictForBytes(r, size, c.limit, env.stuck);
      if roomy.failed then roomy
      else if !env.snapshotOk then Fail(roomy)
      else StoreSnapshot(roomy, snapshot)
  }

  predicate Discontinuous(r: State, frame: nat, env: Env) {
    frame != r.nextFrame || r.generation != env.generation || r.recordedLoads != r.loads
  }

  function SegmentLimit(c: Config): nat {
    if c.limit < STATE_LIMIT then c.limit else STATE_LIMIT
  }

  predicate NeedsSegment(c: Config, r: State, frame: nat, env: Env) {
    || !r.recording
    || r.rows >= SEGMENT_FRAMES
    || (Discontinuous(r, frame, env) && r.ring.current > SegmentLimit(c) - SNAPSHOT_LIMIT)
  }

  function Opened(c: Config, r: State, frame: nat, env: Env): (q: State)
    requires Booked(r)
    ensures Booked(q)
  {
    if NeedsSegment(c, r, frame, env) then StartSegment(r, frame, env) else r
  }

  predicate NeedsCheckpoint(c: Config, r: State, frame: nat, env: Env)
    requires Booked(r)
  {
    Opened(c, r, frame, env).rows == 0 || Discontinuous(r, frame, env)
  }

  function InputLine(b: Boundary): Line {
    Input(b.frame, b.word, Policy(b.settings), b.settings.width, 0)
  }

  function WriteInput(r: State, b: Boundary, env: Env): State {
    var q := r.(generation := env.generation, recordedLoads := r.loads);
    if !env.lineOk then Fail(q)
    else Append(q, InputLine(b)).(pending := true, nextFrame := NextFrame(b.frame))
  }

  /** record_begin. */
  function Begin(c: Config, r: State, b: Boundary, env: Env): (q: State)
    requires Booked(r)
    ensures Booked(q)
  {
    if r.failed || (!r.enabled && !c.autoRecord) then r
    else if env.writerError then Fail(r)
    else if env.speculative then Close(r, env.closeOk)
    else
      var o := Opened(c, r, b.frame, env);
      if o.failed then o
      else
        var k := if NeedsCheckpoint(c, r, b.frame, env) then WriteSnapshot(c, o, b.snapshot, env) else o;
        if k.failed then k else WriteInput(k, b, env)
  }

  /** MmxReplayEnd while recording; `line` is what the writer makes of the machine. */
  function End(r: State, line: Line, frameOk: bool): (q: State)
    ensures q.ring == r.ring
  {
    if !r.pending || r.failed then r
    else
      var q := r.(pending := false);
      if !q.recording then q
      else (if frameOk then Append(q, line) else Fail(q)).(rows := q.rows + 1)
  }

  // ----- the invariant of every reachable state

  predicate Submap<K, V(==)>(a: map<K, V>, b: map<K, V>) {
    forall k :: k in a ==> k in b && a[k] == b[k]
  }

  /** Books and files agree: every checkpoint file on disk belongs to a segment of the ring window
      and has the size its slot says. A log never outlives its checkpoint file's entry. */
  predicate FilesAgree(r: State, newest: nat)
    requires |r.ring.sizes| == SEGMENTS
  {
    && r.logs.Keys <= r.blobs.Keys
    && (forall s :: s in r.blobs ==>
          && r.ring.oldest <= s <= newest && s < r.ring.oldest + SEGMENTS
          && |r.blobs[s]| == r.ring.sizes[Slot(s)])
  }

  predicate Housed(r: State, newest: nat) {
    && Accounted(r.ring)
    && 1 <= r.ring.oldest
    && OnlyLive(r.ring.sizes, r.ring.oldest, newest)
    && FilesAgree(r, newest)
  }

  /** The segment being recorded is in the window, and its slot is its byte count. */
  predicate Active(r: State) {
    && |r.ring.sizes| == SEGMENTS
    && r.ring.oldest <= r.ring.segment < r.ring.oldest + SEGMENTS
    && r.ring.sizes[Slot(r.ring.segment)] == r.ring.current
    && r.ring.segment in r.logs
  }

  predicate Sound(c: Config, r: State) {
    && Housed(r, r.ring.segment)
    && r.ring.oldest <= r.ring.segment + 1
    && r.ring.bytes <= c.limit
    && r.ring.current <= STATE_LIMIT
    && (r.pending ==> r.recording)
    && (r.failed ==> !r.recording)
    && (r.recording ==> Active(r) && (r.enabled || c.autoRecord))
    && (r.recording && !r.pending ==> r.rows > 0)
  }

  lemma InitialSound(c: Config, enabled: bool)
    ensures Sound(c, Initial(enabled))
  {
  }

  /** What eviction may do to the rest of the state: drop files of old segments, nothing else. */
  predicate Trims(r: State, q: State) {
    && Submap(q.logs, r.logs) && Submap(q.blobs, r.blobs)
    && q.ring.segment == r.ring.segment && q.ring.current == r.ring.current
    && r.ring.oldest <= q.ring.oldest && q.ring.bytes <= r.ring.bytes
    && (q.failed ==> !q.recording && !q.pending)
    && (!q.failed ==>
          && q == r.(ring := q.ring, logs := q.logs, blobs := q.blobs)
          && (forall s :: s in r.logs && s >= q.ring.oldest ==> s in q.logs)
          && (forall s :: s in r.blobs && s >= q.ring.oldest ==> s in q.blobs))
    && q == q.(enabled := r.enabled, rows := r.rows, nextFrame := r.nextFrame, generation := r.generation,
               loads := r.loads, recordedLoads := r.recordedLoads)
  }

  /** Eviction leaves the slots of all other window segments alone. */
  lemma EvictSlots(g: Ring)
    requires Accounted(g)
    ensures forall s :: g.oldest < s < g.oldest + SEGMENTS ==> Evicted(g).sizes[Slot(s)] == g.sizes[Slot(s)]
  {
    forall s | g.oldest < s < g.oldest + SEGMENTS
      ensures Slot(s) != Slot(g.oldest)
    {
      if Slot(s) == Slot(g.oldest) {
        SlotsDistinct(g.oldest, s);
      }
    }
  }

  lemma EvictHouses(r: State, stuck: map<nat, nat>, newest: nat)
    requires Booked(r) && Housed(r, newest) && !r.failed
    ensures Housed(Evict(r, stuck), newest)
  {
    EvictedLive(r.ring, newest);
    var q, o := Evict(r, stuck), r.ring.oldest;
    assert q.logs.Keys <= q.blobs.Keys;
    if !q.failed {
      EvictSlots(r.ring);
      assert q.ring == Evicted(r.ring) && q.blobs == r.blobs - {o};
      forall s | s in q.blobs
        ensures q.ring.oldest <= s <= newest && s < q.ring.oldest + SEGMENTS
        ensures |q.blobs[s]| == q.ring.sizes[Slot(s)]
      {
        assert s in r.blobs && s != o;
      }
    }
  }

  lemma EvictTrims(r: State, stuck: map<nat, nat>)
    requires Booked(r) && !r.failed
    ensures Trims(r, Evict(r, stuck))
    ensures !Evict(r, stuck).failed ==> Evict(r, stuck).ring == Evicted(r.ring)
    ensures Evict(r, stuck).failed ==> Evict(r, stuck).ring == r.ring
  {
  }

  lemma {:induction false} WindowTrims(r: State, stuck: map<nat, nat>, newest: nat)
    requires Booked(r) && Housed(r, newest) && !r.failed && r.ring.oldest <= r.ring.segment
    ensures var q := EvictForWindow(r, stuck);
            && Housed(q, newest) && Trims(r, q)
            && q.ring.oldest <= q.ring.segment
            && (!q.failed ==> q.ring.segment < q.ring.oldest + SEGMENTS)
    decreases r.ring.segment - r.ring.oldest
  {
    if r.ring.segment - r.ring.oldest >= SEGMENTS {
      EvictHouses(r, stuck, newest);
      EvictTrims(r, stuck);
      var e := Evict(r, stuck);
      if !e.failed {
        WindowTrims(e, stuck, newest);
      }
    }
  }

  lemma {:induction false} BytesTrims(r: State, size: nat, limit: nat, stuck: map<nat, nat>)
    requires Booked(r) && Housed(r, r.ring.segment) && Active(r) && !r.failed
    ensures var q := EvictForBytes(r, size, limit, stuck);
            && Housed(q, q.ring.segment) && Trims(r, q)
            && q.ring.oldest <= q.ring.segment
            && (!q.failed ==> Active(q) && (q.ring.oldest == q.ring.segment || q.ring.bytes + size <= limit))
    decreases r.ring.segment - r.ring.oldest
  {
    if r.ring.oldest < r.ring.segment && r.ring.bytes + size > limit {
      EvictHouses(r, stuck, r.ring.segment);
      EvictTrims(r, stuck);
      EvictSlots(r.ring);
      var e := Evict(r, stuck);
      if !e.failed {
        BytesTrims(e, size, limit, stuck);
      }
    }
  }
}
