/** Whole sessions: any interleaving of recorded frames, state loads, enabling, closing and writer
    failures, with a final frame that may hang. Every file such a session leaves behind plays back
    to exactly the frames it recorded. */
module RecordPlayback {
  import opened Bytes
  import opened HistoryRing
  import opened ReplayLog
  import opened Machine
  import opened Recorder
  import opened RecorderSafety
  import opened RecorderProgress
  import opened History
  import Player

  /** One call sequence of the host. A `Tick` is Begin, one machine frame and End; `now` is the
      machine it finds, which loads, rewinds and resets may have replaced since the last frame. */
  datatype Event<S> =
    | Tick(now: S, word: nat, settings: Settings, env: Env, frameOk: bool)
    | Hang(now: S, word: nat, settings: Settings, env: Env)
    | Load
    | Switch(on: bool, closeOk: bool)
    | Shut(closeOk: bool)

  /** The recorder, and what the host knows on its own: the machine after the last frame, the
      frame-timing latch, the state generation at the last frame, whether a state was loaded since,
      and whether the session hung; and the frames that each segment's log accounts for. */
  datatype World<S> = World(r: State, last: S, timing: bool, generation: nat, loaded: bool, hung: bool,
                            rows: map<nat, seq<Row<S>>>)

  datatype Session<!S> = Session(machine: Machine<S>, extraMax: nat, config: Config)

  ghost predicate SessionOk<S(!new)>(x: Session<S>) {
    && Faithful(x.machine) && ConfigOk(x.config) && 256 + 2 * x.extraMax < 0x8000_0000
  }

  function RowsOf<S>(w: World<S>, s: nat): seq<Row<S>> {
    if s in w.rows then w.rows[s] else []
  }

  function BoundaryOf<S>(x: Session<S>, now: S, word: nat, settings: Settings): Boundary {
    Boundary(x.machine.frame(now), word, settings, x.machine.save(now))
  }

  function NewWorld<S>(s: S, enabled: bool): World<S> {
    World(Initial(enabled), s, false, 0, false, false, map[])
  }

  function TickWorld<S>(x: Session<S>, w: World<S>, e: Event<S>): (q: World<S>)
    requires e.Tick? && Booked(w.r)
    ensures Booked(q.r)
  {
    var b := BoundaryOf(x, e.now, e.word, e.settings);
    var begun := Begin(x.config, w.r, b, e.env);
    var after := x.machine.step(e.now, e.word, e.settings);
    var ended := End(begun, ResultOf(x.machine, after), e.frameOk);
    var s := begun.ring.segment;
    var row := Row(NeedsCheckpoint(x.config, w.r, b.frame, e.env), e.now, e.word, e.settings, after);
    World(ended, after, e.settings.timing, e.env.generation, false, false,
          if begun.pending && e.frameOk then w.rows[s := RowsOf(w, s) + [row]] else w.rows)
  }

  function Apply<S>(x: Session<S>, w: World<S>, e: Event<S>): (q: World<S>)
    requires Booked(w.r)
    ensures Booked(q.r)
  {
    if w.hung then w
    else
      match e
      case Tick(_, _, _, _, _) => TickWorld(x, w, e)
      case Hang(now, word, settings, env) =>
        w.(r := Begin(x.config, w.r, BoundaryOf(x, now, word, settings), env), hung := true)
      case Load => w.(r := StateLoaded(w.r), loaded := true)
      case Switch(on, closeOk) => w.(r := Enable(w.r, on, closeOk))
      case Shut(closeOk) => w.(r := Close(w.r, closeOk))
  }

  /** What the host owes at a frame, whatever the recorder makes of it. The input is 32 bits, the
      width is one the display code can produce, the timing latch does not go back, and a machine
      that is not the one the last frame left has another frame number, or another state generation
      than at that frame, or a load was reported since. */
  predicate FrameHonest<S(==)>(x: Session<S>, w: World<S>, now: S, word: nat, settings: Settings, env: Env) {
    && word < U32
    && WidthLegal(x.extraMax, settings.width)
    && (w.timing ==> settings.timing)
    && (|| now == w.last
        || x.machine.frame(now) != x.machine.frame(w.last)
        || env.generation != w.generation
        || w.loaded)
  }

  predicate Honest<S(==)>(x: Session<S>, w: World<S>, e: Event<S>) {
    match e
    case Tick(now, word, settings, env, _) => FrameHonest(x, w, now, word, settings, env)
    case Hang(now, word, settings, env) => FrameHonest(x, w, now, word, settings, env)
    case _ => true
  }

  // ----- the invariant

  /** A record that a failed or hung frame left behind: a checkpoint, an input, or both. */
  predicate TailOk(tail: seq<Line>) {
    && (forall i :: 0 <= i < |tail| ==> Printable(tail[i]))
    && TailShape(tail)
  }

  predicate TailShape(tail: seq<Line>) {
    || tail == []
    || (|tail| == 1 && (tail[0].Checkpoint? || tail[0].Input?))
    || (|tail| == 2 && tail[0].Checkpoint? && tail[1].Input?)
  }

  /** A file on disk is the recording of its rows, possibly with an unfinished record at its end. */
  predicate FileOk<S(==)>(x: Session<S>, log: seq<Line>, blob: seq<Byte>, rows: seq<Row<S>>) {
    && WellFormed(x.machine, x.extraMax, rows)
    && Emit(x.machine, rows) <= log
    && TailOk(log[|Emit(x.machine, rows)|..])
    && Blob(x.machine, rows) <= blob
  }

  predicate FilesOk<S(==)>(x: Session<S>, w: World<S>) {
    forall s :: s in w.r.logs ==> FileOk(x, w.r.logs[s], BlobOf(w.r, s), RowsOf(w, s))
  }

  /** Between frames the open segment is complete and ends at the machine the last frame left. */
  predicate OpenOk<S(==)>(x: Session<S>, w: World<S>) {
    var s := w.r.ring.segment;
    var rows := RowsOf(w, s);
    && s in w.r.logs && s in w.r.blobs
    && rows != []
    && w.r.logs[s] == Emit(x.machine, rows) && w.r.blobs[s] == Blob(x.machine, rows)
    && rows[|rows| - 1].after == w.last
    && (rows[|rows| - 1].settings.timing ==> w.timing)
  }

  /** An open recording would notice whatever the host has to report: it expects the frame number of
      the machine the last frame left and the generation of that frame, and its load count is ahead
      of the recorded one exactly when a load was reported since. */
  predicate InStep<S>(x: Session<S>, w: World<S>) {
    && w.r.nextFrame == x.machine.frame(w.last)
    && w.r.generation == w.generation
    && w.r.recordedLoads <= w.r.loads
    && (w.loaded <==> w.r.recordedLoads < w.r.loads)
  }

  predicate WorldOk<S(==)>(x: Session<S>, w: World<S>) {
    && Sound(x.config, w.r)
    && (forall s :: s in w.rows ==> s <= w.r.ring.segment)
    && FilesOk(x, w)
    && (!w.hung ==> !w.r.pending && (w.r.recording ==> OpenOk(x, w) && InStep(x, w)))
  }

  // ----- one more row

  lemma RowAppended<S(!new)>(x: Session<S>, rows: seq<Row<S>>, row: Row<S>)
    requires WellFormed(x.machine, x.extraMax, rows)
    requires row.after == x.machine.step(row.before, row.word, row.settings) && row.word < U32
    requires WidthLegal(x.extraMax, row.settings.width)
    requires row.checkpoint ==> 0 < |x.machine.save(row.before)| <= SNAPSHOT_LIMIT
    requires row.checkpoint ==> |Blob(x.machine, rows)| + |x.machine.save(row.before)| <= STATE_LIMIT
    requires !row.checkpoint ==> rows != [] && row.before == rows[|rows| - 1].after
    requires rows != [] && rows[|rows| - 1].settings.timing ==> row.settings.timing
    ensures WellFormed(x.machine, x.extraMax, rows + [row])
    ensures Emit(x.machine, rows + [row]) == Emit(x.machine, rows) + RowLines(x.machine, |Blob(x.machine, rows)|, row)
    ensures Blob(x.machine, rows + [row])
         == Blob(x.machine, rows) + (if row.checkpoint then x.machine.save(row.before) else [])
  {
    var m, all := x.machine, rows + [row];
    assert all[..|rows|] == rows;
    forall k | 0 <= k < |all|
      ensures RowFits(m, x.extraMax, all, k)
    {
      if k < |rows| {
        assert RowFits(m, x.extraMax, rows, k);
      }
    }
  }

  /** The segment that a call writes to held exactly the recording of its rows. */
  lemma BaseIsRows<S(!new)>(x: Session<S>, w: World<S>, b: Boundary, env: Env)
    requires WorldOk(x, w) && !w.hung
    ensures var rows := RowsOf(w, BaseSegment(x.config, w.r, b, env));
            && WellFormed(x.machine, x.extraMax, rows)
            && BaseLog(x.config, w.r, b, env) == Emit(x.machine, rows)
            && BaseBlob(x.config, w.r, b, env) == Blob(x.machine, rows)
            && (!NeedsSegment(x.config, w.r, b.frame, env) ==> w.r.recording && OpenOk(x, w))
  {
    if !NeedsSegment(x.config, w.r, b.frame, env) {
      assert FileOk(x, w.r.logs[w.r.ring.segment], BlobOf(w.r, w.r.ring.segment), RowsOf(w, w.r.ring.segment));
    }
  }

  lemma ExtendedFile<S(!new)>(x: Session<S>, rows: seq<Row<S>>, tail: seq<Line>, blob: seq<Byte>)
    requires WellFormed(x.machine, x.extraMax, rows) && TailOk(tail) && Blob(x.machine, rows) <= blob
    ensures FileOk(x, Emit(x.machine, rows) + tail, blob, rows)
  {
    assert (Emit(x.machine, rows) + tail)[|Emit(x.machine, rows)|..] == tail;
  }

  /** Files that a call left alone are still recordings of the same rows. */
  lemma KeptFile<S(!new)>(x: Session<S>, w: World<S>, q: State, s: nat)
    requires FilesOk(x, w) && Kept(w.r, q, s)
    ensures FileOk(x, q.logs[s], BlobOf(q, s), RowsOf(w, s))
  {
  }

  /** The segment that a failed call had started to write is a recording, perhaps with a checkpoint
      record dangling at its end. */
  lemma DanglingFile<S(!new)>(x: Session<S>, w: World<S>, b: Boundary, env: Env, q: State)
    requires WorldOk(x, w) && !w.hung && Dangling(x.config, w.r, b, env, q)
    ensures var s := q.ring.segment; FileOk(x, q.logs[s], q.blobs[s], RowsOf(w, s))
  {
    BaseIsRows(x, w, b, env);
    var s := q.ring.segment;
    var log, rows := q.logs[s], RowsOf(w, s);
    var tail := log[|Emit(x.machine, rows)|..];
    assert log == Emit(x.machine, rows) + tail;
    ExtendedFile(x, rows, tail, q.blobs[s]);
  }

  /** A call that leaves nothing open leaves only recordings, perhaps with a dangling checkpoint. */
  lemma ClosedFiles<S(!new)>(x: Session<S>, w: World<S>, b: Boundary, env: Env, q: State, s: nat)
    requires WorldOk(x, w) && !w.hung && LeavesClosed(x.config, w.r, b, env, q) && s in q.logs
    ensures FileOk(x, q.logs[s], BlobOf(q, s), RowsOf(w, s))
  {
    if Kept(w.r, q, s) {
      KeptFile(x, w, q, s);
    } else {
      DanglingFile(x, w, b, env, q);
    }
  }

  /** A frame whose input was recorded but whose digest record was not leaves an unfinished tail. */
  lemma UnfinishedFile<S(!new)>(x: Session<S>, w: World<S>, b: Boundary, env: Env, q: State)
    requires WorldOk(x, w) && !w.hung && RecordsInput(x.config, w.r, b, env, q) && Printable(InputLine(b))
    ensures var s := q.ring.segment; FileOk(x, q.logs[s], q.blobs[s], RowsOf(w, s))
  {
    BaseIsRows(x, w, b, env);
    var s := q.ring.segment;
    var rows, blob := RowsOf(w, s), BaseBlob(x.config, w.r, b, env);
    var tail := (if NeedsCheckpoint(x.config, w.r, b.frame, env) then [CheckpointLine(|blob|, b.snapshot)] else [])
                + [InputLine(b)];
    assert q.logs[s] == Emit(x.machine, rows) + tail;
    ExtendedFile(x, rows, tail, q.blobs[s]);
  }

  /** A completed frame extends the recording by its row. */
  lemma CompletedFile<S(!new)>(x: Session<S>, w: World<S>, e: Event<S>, q: State)
    requires SessionOk(x) && WorldOk(x, w) && !w.hung && e.Tick? && Honest(x, w, e)
    requires RecordsInput(x.config, w.r, BoundaryOf(x, e.now, e.word, e.settings), e.env, q)
    ensures var b := BoundaryOf(x, e.now, e.word, e.settings);
            var s := q.ring.segment;
            var after := x.machine.step(e.now, e.word, e.settings);
            var rows := RowsOf(w, s)
                        + [Row(NeedsCheckpoint(x.config, w.r, b.frame, e.env), e.now, e.word, e.settings, after)];
            && WellFormed(x.machine, x.extraMax, rows)
            && q.logs[s] + [ResultOf(x.machine, after)] == Emit(x.machine, rows)
            && q.blobs[s] == Blob(x.machine, rows)
  {
    var b := BoundaryOf(x, e.now, e.word, e.settings);
    BaseIsRows(x, w, b, e.env);
    var s := q.ring.segment;
    var after := x.machine.step(e.now, e.word, e.settings);
    var row := Row(NeedsCheckpoint(x.config, w.r, b.frame, e.env), e.now, e.word, e.settings, after);
    var rows := RowsOf(w, s);
    RowAppended(x, rows, row);
    var lead := if row.checkpoint then [CheckpointLine(|Blob(x.machine, rows)|, b.snapshot)] else [];
    assert RowLines(x.machine, |Blob(x.machine, rows)|, row) == lead + [InputLine(b), ResultOf(x.machine, after)];
    JoinRecords(Emit(x.machine, rows), lead, InputLine(b), ResultOf(x.machine, after));
  }

  lemma JoinRecords(log: seq<Line>, lead: seq<Line>, input: Line, result: Line)
    ensures log + lead + [input] + [result] == log + (lead + [input, result])
  {
  }

  // ----- the invariant is kept

  lemma ClosedWorld<S(!new)>(x: Session<S>, w: World<S>, b: Boundary, env: Env, q: World<S>)
    requires WorldOk(x, w) && !w.hung
    requires LeavesClosed(x.config, w.r, b, env, q.r) && Sound(x.config, q.r)
    requires w.r.ring.segment <= q.r.ring.segment && q.rows == w.rows
    ensures WorldOk(x, q)
  {
    forall s | s in q.r.logs
      ensures FileOk(x, q.r.logs[s], BlobOf(q.r, s), RowsOf(q, s))
    {
      ClosedFiles(x, w, b, env, q.r, s);
    }
  }

  /** Every segment but the one written to is as it was. */
  predicate OthersKept<S(==)>(w: World<S>, q: World<S>, s: nat) {
    forall t :: t in q.r.logs && t != s ==> Kept(w.r, q.r, t) && RowsOf(q, t) == RowsOf(w, t)
  }

  lemma WrittenWorld<S(!new)>(x: Session<S>, w: World<S>, q: World<S>, s: nat)
    requires WorldOk(x, w) && Sound(x.config, q.r) && OthersKept(w, q, s)
    requires s in q.r.logs && FileOk(x, q.r.logs[s], BlobOf(q.r, s), RowsOf(q, s))
    requires forall t :: t in q.rows ==> t <= q.r.ring.segment
    requires !q.hung ==> !q.r.pending && (q.r.recording ==> OpenOk(x, q) && InStep(x, q))
    ensures WorldOk(x, q)
  {
    forall t | t in q.r.logs && t != s
      ensures FileOk(x, q.r.logs[t], BlobOf(q.r, t), RowsOf(q, t))
    {
      KeptFile(x, w, q.r, t);
    }
  }

  lemma KeptThrough<S(!new)>(w: World<S>, begun: State, q: World<S>, s: nat)
    requires forall t :: t in begun.logs && t != s ==> Kept(w.r, begun, t)
    requires forall t :: t in q.r.logs && t != s ==> Kept(begun, q.r, t)
    requires forall t :: t != s ==> RowsOf(q, t) == RowsOf(w, t)
    ensures OthersKept(w, q, s)
  {
    forall t | t in q.r.logs && t != s
      ensures Kept(w.r, q.r, t)
    {
      assert Kept(begun, q.r, t);
    }
  }

  /** After a recorded frame the recorder knows what the host knows. */
  lemma TickInStep<S(!new)>(x: Session<S>, w: World<S>, e: Event<S>)
    requires SessionOk(x) && WorldOk(x, w) && !w.hung && e.Tick?
    requires Begin(x.config, w.r, BoundaryOf(x, e.now, e.word, e.settings), e.env).pending
    ensures InStep(x, TickWorld(x, w, e))
  {
    BeginMarks(x.config, w.r, BoundaryOf(x, e.now, e.word, e.settings), e.env);
  }

  /** A frame that was recorded and completed. */
  lemma CompletedTick<S(!new)>(x: Session<S>, w: World<S>, e: Event<S>, begun: State)
    requires SessionOk(x) && WorldOk(x, w) && !w.hung && e.Tick? && Honest(x, w, e) && e.frameOk
    requires begun == Begin(x.config, w.r, BoundaryOf(x, e.now, e.word, e.settings), e.env)
    requires RecordsInput(x.config, w.r, BoundaryOf(x, e.now, e.word, e.settings), e.env, begun)
    requires Sound(x.config, begun) && w.r.ring.segment <= begun.ring.segment
    ensures WorldOk(x, TickWorld(x, w, e))
  {
    var q, s := TickWorld(x, w, e), begun.ring.segment;
    var after := x.machine.step(e.now, e.word, e.settings);
    EndSound(x.config, begun, ResultOf(x.machine, after), true);
    CompletedFile(x, w, e, begun);
    TickInStep(x, w, e);
    CompletedWorld(x, w, q, begun, ResultOf(x.machine, after));
  }

  lemma CompletedWorld<S(!new)>(x: Session<S>, w: World<S>, q: World<S>, begun: State, line: Line)
    requires WorldOk(x, w) && Sound(x.config, q.r) && !q.hung && !q.r.pending && InStep(x, q)
    requires w.r.ring.segment <= begun.ring.segment && q.r.ring == begun.ring && q.r.blobs == begun.blobs
    requires begun.ring.segment in begun.logs && begun.ring.segment in begun.blobs
    requires q.r.logs == begun.logs[begun.ring.segment := begun.logs[begun.ring.segment] + [line]]
    requires forall t :: t in begun.logs && t != begun.ring.segment ==> Kept(w.r, begun, t)
    requires begun.ring.segment in q.rows && q.rows == w.rows[begun.ring.segment := q.rows[begun.ring.segment]]
    requires var rows := q.rows[begun.ring.segment];
             && rows != [] && rows[|rows| - 1].after == q.last && rows[|rows| - 1].settings.timing == q.timing
             && WellFormed(x.machine, x.extraMax, rows)
             && begun.logs[begun.ring.segment] + [line] == Emit(x.machine, rows)
             && begun.blobs[begun.ring.segment] == Blob(x.machine, rows)
    ensures WorldOk(x, q)
  {
    var s := begun.ring.segment;
    var rows := q.rows[s];
    ExtendedFile(x, rows, [], q.r.blobs[s]);
    assert Emit(x.machine, rows) + [] == Emit(x.machine, rows);
    KeptThrough(w, begun, q, s);
    WrittenWorld(x, w, q, s);
  }

  /** A frame whose input was recorded but whose digest record was refused. */
  lemma RefusedTick<S(!new)>(x: Session<S>, w: World<S>, e: Event<S>, begun: State)
    requires SessionOk(x) && WorldOk(x, w) && !w.hung && e.Tick? && Honest(x, w, e) && !e.frameOk
    requires begun == Begin(x.config, w.r, BoundaryOf(x, e.now, e.word, e.settings), e.env)
    requires RecordsInput(x.config, w.r, BoundaryOf(x, e.now, e.word, e.settings), e.env, begun)
    requires Sound(x.config, begun) && w.r.ring.segment <= begun.ring.segment
    ensures WorldOk(x, TickWorld(x, w, e))
  {
    EndSound(x.config, begun, ResultOf(x.machine, x.machine.step(e.now, e.word, e.settings)), false);
    RefusedWorld(x, w, TickWorld(x, w, e), BoundaryOf(x, e.now, e.word, e.settings), e.env, begun);
  }

  lemma RefusedWorld<S(!new)>(x: Session<S>, w: World<S>, q: World<S>, b: Boundary, env: Env, begun: State)
    requires WorldOk(x, w) && !w.hung && RecordsInput(x.config, w.r, b, env, begun) && Printable(InputLine(b))
    requires w.r.ring.segment <= begun.ring.segment
    requires Sound(x.config, q.r) && Stopped(q.r) && q.rows == w.rows
    requires q.r.logs == begun.logs && q.r.blobs == begun.blobs && q.r.ring == begun.ring
    ensures WorldOk(x, q)
  {
    var s := begun.ring.segment;
    UnfinishedFile(x, w, b, env, begun);
    assert OthersKept(w, q, s) by {
      forall t | t in q.r.logs && t != s
        ensures Kept(w.r, q.r, t)
      {
        assert Kept(w.r, begun, t);
      }
    }
    WrittenWorld(x, w, q, s);
  }

  lemma TickOk<S(!new)>(x: Session<S>, w: World<S>, e: Event<S>)
    requires SessionOk(x) && WorldOk(x, w) && !w.hung && e.Tick? && Honest(x, w, e)
    ensures WorldOk(x, TickWorld(x, w, e))
  {
    var b := BoundaryOf(x, e.now, e.word, e.settings);
    var begun := Begin(x.config, w.r, b, e.env);
    BeginSound(x.config, w.r, b, e.env);
    if !RecordsInput(x.config, w.r, b, e.env, begun) {
      ClosedWorld(x, w, b, e.env, TickWorld(x, w, e));
    } else if e.frameOk {
      CompletedTick(x, w, e, begun);
    } else {
      RefusedTick(x, w, e, begun);
    }
  }

  /** A frame whose input was recorded and that never came back. */
  lemma HungInput<S(!new)>(x: Session<S>, w: World<S>, b: Boundary, env: Env, r: State)
    requires WorldOk(x, w) && !w.hung && Sound(x.config, r) && w.r.ring.segment <= r.ring.segment
    requires RecordsInput(x.config, w.r, b, env, r) && Printable(InputLine(b))
    ensures WorldOk(x, w.(r := r, hung := true))
  {
    var q := w.(r := r, hung := true);
    UnfinishedFile(x, w, b, env, r);
    assert OthersKept(w, q, r.ring.segment);
    WrittenWorld(x, w, q, r.ring.segment);
  }

  lemma HangOk<S(!new)>(x: Session<S>, w: World<S>, now: S, word: nat, settings: Settings, env: Env)
    requires SessionOk(x) && WorldOk(x, w) && !w.hung && FrameHonest(x, w, now, word, settings, env)
    ensures WorldOk(x, Apply(x, w, Hang(now, word, settings, env)))
  {
    var b := BoundaryOf(x, now, word, settings);
    var r := Begin(x.config, w.r, b, env);
    BeginSound(x.config, w.r, b, env);
    if RecordsInput(x.config, w.r, b, env, r) {
      HungInput(x, w, b, env, r);
    } else {
      ClosedWorld(x, w, b, env, w.(r := r, hung := true));
    }
  }

  /** A call that touches neither files nor books nor the open recording, unless it closes it. */
  lemma QuietWorld<S(!new)>(x: Session<S>, w: World<S>, q: World<S>)
    requires WorldOk(x, w) && !w.hung && Sound(x.config, q.r)
    requires q == w.(r := q.r, loaded := q.loaded)
    requires q.r.logs == w.r.logs && q.r.blobs == w.r.blobs && q.r.ring == w.r.ring
    requires Stopped(q.r) || (q.r.recording == w.r.recording && !q.r.pending && (w.r.recording ==> InStep(x, q)))
    ensures WorldOk(x, q)
  {
    forall s | s in q.r.logs
      ensures FileOk(x, q.r.logs[s], BlobOf(q.r, s), RowsOf(q, s))
    {
      assert FileOk(x, w.r.logs[s], BlobOf(w.r, s), RowsOf(w, s));
    }
  }

  lemma LoadOk<S(!new)>(x: Session<S>, w: World<S>)
    requires WorldOk(x, w) && !w.hung
    ensures WorldOk(x, Apply(x, w, Load))
  {
    OthersSound(x.config, w.r, true, true);
    QuietWorld(x, w, Apply(x, w, Load));
  }

  lemma SwitchOk<S(!new)>(x: Session<S>, w: World<S>, on: bool, closeOk: bool)
    requires WorldOk(x, w) && !w.hung
    ensures WorldOk(x, Apply(x, w, Switch(on, closeOk)))
  {
    OthersSound(x.config, w.r, on, closeOk);
    QuietWorld(x, w, Apply(x, w, Switch(on, closeOk)));
  }

  lemma ShutOk<S(!new)>(x: Session<S>, w: World<S>, closeOk: bool)
    requires WorldOk(x, w) && !w.hung
    ensures WorldOk(x, Apply(x, w, Shut(closeOk)))
  {
    OthersSound(x.config, w.r, true, closeOk);
    QuietWorld(x, w, Apply(x, w, Shut(closeOk)));
  }

  lemma ApplyOk<S(!new)>(x: Session<S>, w: World<S>, e: Event<S>)
    requires SessionOk(x) && WorldOk(x, w) && Honest(x, w, e)
    ensures WorldOk(x, Apply(x, w, e))
  {
    if !w.hung {
      match e {
        case Tick(_, _, _, _, _) => TickOk(x, w, e);
        case Hang(now, word, settings, env) => HangOk(x, w, now, word, settings, env);
        case Load => LoadOk(x, w);
        case Switch(on, closeOk) => SwitchOk(x, w, on, closeOk);
        case Shut(closeOk) => ShutOk(x, w, closeOk);
      }
    }
  }

  function Run<S>(x: Session<S>, w: World<S>, events: seq<Event<S>>): (q: World<S>)
    requires Booked(w.r)
    ensures Booked(q.r)
    decreases |events|
  {
    if events == [] then w else Run(x, Apply(x, w, events[0]), events[1..])
  }

  predicate HonestRun<S(==)>(x: Session<S>, w: World<S>, events: seq<Event<S>>)
    requires Booked(w.r)
    decreases |events|
  {
    events == [] || (Honest(x, w, events[0]) && HonestRun(x, Apply(x, w, events[0]), events[1..]))
  }

  lemma {:induction false} RunOk<S(!new)>(x: Session<S>, w: World<S>, events: seq<Event<S>>)
    requires SessionOk(x) && WorldOk(x, w) && HonestRun(x, w, events)
    ensures WorldOk(x, Run(x, w, events))
    decreases |events|
  {
    if events != [] {
      ApplyOk(x, w, events[0]);
      RunOk(x, Apply(x, w, events[0]), events[1..]);
    }
  }

  /** Safety over every session: from a cold start, whatever is recorded, loaded, closed, enabled,
      refused by the writer or cut short by a hang, the storage invariant holds. */
  lemma EverySessionIsSound<S(!new)>(x: Session<S>, s: S, enabled: bool, events: seq<Event<S>>)
    requires SessionOk(x) && HonestRun(x, NewWorld(s, enabled), events)
    ensures WorldOk(x, Run(x, NewWorld(s, enabled), events))
    ensures var r := Run(x, NewWorld(s, enabled), events).r;
            && r.ring.bytes == Sum(r.ring.sizes)
            && DiskBytes(r.blobs, r.ring.oldest, r.ring.segment + 1) <= r.ring.bytes <= x.config.limit
            && (r.recording ==>
                  && r.ring.oldest <= r.ring.segment < r.ring.oldest + SEGMENTS
                  && r.ring.sizes[Slot(r.ring.segment)] == r.ring.current == |BlobOf(r, r.ring.segment)|)
  {
    InitialSound(x.config, enabled);
    RunOk(x, NewWorld(s, enabled), events);
    DiskWithinLimit(x.config, Run(x, NewWorld(s, enabled), events).r);
  }

  /** The configured limit is kept. With MMX_REPLAY_HISTORY_MIB set to a whole number of mebibytes
      from 2 to 256, no session ever has more checkpoint bytes on disk than that; with anything else
      the bound is 256 MiB. */
  lemma SettingIsKept<S(!new)>(x: Session<S>, s: S, enabled: bool, events: seq<Event<S>>, mib: Option<nat>)
    requires SessionOk(x) && HonestRun(x, NewWorld(s, enabled), events) && x.config.limit == HistoryLimit(mib)
    ensures var r := Run(x, NewWorld(s, enabled), events).r;
            var n := if mib.Some? && 2 <= mib.value <= 256 then mib.value else 256;
            DiskBytes(r.blobs, r.ring.oldest, r.ring.segment + 1) <= n * 0x10_0000
  {
    EverySessionIsSound(x, s, enabled, events);
  }

  // ----- what follows a load

  /** A load has been reported since the last frame. */
  function LoadedAfter<S>(before: bool, events: seq<Event<S>>): bool
    decreases |events|
  {
    if events == [] then before
    else LoadedAfter(if events[0].Load? then true else if events[0].Tick? then false else before, events[1..])
  }

  lemma {:induction false} LoadedByEvents<S(!new)>(x: Session<S>, w: World<S>, events: seq<Event<S>>)
    requires Booked(w.r) && !Run(x, w, events).hung
    ensures Run(x, w, events).loaded == LoadedAfter(w.loaded, events) && !w.hung
    decreases |events|
  {
    if events != [] {
      LoadedByEvents(x, Apply(x, w, events[0]), events[1..]);
    }
  }

  lemma {:induction false} NoFrameSince<S(!new)>(before: bool, pre: seq<Event<S>>, mid: seq<Event<S>>)
    requires forall i :: 0 <= i < |mid| ==> !mid[i].Tick?
    ensures LoadedAfter(before, pre + [Load] + mid)
    decreases |pre|
  {
    if pre == [] {
      assert (pre + [Load] + mid)[1..] == mid;
      StaysLoaded(mid);
    } else {
      assert (pre + [Load] + mid)[0] == pre[0] && (pre + [Load] + mid)[1..] == pre[1..] + [Load] + mid;
      NoFrameSince(if pre[0].Load? then true else if pre[0].Tick? then false else before, pre[1..], mid);
    }
  }

  lemma {:induction false} StaysLoaded<S(!new)>(mid: seq<Event<S>>)
    requires forall i :: 0 <= i < |mid| ==> !mid[i].Tick?
    ensures LoadedAfter(true, mid)
    decreases |mid|
  {
    if mid != [] {
      StaysLoaded(mid[1..]);
    }
  }

  /** The last row of the open segment is a checkpointed frame of this machine, and its log, with the
      checkpoint record before the input, is complete. */
  predicate CheckpointedLast<S(==)>(x: Session<S>, q: World<S>, now: S) {
    var seg := q.r.ring.segment;
    var rows := RowsOf(q, seg);
    && rows != [] && rows[|rows| - 1].checkpoint && rows[|rows| - 1].before == now
    && seg in q.r.logs && q.r.logs[seg] == Emit(x.machine, rows)
    && seg in q.r.blobs && q.r.blobs[seg] == Blob(x.machine, rows)
  }

  /** A frame of which the host reports anything is checkpointed when it is recorded. */
  lemma ReportedIsCheckpointed<S(!new)>(x: Session<S>, w: World<S>, e: Event<S>)
    requires SessionOk(x) && WorldOk(x, w) && !w.hung && e.Tick? && Honest(x, w, e) && e.frameOk
    requires Begin(x.config, w.r, BoundaryOf(x, e.now, e.word, e.settings), e.env).pending
    requires w.loaded || e.env.generation != w.generation || x.machine.frame(e.now) != x.machine.frame(w.last)
    ensures CheckpointedLast(x, TickWorld(x, w, e), e.now)
  {
    BeginSound(x.config, w.r, BoundaryOf(x, e.now, e.word, e.settings), e.env);
    TickOk(x, w, e);
  }

  /** A recorded frame that follows a load, with no frame between, is a checkpointed row that holds the
      loaded machine, whatever its frame number and generation. */
  lemma LoadedFrameIsCheckpointed<S(!new)>(x: Session<S>, s: S, enabled: bool, pre: seq<Event<S>>, mid: seq<Event<S>>, e: Event<S>)
    requires SessionOk(x) && HonestRun(x, NewWorld(s, enabled), pre + [Load] + mid)
    requires forall i :: 0 <= i < |mid| ==> !mid[i].Tick?
    requires var w := Run(x, NewWorld(s, enabled), pre + [Load] + mid);
             && !w.hung && e.Tick? && Honest(x, w, e) && e.frameOk
             && Begin(x.config, w.r, BoundaryOf(x, e.now, e.word, e.settings), e.env).pending
    ensures CheckpointedLast(x, Apply(x, Run(x, NewWorld(s, enabled), pre + [Load] + mid), e), e.now)
  {
    var events := pre + [Load] + mid;
    EverySessionIsSound(x, s, enabled, events);
    LoadedByEvents(x, NewWorld(s, enabled), events);
    NoFrameSince(false, pre, mid);
    ReportedIsCheckpointed(x, Run(x, NewWorld(s, enabled), events), e);
  }

  // ----- every file plays back

  lemma EmitEndsInResult<S(!new)>(m: Machine<S>, rows: seq<Row<S>>)
    requires rows != []
    ensures Emit(m, rows) != [] && Emit(m, rows)[|Emit(m, rows)| - 1].Result?
  {
    var n := |rows| - 1;
    RowLinesEnd(m, |Blob(m, rows[..n])|, rows[n]);
  }

  lemma FileEndsInResult<S(!new)>(x: Session<S>, log: seq<Line>, blob: seq<Byte>, rows: seq<Row<S>>)
    requires FileOk(x, log, blob, rows) && log != []
    ensures log[|log| - 1].Result? <==> log == Emit(x.machine, rows) && rows != []
  {
    var emitted := Emit(x.machine, rows);
    var tail := log[|emitted|..];
    assert log == emitted + tail;
    if tail == [] {
      assert log == emitted && rows != [];
      EmitEndsInResult(x.machine, rows);
    } else {
      assert log[|log| - 1] == tail[|tail| - 1];
    }
  }

  /** A playback of a file of the session: completed, with the file's frames, exactly when the last
      record is a digest record; failed otherwise. */
  predicate PlaysAsRecorded<S(==)>(run: Player.Run<S>, log: seq<Line>, rows: seq<Row<S>>) {
    if log != [] && log[|log| - 1].Result? then Replays(run, rows)
    else run.final.failed && !run.final.finished
  }

  function Playback<S>(x: Session<S>, log: seq<Line>, blob: seq<Byte>, host: S, timing: bool): Player.Run<S> {
    Player.Play(Player.Tape(x.machine, x.extraMax, log, blob), Player.Start(host, timing))
  }

  /** The player's timing latch is not ahead of the recording's first frame. */
  predicate LatchFits<S>(rows: seq<Row<S>>, timing: bool) {
    rows != [] && timing ==> rows[0].settings.timing
  }

  lemma FilePlays<S(!new)>(x: Session<S>, log: seq<Line>, blob: seq<Byte>, rows: seq<Row<S>>, host: S, timing: bool)
    requires SessionOk(x) && FileOk(x, log, blob, rows) && LatchFits(rows, timing)
    ensures PlaysAsRecorded(Playback(x, log, blob, host, timing), log, rows)
  {
    var t := Player.Tape(x.machine, x.extraMax, log, blob);
    Player.FinishedIffCertified(t, host, timing);
    Player.FinishedEndsInResult(t, host, timing);
    if log != [] {
      FileEndsInResult(x, log, blob, rows);
      if log[|log| - 1].Result? {
        RecordedSegmentPlays(t, rows, host, timing);
      }
    }
  }

  /** Record and playback over whole sessions. Every file left by every session plays back to
      completion exactly when its last record is a digest record, that is, when its last recorded
      frame completed; then the frames executed are the recorded ones, machine for machine. Any
      other file ends as a failure. The player may start from any machine, with its timing latch
      not ahead of the recording. */
  lemma EveryFilePlaysBack<S(!new)>(x: Session<S>, s: S, enabled: bool, events: seq<Event<S>>, seg: nat, host: S, timing: bool)
    requires SessionOk(x) && HonestRun(x, NewWorld(s, enabled), events)
    requires seg in Run(x, NewWorld(s, enabled), events).r.logs
    requires LatchFits(RowsOf(Run(x, NewWorld(s, enabled), events), seg), timing)
    ensures var w := Run(x, NewWorld(s, enabled), events);
            PlaysAsRecorded(Playback(x, w.r.logs[seg], BlobOf(w.r, seg), host, timing), w.r.logs[seg], RowsOf(w, seg))
  {
    var w := Run(x, NewWorld(s, enabled), events);
    EverySessionIsSound(x, s, enabled, events);
    SessionFilePlays(x, w, seg, host, timing);
  }

  lemma SessionFilePlays<S(!new)>(x: Session<S>, w: World<S>, seg: nat, host: S, timing: bool)
    requires SessionOk(x) && WorldOk(x, w) && seg in w.r.logs && LatchFits(RowsOf(w, seg), timing)
    ensures PlaysAsRecorded(Playback(x, w.r.logs[seg], BlobOf(w.r, seg), host, timing), w.r.logs[seg], RowsOf(w, seg))
  {
    FilePlays(x, w.r.logs[seg], BlobOf(w.r, seg), RowsOf(w, seg), host, timing);
  }
}
