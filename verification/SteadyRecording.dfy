/** Progress over whole sessions: how large a session gets, which frames it records, and that an
    undisturbed one records them all. */
module SteadyRecording {
  import opened Bytes
  import opened HistoryRing
  import opened ReplayLog
  import opened Machine
  import opened Recorder
  import opened RecorderSafety
  import opened RecorderProgress
  import opened History
  import opened RecordPlayback

  // ----- how large a session gets

  /** No segment has more than 600 frames, and the row counter counts the open one's. */
  predicate Paced<S>(w: World<S>) {
    && (forall s :: s in w.rows ==> |w.rows[s]| <= SEGMENT_FRAMES)
    && w.r.rows <= SEGMENT_FRAMES
    && (w.r.recording ==> |RowsOf(w, w.r.ring.segment)| == w.r.rows)
  }

  lemma PacedBegin<S(!new)>(x: Session<S>, w: World<S>, b: Boundary, env: Env, q: State)
    requires ConfigOk(x.config) && WorldOk(x, w) && !w.hung && Paced(w) && q == Begin(x.config, w.r, b, env)
    ensures q.rows <= SEGMENT_FRAMES
    ensures q.pending <==> q.recording
    ensures q.pending ==> !q.failed && q.rows < SEGMENT_FRAMES && |RowsOf(w, q.ring.segment)| == q.rows
  {
    BeginSound(x.config, w.r, b, env);
    RowsOfBegin(x.config, w.r, b, env);
  }

  lemma PacedTick<S(!new)>(x: Session<S>, w: World<S>, e: Event<S>)
    requires SessionOk(x) && WorldOk(x, w) && !w.hung && Paced(w) && e.Tick?
    ensures Paced(TickWorld(x, w, e))
  {
    var b := BoundaryOf(x, e.now, e.word, e.settings);
    PacedBegin(x, w, b, e.env, Begin(x.config, w.r, b, e.env));
  }

  lemma PacedStep<S(!new)>(x: Session<S>, w: World<S>, e: Event<S>)
    requires SessionOk(x) && WorldOk(x, w) && Paced(w)
    ensures Paced(Apply(x, w, e))
  {
    if !w.hung {
      match e {
        case Tick(_, _, _, _, _) => PacedTick(x, w, e);
        case Hang(now, word, settings, env) =>
          PacedBegin(x, w, BoundaryOf(x, now, word, settings), env,
                     Begin(x.config, w.r, BoundaryOf(x, now, word, settings), env));
        case _ =>
      }
    }
  }

  lemma {:induction false} RunPaced<S(!new)>(x: Session<S>, w: World<S>, events: seq<Event<S>>)
    requires SessionOk(x) && WorldOk(x, w) && HonestRun(x, w, events) && Paced(w)
    ensures Paced(Run(x, w, events))
    decreases |events|
  {
    if events != [] {
      ApplyOk(x, w, events[0]);
      PacedStep(x, w, events[0]);
      RunPaced(x, Apply(x, w, events[0]), events[1..]);
    }
  }

  lemma {:induction false} WithinRange(keys: set<nat>, lo: nat, n: nat)
    requires forall s :: s in keys ==> lo <= s < lo + n
    ensures |keys| <= n
  {
    if n == 0 {
      assert keys == {};
    } else {
      WithinRange(keys - {lo + n - 1}, lo, n - 1);
      assert |keys| <= |keys - {lo + n - 1}| + 1;
    }
  }

  /** However long a session runs, it leaves at most 360 files of at most 600 frames each: an hour. */
  lemma EverySessionIsBounded<S(!new)>(x: Session<S>, s: S, enabled: bool, events: seq<Event<S>>)
    requires SessionOk(x) && HonestRun(x, NewWorld(s, enabled), events)
    ensures var w := Run(x, NewWorld(s, enabled), events);
            && |w.r.logs| <= 360
            && forall seg :: |RowsOf(w, seg)| <= 600
  {
    var w := Run(x, NewWorld(s, enabled), events);
    InitialSound(x.config, enabled);
    RunPaced(x, NewWorld(s, enabled), events);
    EverySessionIsSound(x, s, enabled, events);
    DiskWithinLimit(x.config, w.r);
    WithinRange(w.r.logs.Keys, w.r.ring.oldest, SEGMENTS);
  }

  // ----- which frames are recorded

  /** The frame became the last row of the segment it belongs to, and nothing else changed. */
  predicate RowAdded<S(==)>(x: Session<S>, w: World<S>, e: Event<S>, q: World<S>)
    requires e.Tick? && Booked(w.r)
  {
    var frame := x.machine.frame(e.now);
    var s := if NeedsSegment(x.config, w.r, frame, e.env) then w.r.ring.segment + 1 else w.r.ring.segment;
    var row := Row(NeedsCheckpoint(x.config, w.r, frame, e.env), e.now, e.word, e.settings,
                   x.machine.step(e.now, e.word, e.settings));
    && q.r.recording && q.r.ring.segment == s
    && q.rows == w.rows[s := RowsOf(w, s) + [row]]
  }

  lemma PendingAdds<S(!new)>(x: Session<S>, w: World<S>, e: Event<S>, begun: State)
    requires e.Tick? && e.frameOk && Booked(w.r)
    requires begun == Begin(x.config, w.r, BoundaryOf(x, e.now, e.word, e.settings), e.env)
    requires begun.pending ==> RecordsInput(x.config, w.r, BoundaryOf(x, e.now, e.word, e.settings), e.env, begun)
    requires !begun.pending ==> !begun.recording
    ensures if begun.pending then RowAdded(x, w, e, TickWorld(x, w, e))
            else TickWorld(x, w, e).rows == w.rows && !TickWorld(x, w, e).r.recording
  {
  }

  /** A completed frame is recorded if and only if it can be. */
  lemma TickRecorded<S(!new)>(x: Session<S>, w: World<S>, e: Event<S>)
    requires SessionOk(x) && WorldOk(x, w) && !w.hung && e.Tick? && e.frameOk && Unstuck(w.r, e.env)
    requires w.r.ring.segment + 1 in e.env.stuck ==> e.env.stuck[w.r.ring.segment + 1] >= 5
    ensures var q := TickWorld(x, w, e);
            if CanRecord(x.config, w.r, BoundaryOf(x, e.now, e.word, e.settings), e.env) then RowAdded(x, w, e, q)
            else q.rows == w.rows && !q.r.recording
  {
    var b := BoundaryOf(x, e.now, e.word, e.settings);
    var begun := Begin(x.config, w.r, b, e.env);
    BeginSound(x.config, w.r, b, e.env);
    RecordsIffPossible(x.config, w.r, b, e.env);
    PendingAdds(x, w, e, begun);
  }

  // ----- an undisturbed session

  datatype Frame = Frame(word: nat, settings: Settings)

  function StateAfter<S>(x: Session<S>, s: S, frames: seq<Frame>, k: nat): S
    requires k <= |frames|
  {
    if k == 0 then s
    else x.machine.step(StateAfter(x, s, frames, k - 1), frames[k - 1].word, frames[k - 1].settings)
  }

  /** Frame k of the session as a row of its segment: every 600th frame is checkpointed. */
  function FrameRow<S>(x: Session<S>, s: S, frames: seq<Frame>, k: nat): Row<S>
    requires k < |frames|
  {
    Row(k % 600 == 0, StateAfter(x, s, frames, k), frames[k].word, frames[k].settings,
        StateAfter(x, s, frames, k + 1))
  }

  /** What segment `seg` holds after n frames. */
  function SegmentRows<S>(x: Session<S>, s: S, frames: seq<Frame>, n: nat, seg: nat): seq<Row<S>>
    requires n <= |frames| && seg >= 1
  {
    var lo := 600 * (seg - 1);
    var hi := if n < lo + 600 then n else lo + 600;
    if hi <= lo then [] else seq(hi - lo, i requires 0 <= i < hi - lo => FrameRow(x, s, frames, lo + i))
  }

  /** The number of segments that n frames take. */
  function SegmentCount(n: nat): nat {
    (n + 599) / 600
  }

  predicate FramesOk<S>(x: Session<S>, frames: seq<Frame>) {
    && (forall k :: 0 <= k < |frames| ==> frames[k].word < U32 && WidthLegal(x.extraMax, frames[k].settings.width))
    && (forall k :: 0 < k < |frames| ==> frames[k - 1].settings.timing ==> frames[k].settings.timing)
  }

  ghost predicate SmallMachine<S(!new)>(x: Session<S>) {
    forall s :: 0 < |x.machine.save(s)| <= SNAPSHOT_LIMIT
  }

  function SteadyTick<S>(x: Session<S>, s: S, frames: seq<Frame>, k: nat): Event<S>
    requires k < |frames|
  {
    Tick(StateAfter(x, s, frames, k), frames[k].word, frames[k].settings, Quiet(), true)
  }

  /** The first n frames, each run from where the one before it ended, with nothing failing. */
  function SteadyEvents<S>(x: Session<S>, s: S, frames: seq<Frame>, n: nat): seq<Event<S>>
    requires n <= |frames|
  {
    if n == 0 then [] else SteadyEvents(x, s, frames, n - 1) + [SteadyTick(x, s, frames, n - 1)]
  }

  lemma {:induction false} RunSnoc<S(!new)>(x: Session<S>, w: World<S>, events: seq<Event<S>>, e: Event<S>)
    requires Booked(w.r) && HonestRun(x, w, events) && Honest(x, Run(x, w, events), e)
    ensures HonestRun(x, w, events + [e])
    ensures Run(x, w, events + [e]) == Apply(x, Run(x, w, events), e)
    decreases |events|
  {
    if events == [] {
      assert events + [e] == [e];
      assert Run(x, Apply(x, w, e), []) == Apply(x, w, e);
    } else {
      assert (events + [e])[0] == events[0] && (events + [e])[1..] == events[1..] + [e];
      RunSnoc(x, Apply(x, w, events[0]), events[1..], e);
    }
  }

  /** After n undisturbed frames: the recorder is up to date. */
  predicate Current<S(==)>(x: Session<S>, s: S, frames: seq<Frame>, n: nat, w: World<S>)
    requires n <= |frames|
  {
    && !w.hung && !w.r.failed
    && w.last == StateAfter(x, s, frames, n)
    && w.timing == (n > 0 && frames[n - 1].settings.timing)
    && w.r.ring.segment == SegmentCount(n)
    && w.r.generation == 0 && w.r.loads == w.r.recordedLoads
    && (n > 0 ==>
          && w.r.recording && w.r.nextFrame == x.machine.frame(w.last)
          && w.r.rows == n - SEGMENT_FRAMES * (SegmentCount(n) - 1))
  }

  /** Every segment that is still on the books has its log, which holds exactly its frames. */
  predicate Complete<S(==)>(x: Session<S>, s: S, frames: seq<Frame>, n: nat, w: World<S>)
    requires n <= |frames|
  {
    && (forall seg :: 1 <= seg <= SegmentCount(n) ==> RowsOf(w, seg) == SegmentRows(x, s, frames, n, seg))
    && LogsComplete(x, w)
  }

  predicate LogComplete<S(==)>(x: Session<S>, w: World<S>, seg: nat) {
    seg in w.r.logs && w.r.logs[seg] == Emit(x.machine, RowsOf(w, seg))
  }

  predicate LogsComplete<S(==)>(x: Session<S>, w: World<S>) {
    forall seg :: w.r.ring.oldest <= seg <= w.r.ring.segment ==> LogComplete(x, w, seg)
  }

  lemma NextCount(n: nat)
    ensures SegmentCount(n + 1) == if n % SEGMENT_FRAMES == 0 then SegmentCount(n) + 1 else SegmentCount(n)
    ensures n > 0 ==> 0 < n - SEGMENT_FRAMES * (SegmentCount(n) - 1) <= SEGMENT_FRAMES
    ensures n > 0 ==> (n - SEGMENT_FRAMES * (SegmentCount(n) - 1) == SEGMENT_FRAMES <==> n % SEGMENT_FRAMES == 0)
    ensures n % SEGMENT_FRAMES == 0 ==> n == SEGMENT_FRAMES * SegmentCount(n)
  {
  }

  /** One more frame only extends the rows of the segment it falls in. */
  lemma RowsGrow<S(!new)>(x: Session<S>, s: S, frames: seq<Frame>, n: nat, seg: nat)
    requires n < |frames| && 1 <= seg <= SegmentCount(n + 1)
    ensures SegmentRows(x, s, frames, n + 1, seg)
         == if seg == SegmentCount(n + 1) then SegmentRows(x, s, frames, n, seg) + [FrameRow(x, s, frames, n)]
            else SegmentRows(x, s, frames, n, seg)
    ensures n % SEGMENT_FRAMES == 0 ==> SegmentRows(x, s, frames, n, SegmentCount(n + 1)) == []
  {
    NextCount(n);
  }

  lemma SteadyHonest<S(!new)>(x: Session<S>, s: S, frames: seq<Frame>, n: nat, w: World<S>)
    requires SessionOk(x) && FramesOk(x, frames) && n < |frames| && Current(x, s, frames, n, w)
    ensures Honest(x, w, SteadyTick(x, s, frames, n))
  {
  }

  /** Only the first frame and every 600th after it need a segment, and nothing else a checkpoint. */
  lemma SteadyOpens<S(!new)>(x: Session<S>, s: S, frames: seq<Frame>, n: nat, w: World<S>)
    requires n < |frames| && Sound(x.config, w.r) && Current(x, s, frames, n, w)
    ensures NeedsSegment(x.config, w.r, x.machine.frame(StateAfter(x, s, frames, n)), Quiet()) <==> n % SEGMENT_FRAMES == 0
    ensures Discontinuous(w.r, x.machine.frame(StateAfter(x, s, frames, n)), Quiet()) ==> n == 0
  {
    NextCount(n);
  }

  lemma SteadyNeeds<S(!new)>(x: Session<S>, s: S, frames: seq<Frame>, n: nat, w: World<S>)
    requires SessionOk(x) && SmallMachine(x) && x.config.autoRecord && FramesOk(x, frames) && n < |frames|
    requires WorldOk(x, w) && Current(x, s, frames, n, w)
    ensures var e := SteadyTick(x, s, frames, n);
            && Honest(x, w, e)
            && CanRecord(x.config, w.r, BoundaryOf(x, e.now, e.word, e.settings), e.env)
            && (NeedsSegment(x.config, w.r, x.machine.frame(e.now), e.env) <==> n % SEGMENT_FRAMES == 0)
            && (NeedsCheckpoint(x.config, w.r, x.machine.frame(e.now), e.env) <==> n % SEGMENT_FRAMES == 0)
  {
    var e := SteadyTick(x, s, frames, n);
    var b := BoundaryOf(x, e.now, e.word, e.settings);
    SteadyHonest(x, s, frames, n, w);
    SteadyOpens(x, s, frames, n, w);
    OpensIffPossible(x.config, w.r, b, e.env, Opened(x.config, w.r, b.frame, e.env));
  }

  lemma SteadyCurrent<S(!new)>(x: Session<S>, s: S, frames: seq<Frame>, n: nat, w: World<S>, q: World<S>)
    requires SessionOk(x) && n < |frames|
    requires WorldOk(x, w) && Current(x, s, frames, n, w) && WorldOk(x, q) && Paced(q)
    requires q == TickWorld(x, w, SteadyTick(x, s, frames, n))
    requires RowAdded(x, w, SteadyTick(x, s, frames, n), q)
    requires NeedsSegment(x.config, w.r, x.machine.frame(w.last), Quiet()) <==> n % SEGMENT_FRAMES == 0
    requires RowsOf(q, q.r.ring.segment) == SegmentRows(x, s, frames, n + 1, SegmentCount(n + 1))
    ensures Current(x, s, frames, n + 1, q)
  {
    var e := SteadyTick(x, s, frames, n);
    var b := BoundaryOf(x, e.now, e.word, e.settings);
    NextCount(n);
    BeginMarks(x.config, w.r, b, e.env);
  }

  lemma SteadyRow<S(!new)>(x: Session<S>, s: S, frames: seq<Frame>, n: nat, w: World<S>, q: World<S>)
    requires n < |frames| && w.r.ring.segment == SegmentCount(n) && Booked(w.r)
    requires RowAdded(x, w, SteadyTick(x, s, frames, n), q)
    requires NeedsSegment(x.config, w.r, x.machine.frame(StateAfter(x, s, frames, n)), Quiet()) <==> n % SEGMENT_FRAMES == 0
    requires NeedsCheckpoint(x.config, w.r, x.machine.frame(StateAfter(x, s, frames, n)), Quiet()) <==> n % SEGMENT_FRAMES == 0
    ensures q.r.ring.segment == SegmentCount(n + 1)
    ensures q.rows == w.rows[SegmentCount(n + 1) := RowsOf(w, SegmentCount(n + 1)) + [FrameRow(x, s, frames, n)]]
  {
    NextCount(n);
  }

  /** Frame n extends the rows of its segment, and no others. */
  lemma SteadyRows<S(!new)>(x: Session<S>, s: S, frames: seq<Frame>, n: nat, w: World<S>, q: World<S>, seg: nat)
    requires n < |frames| && Complete(x, s, frames, n, w) && 1 <= seg <= SegmentCount(n + 1)
    requires forall t :: t in w.rows ==> t <= SegmentCount(n)
    requires q.rows == w.rows[SegmentCount(n + 1) := RowsOf(w, SegmentCount(n + 1)) + [FrameRow(x, s, frames, n)]]
    ensures RowsOf(q, seg) == SegmentRows(x, s, frames, n + 1, seg)
  {
    NextCount(n);
    RowsGrow(x, s, frames, n, seg);
  }

  lemma OpenComplete<S(!new)>(x: Session<S>, w: World<S>)
    requires WorldOk(x, w) && !w.hung && w.r.recording
    ensures LogComplete(x, w, w.r.ring.segment)
  {
    assert OpenOk(x, w);
  }

  /** The logs below the open segment are those of before, as far as they are still on the books. */
  predicate LogsKept<S(==)>(w: World<S>, q: World<S>) {
    && KeepsBelow(w.r, q.r)
    && forall seg :: 0 <= seg < q.r.ring.segment ==> RowsOf(q, seg) == RowsOf(w, seg)
  }

  lemma TickKept<S(!new)>(x: Session<S>, w: World<S>, e: Event<S>)
    requires SessionOk(x) && WorldOk(x, w) && !w.hung && e.Tick? && e.frameOk
    requires RowAdded(x, w, e, TickWorld(x, w, e))
    ensures LogsKept(w, TickWorld(x, w, e))
  {
    var b := BoundaryOf(x, e.now, e.word, e.settings);
    var begun := Begin(x.config, w.r, b, e.env);
    BeginSound(x.config, w.r, b, e.env);
    BegunKeepsBelow(x.config, w.r, b, e.env, begun);
    EndKeepsBelow(w.r, begun, ResultOf(x.machine, x.machine.step(e.now, e.word, e.settings)));
  }

  lemma EndKeepsBelow(r: State, begun: State, line: Line)
    requires KeepsBelow(r, begun)
    ensures KeepsBelow(r, End(begun, line, true))
  {
  }

  lemma KeptComplete<S(!new)>(x: Session<S>, w: World<S>, q: World<S>)
    requires LogsComplete(x, w) && LogsKept(w, q) && LogComplete(x, q, q.r.ring.segment)
    ensures LogsComplete(x, q)
  {
    forall seg | q.r.ring.oldest <= seg <= q.r.ring.segment
      ensures LogComplete(x, q, seg)
    {
      if seg < q.r.ring.segment {
        assert LogComplete(x, w, seg);
      }
    }
  }

  lemma SteadyComplete<S(!new)>(x: Session<S>, s: S, frames: seq<Frame>, n: nat, w: World<S>, q: World<S>)
    requires SessionOk(x) && n < |frames| && WorldOk(x, w) && !w.hung
    requires Complete(x, s, frames, n, w) && w.r.ring.segment == SegmentCount(n)
    requires q == TickWorld(x, w, SteadyTick(x, s, frames, n)) && WorldOk(x, q)
    requires RowAdded(x, w, SteadyTick(x, s, frames, n), q)
    requires NeedsSegment(x.config, w.r, x.machine.frame(StateAfter(x, s, frames, n)), Quiet()) <==> n % SEGMENT_FRAMES == 0
    requires NeedsCheckpoint(x.config, w.r, x.machine.frame(StateAfter(x, s, frames, n)), Quiet()) <==> n % SEGMENT_FRAMES == 0
    ensures Complete(x, s, frames, n + 1, q)
    ensures RowsOf(q, q.r.ring.segment) == SegmentRows(x, s, frames, n + 1, SegmentCount(n + 1))
  {
    NextCount(n);
    SteadyRow(x, s, frames, n, w, q);
    SteadyRows(x, s, frames, n, w, q, SegmentCount(n + 1));
    forall seg | 1 <= seg <= SegmentCount(n + 1)
      ensures RowsOf(q, seg) == SegmentRows(x, s, frames, n + 1, seg)
    {
      SteadyRows(x, s, frames, n, w, q, seg);
    }
    TickKept(x, w, SteadyTick(x, s, frames, n));
    OpenComplete(x, q);
    KeptComplete(x, w, q);
  }

  lemma SteadyStep<S(!new)>(x: Session<S>, s: S, frames: seq<Frame>, n: nat, w: World<S>, q: World<S>)
    requires SessionOk(x) && SmallMachine(x) && x.config.autoRecord && FramesOk(x, frames) && n < |frames|
    requires WorldOk(x, w) && Paced(w) && Current(x, s, frames, n, w) && Complete(x, s, frames, n, w)
    requires q == Apply(x, w, SteadyTick(x, s, frames, n))
    ensures Honest(x, w, SteadyTick(x, s, frames, n))
    ensures WorldOk(x, q) && Paced(q) && Current(x, s, frames, n + 1, q) && Complete(x, s, frames, n + 1, q)
  {
    var e := SteadyTick(x, s, frames, n);
    SteadyNeeds(x, s, frames, n, w);
    ApplyOk(x, w, e);
    PacedStep(x, w, e);
    TickRecorded(x, w, e);
    SteadyComplete(x, s, frames, n, w, q);
    SteadyCurrent(x, s, frames, n, w, q);
  }

  ghost predicate Steady<S(!new)>(x: Session<S>, s: S, frames: seq<Frame>, n: nat, w: World<S>)
    requires n <= |frames|
  {
    WorldOk(x, w) && Paced(w) && Current(x, s, frames, n, w) && Complete(x, s, frames, n, w)
  }

  /** The first n frames are an honest session and leave the recorder up to date. */
  ghost predicate RunsSteady<S(!new)>(x: Session<S>, s: S, enabled: bool, frames: seq<Frame>, n: nat)
    requires n <= |frames|
  {
    && HonestRun(x, NewWorld(s, enabled), SteadyEvents(x, s, frames, n))
    && Steady(x, s, frames, n, Run(x, NewWorld(s, enabled), SteadyEvents(x, s, frames, n)))
  }

  lemma SteadyRunNext<S(!new)>(x: Session<S>, s: S, enabled: bool, frames: seq<Frame>, n: nat)
    requires SessionOk(x) && SmallMachine(x) && x.config.autoRecord && FramesOk(x, frames) && n < |frames|
    requires RunsSteady(x, s, enabled, frames, n)
    ensures RunsSteady(x, s, enabled, frames, n + 1)
  {
    var start, events := NewWorld(s, enabled), SteadyEvents(x, s, frames, n);
    var e, w := SteadyTick(x, s, frames, n), Run(x, start, events);
    SteadyStep(x, s, frames, n, w, Apply(x, w, e));
    RunSnoc(x, start, events, e);
  }

  lemma SteadyStart<S(!new)>(x: Session<S>, s: S, enabled: bool, frames: seq<Frame>)
    ensures RunsSteady(x, s, enabled, frames, 0)
  {
    InitialSound(x.config, enabled);
  }

  lemma {:induction false} SteadyRuns<S(!new)>(x: Session<S>, s: S, enabled: bool, frames: seq<Frame>, n: nat)
    requires SessionOk(x) && SmallMachine(x) && x.config.autoRecord && FramesOk(x, frames) && n <= |frames|
    ensures RunsSteady(x, s, enabled, frames, n)
  {
    if n == 0 {
      SteadyStart(x, s, enabled, frames);
    } else {
      var m := n - 1;
      SteadyRuns(x, s, enabled, frames, m);
      SteadyRunNext(x, s, enabled, frames, m);
    }
  }

  lemma SteadyRun<S(!new)>(x: Session<S>, s: S, enabled: bool, frames: seq<Frame>, n: nat)
    requires SessionOk(x) && SmallMachine(x) && x.config.autoRecord && FramesOk(x, frames) && n <= |frames|
    ensures HonestRun(x, NewWorld(s, enabled), SteadyEvents(x, s, frames, n))
    ensures Steady(x, s, frames, n, Run(x, NewWorld(s, enabled), SteadyEvents(x, s, frames, n)))
  {
    SteadyRuns(x, s, enabled, frames, n);
  }

  /** Nothing is lost. After n undisturbed frames of any machine with legal checkpoints, under any
      inputs and settings, the session has taken one segment per 600 frames; every segment that the
      budget has not evicted is there, and playing it back from any machine runs through exactly its
      600 frames (the last one through what there is so far) and finishes. */
  lemma SteadySession<S(!new)>(x: Session<S>, s: S, enabled: bool, frames: seq<Frame>, seg: nat, host: S)
    requires SessionOk(x) && SmallMachine(x) && x.config.autoRecord && FramesOk(x, frames) && 1 <= seg
    ensures var n := |frames|;
            var w := Run(x, NewWorld(s, enabled), SteadyEvents(x, s, frames, n));
            && HonestRun(x, NewWorld(s, enabled), SteadyEvents(x, s, frames, n))
            && w.r.ring.segment == SegmentCount(n)
            && (w.r.ring.oldest <= seg <= SegmentCount(n) ==>
                  && seg in w.r.logs
                  && Replays(Playback(x, w.r.logs[seg], BlobOf(w.r, seg), host, false),
                             SegmentRows(x, s, frames, n, seg)))
  {
    var n := |frames|;
    SteadyRun(x, s, enabled, frames, n);
    var w := Run(x, NewWorld(s, enabled), SteadyEvents(x, s, frames, n));
    if w.r.ring.oldest <= seg <= SegmentCount(n) {
      SteadyPlays(x, s, frames, n, w, seg, host);
    }
  }

  lemma SteadyPlays<S(!new)>(x: Session<S>, s: S, frames: seq<Frame>, n: nat, w: World<S>, seg: nat, host: S)
    requires SessionOk(x) && n <= |frames| && WorldOk(x, w) && Complete(x, s, frames, n, w)
    requires 1 <= w.r.ring.oldest <= seg <= SegmentCount(n) == w.r.ring.segment
    ensures LogComplete(x, w, seg)
    ensures Replays(Playback(x, w.r.logs[seg], BlobOf(w.r, seg), host, false), SegmentRows(x, s, frames, n, seg))
  {
    var rows := RowsOf(w, seg);
    assert LogComplete(x, w, seg) && rows != [];
    SessionFilePlays(x, w, seg, host, false);
    EmitEndsInResult(x.machine, rows);
  }

  // ----- how far back an undisturbed session reaches

  /** Every segment of the window of 360 is still on the books. */
  predicate Reaches<S>(w: World<S>, n: nat, bound: nat) {
    && Even(w.r.ring, bound)
    && w.r.ring.oldest == WindowStart(1, SegmentCount(n))
  }

  lemma SteadyReach<S(!new)>(x: Session<S>, s: S, frames: seq<Frame>, n: nat, w: World<S>, bound: nat)
    requires SessionOk(x) && SmallMachine(x) && x.config.autoRecord && FramesOk(x, frames) && n < |frames|
    requires WorldOk(x, w) && Current(x, s, frames, n, w) && Reaches(w, n, bound)
    requires |x.machine.save(StateAfter(x, s, frames, n))| <= bound && SEGMENTS * bound <= x.config.limit
    ensures Reaches(Apply(x, w, SteadyTick(x, s, frames, n)), n + 1, bound)
  {
    var e := SteadyTick(x, s, frames, n);
    var b := BoundaryOf(x, e.now, e.word, e.settings);
    SteadyNeeds(x, s, frames, n, w);
    RecordsIffPossible(x.config, w.r, b, e.env);
    BeginExact(x.config, w.r, b, e.env, bound);
    NextCount(n);
  }

  /** The world after n undisturbed frames. */
  function SteadyWorld<S>(x: Session<S>, s: S, enabled: bool, frames: seq<Frame>, n: nat): World<S>
    requires n <= |frames|
  {
    Run(x, NewWorld(s, enabled), SteadyEvents(x, s, frames, n))
  }

  lemma SteadyNext<S(!new)>(x: Session<S>, s: S, enabled: bool, frames: seq<Frame>, n: nat)
    requires SessionOk(x) && SmallMachine(x) && x.config.autoRecord && FramesOk(x, frames) && n < |frames|
    ensures var w := SteadyWorld(x, s, enabled, frames, n);
            && WorldOk(x, w) && Current(x, s, frames, n, w)
            && SteadyWorld(x, s, enabled, frames, n + 1) == Apply(x, w, SteadyTick(x, s, frames, n))
  {
    SteadyRun(x, s, enabled, frames, n);
    var w, e := SteadyWorld(x, s, enabled, frames, n), SteadyTick(x, s, frames, n);
    SteadyStep(x, s, frames, n, w, Apply(x, w, e));
    RunSnoc(x, NewWorld(s, enabled), SteadyEvents(x, s, frames, n), e);
  }

  predicate ReachesAfter<S>(x: Session<S>, s: S, enabled: bool, frames: seq<Frame>, n: nat, bound: nat)
    requires n <= |frames|
  {
    Reaches(SteadyWorld(x, s, enabled, frames, n), n, bound)
  }

  lemma ReachesAtStart<S(!new)>(x: Session<S>, s: S, enabled: bool, frames: seq<Frame>, bound: nat)
    ensures ReachesAfter(x, s, enabled, frames, 0, bound)
  {
  }

  lemma ReachesNext<S(!new)>(x: Session<S>, s: S, enabled: bool, frames: seq<Frame>, n: nat, bound: nat)
    requires SessionOk(x) && SmallMachine(x) && x.config.autoRecord && FramesOk(x, frames) && n < |frames|
    requires (forall t :: |x.machine.save(t)| <= bound) && SEGMENTS * bound <= x.config.limit
    requires ReachesAfter(x, s, enabled, frames, n, bound)
    ensures ReachesAfter(x, s, enabled, frames, n + 1, bound)
  {
    SteadyNext(x, s, enabled, frames, n);
    SteadyReach(x, s, frames, n, SteadyWorld(x, s, enabled, frames, n), bound);
  }

  lemma {:induction false} SteadyReaches<S(!new)>(x: Session<S>, s: S, enabled: bool, frames: seq<Frame>, n: nat, bound: nat)
    requires SessionOk(x) && SmallMachine(x) && x.config.autoRecord && FramesOk(x, frames) && n <= |frames|
    requires (forall t :: |x.machine.save(t)| <= bound) && SEGMENTS * bound <= x.config.limit
    ensures ReachesAfter(x, s, enabled, frames, n, bound)
  {
    if n == 0 {
      ReachesAtStart(x, s, enabled, frames, bound);
    } else {
      var m := n - 1;
      SteadyReaches(x, s, enabled, frames, m, bound);
      ReachesNext(x, s, enabled, frames, m, bound);
    }
  }

  /** The last 360 segments are there. If the limit has room for 360 checkpoints, an undisturbed
      session of n frames still holds exactly its segments from the first, or from the 359th before
      the last, on; and each of them plays back through exactly its frames. */
  lemma SteadyHour<S(!new)>(x: Session<S>, s: S, enabled: bool, frames: seq<Frame>, bound: nat, seg: nat, host: S)
    requires SessionOk(x) && SmallMachine(x) && x.config.autoRecord && FramesOk(x, frames)
    requires (forall t :: |x.machine.save(t)| <= bound) && 360 * bound <= x.config.limit
    ensures var n := |frames|;
            var w := Run(x, NewWorld(s, enabled), SteadyEvents(x, s, frames, n));
            && HonestRun(x, NewWorld(s, enabled), SteadyEvents(x, s, frames, n))
            && w.r.ring.oldest == (if SegmentCount(n) <= 360 then 1 else SegmentCount(n) - 360 + 1)
            && (w.r.ring.oldest <= seg <= SegmentCount(n) ==>
                  && seg in w.r.logs
                  && Replays(Playback(x, w.r.logs[seg], BlobOf(w.r, seg), host, false),
                             SegmentRows(x, s, frames, n, seg)))
  {
    SteadyReaches(x, s, enabled, frames, |frames|, bound);
    SteadyRun(x, s, enabled, frames, |frames|);
    if 1 <= seg {
      SteadySession(x, s, enabled, frames, seg, host);
    }
  }

  // ----- the assumptions can be met

  type Ticks = n: nat | n < U32

  function WordOf(low: Byte, high: Byte): Word {
    low as int + 0x100 * high as int
  }

  function Half(w: Word): (bytes: seq<Byte>)
    ensures |bytes| == 2 && WordOf(bytes[0], bytes[1]) == w
  {
    [w % 0x100, w / 0x100]
  }

  function TicksOf(bytes: seq<Byte>): (n: Ticks)
    requires |bytes| == 4
  {
    WordOf(bytes[0], bytes[1]) as int + U16 * WordOf(bytes[2], bytes[3]) as int
  }

  function BytesOf(n: Ticks): (bytes: seq<Byte>)
    ensures |bytes| == 4 && TicksOf(bytes) == n
  {
    Half(n % U16) + Half(n / U16)
  }

  /** A machine that only counts frames. */
  function Counter(): Machine<Ticks> {
    Machine((s: Ticks, word: nat, settings: Settings) => NextFrame(s) as Ticks,
            (s: Ticks) => BytesOf(s),
            (bytes: seq<Byte>) => if |bytes| == 4 then Some(TicksOf(bytes)) else None,
            (s: Ticks) => s as nat,
            (s: Ticks) => BytesOf(s), (s: Ticks) => [], (s: Ticks) => [], (s: Ticks) => [], (s: Ticks) => [])
  }

  /** What is assumed of machines and sessions is not contradictory. */
  lemma CounterIsFaithful(extraMax: nat, limit: nat)
    requires 256 + 2 * extraMax < 0x8000_0000 && SNAPSHOT_LIMIT <= limit <= HISTORY_LIMIT
    ensures var x := Session(Counter(), extraMax, Config(limit, true)); SessionOk(x) && SmallMachine(x)
  {
  }
}
