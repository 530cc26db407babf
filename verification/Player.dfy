/** The player half of src/mmx_replay.c: it restores checkpoints, re-executes recorded inputs and
    compares the digests. `Play` is the whole run under the host's Begin / execute / End loop. */
module Player {
  import opened Bytes
  import opened ReplayLog
  import opened Machine
  import Fnv

  const STATE_LIMIT: nat := 16 * 1024 * 1024
  const SNAPSHOT_LIMIT: nat := 2 * 1024 * 1024

  /** A capture to be played: the classified records, the checkpoint file, the widest legal
      margin of the host (kWsExtraMax) and the machine it runs on. */
  datatype Tape<!S> = Tape(machine: Machine<S>, extraMax: nat, log: seq<Line>, blob: seq<Byte>)

  /** `now` is the emulated machine, `timing` the one-way frame-timing latch of the engine. */
  datatype State<S> = State(
    pos: nat, checkpointed: bool, rows: nat, nextFrame: nat,
    pending: bool, finished: bool, failed: bool,
    timing: bool, now: S, word: nat, settings: Settings)

  function Start<S>(s: S, timing: bool): State<S> {
    State(0, false, 0, 0, false, false, false, timing, s, 0,
          Settings(false, false, false, false, 256))
  }

  function Fail<S>(p: State<S>): State<S> {
    p.(failed := true, pending := false)
  }

  predicate Stopped<S>(p: State<S>) {
    p.finished || p.failed
  }

  /** The bytes a checkpoint record names, when they are all there and their digest matches. */
  function CheckpointBytes(line: Line, blob: seq<Byte>): Option<seq<Byte>>
    requires line.Checkpoint?
  {
    if line.offset > STATE_LIMIT || line.size == 0 || line.size > SNAPSHOT_LIMIT ||
       line.offset + line.size > |blob| then None
    else
      var bytes := blob[line.offset..line.offset + line.size];
      if Fnv.Digest(bytes) == line.digest then Some(bytes) else None
  }

  /** The checkpoint half of playback_begin: it also needs a line after the checkpoint. */
  function Restore<S>(t: Tape<S>, p: State<S>): (q: State<S>)
    requires p.pos < |t.log| && t.log[p.pos].Checkpoint?
    ensures !q.failed ==> q.pos == p.pos + 1 < |t.log|
  {
    match CheckpointBytes(t.log[p.pos], t.blob)
    case None => Fail(p)
    case Some(bytes) =>
      match t.machine.load(bytes)
      case None => Fail(p)
      case Some(s) =>
        if p.pos + 1 == |t.log| then Fail(p.(now := s))
        else p.(pos := p.pos + 1, now := s, checkpointed := true)
  }

  /** The input half of playback_begin, on the line at `p.pos`. */
  function TakeInput<S>(t: Tape<S>, p: State<S>): (q: State<S>)
    requires p.pos < |t.log|
    ensures !q.failed ==> q.pos == p.pos + 1
  {
    var line := t.log[p.pos];
    if !p.checkpointed || !line.Input? || !FlagsLegal(line.flags) ||
       !WidthLegal(t.extraMax, line.width) || line.peer != 0 then Fail(p)
    else if line.frame != t.machine.frame(p.now) then Fail(p)
    else
      var settings := Decode(line.flags, line.width);
      var q := p.(settings := settings, timing := p.timing || settings.timing);
      if settings.timing != q.timing then Fail(q)
      else q.(pos := p.pos + 1, word := line.word, nextFrame := NextFrame(line.frame), pending := true)
  }

  /** MmxReplayBegin while playing; the header has been accepted. */
  function Begin<S>(t: Tape<S>, p: State<S>): (q: State<S>)
    ensures Stopped(p) ==> q == p
    ensures !Stopped(q) ==> p.pos < q.pos <= |t.log|
  {
    if Stopped(p) then p
    else if p.pos >= |t.log| then
      if p.rows == 0 then Fail(p) else p.(finished := true, pending := false)
    else
      var q := if t.log[p.pos].Checkpoint? then Restore(t, p) else p;
      if q.failed then q else TakeInput(t, q)
  }

  /** The host runs one frame with the word and the settings that Begin handed it. */
  function Execute<S>(t: Tape<S>, p: State<S>): State<S> {
    p.(now := t.machine.step(p.now, p.word, p.settings))
  }

  /** MmxReplayEnd while playing. */
  function End<S>(t: Tape<S>, p: State<S>): (q: State<S>)
    ensures Stopped(p) ==> q == p
    ensures q.pos >= p.pos
    ensures q.finished && !p.finished ==> q.pos == |t.log|
  {
    if !p.pending || Stopped(p) then p
    else if p.pos >= |t.log| || !t.log[p.pos].Result? || t.log[p.pos].after != p.nextFrame then Fail(p)
    else if t.machine.frame(p.now) != p.nextFrame || t.log[p.pos] != ResultOf(t.machine, p.now) then
      Fail(p.(pos := p.pos + 1))
    else
      p.(pos := p.pos + 1, rows := p.rows + 1, pending := false, finished := p.pos + 1 == |t.log|)
  }

  /** One executed and verified frame: `at` is the index of its input record. */
  datatype Shot<S> = Shot(at: nat, before: S, word: nat, settings: Settings, after: S)

  datatype Run<S> = Run(final: State<S>, shots: seq<Shot<S>>)

  function ShotOf<S>(t: Tape<S>, begun: State<S>): Shot<S>
    requires begun.pos > 0
  {
    Shot(begun.pos - 1, begun.now, begun.word, begun.settings, Execute(t, begun).now)
  }

  /** The host's loop: it stops as soon as Begin reports that the replay has ended. Frames that
      were executed are listed whether or not their digests matched. */
  function Play<S>(t: Tape<S>, p: State<S>): (r: Run<S>)
    ensures Stopped(r.final)
    decreases |t.log| - p.pos, if Stopped(p) then 0 else 1
  {
    var b := Begin(t, p);
    if Stopped(b) then Run(b, [])
    else
      var rest := Play(t, End(t, Execute(t, b)));
      Run(rest.final, [ShotOf(t, b)] + rest.shots)
  }

  /** Failure and completion are absorbing: no later call changes anything. */
  lemma StoppedIsAbsorbing<S>(t: Tape<S>, p: State<S>)
    requires Stopped(p)
    ensures Begin(t, p) == p && End(t, p) == p && Play(t, p) == Run(p, [])
  {
  }

  // ----- the certificate of a completed playback

  /** The checkpoint at `pos` is intact and restores machine `s`: it lies within the first 16 MiB, has
      up to 2 MiB, is all there, its digest is the recorded one, and the engine loads it. */
  predicate Restores<S(==)>(t: Tape<S>, pos: nat, s: S) {
    && pos < |t.log|
    && t.log[pos].Checkpoint?
    && var c := t.log[pos];
       && c.offset <= 0x100_0000 && 0 < c.size <= 0x20_0000 && c.offset + c.size <= |t.blob|
       && Fnv.Digest(t.blob[c.offset..c.offset + c.size]) == c.digest
       && t.machine.load(t.blob[c.offset..c.offset + c.size]) == Some(s)
  }

  /** Frame `shot` is licensed by the log: it starts from the machine it continues, or from an
      intact checkpoint just before its input record; the input is legal and names the machine's
      frame; and the record after it carries the digests of the machine that executing it gives. */
  predicate Licensed<S(==)>(t: Tape<S>, pos: nat, checkpointed: bool, now: S, timing: bool, shot: Shot<S>) {
    && (|| (shot.at == pos && checkpointed && shot.before == now)
        || (shot.at == pos + 1 && Restores(t, pos, shot.before)))
    && shot.at + 1 < |t.log|
    && 256 <= shot.settings.width <= 256 + 2 * t.extraMax && shot.settings.width % 2 == 0
    && t.log[shot.at] == Input(t.machine.frame(shot.before), shot.word, Policy(shot.settings),
                               shot.settings.width, 0)
    && (timing ==> shot.settings.timing)
    && shot.after == t.machine.step(shot.before, shot.word, shot.settings)
    && t.machine.frame(shot.after) == NextFrame(t.machine.frame(shot.before))
    && t.log[shot.at + 1] == ResultOf(t.machine, shot.after)
  }

  /** A certificate accounts for every record of the log from `pos` on: each frame is licensed by
      what the one before it left behind, and the last frame's digest record is the last record. */
  predicate CertifiedFrom<S(==)>(t: Tape<S>, pos: nat, checkpointed: bool, now: S, timing: bool,
                                 shots: seq<Shot<S>>)
    decreases |shots|
  {
    if shots == [] then pos == |t.log|
    else
      var shot := shots[0];
      && Licensed(t, pos, checkpointed, now, timing, shot)
      && CertifiedFrom(t, shot.at + 2, true, shot.after, shot.settings.timing, shots[1..])
  }

  predicate Certified<S(==)>(t: Tape<S>, s: S, timing: bool, shots: seq<Shot<S>>) {
    shots != [] && CertifiedFrom(t, 0, false, s, timing, shots)
  }

  /** A state between two frames of a running playback. */
  predicate Between<S>(p: State<S>) {
    !p.failed && !p.pending && !p.finished
  }

  /** What a frame that Begin let through must have read. */
  lemma TakenInput<S>(t: Tape<S>, p: State<S>)
    requires p.pos < |t.log| && !p.failed && !TakeInput(t, p).failed
    ensures var q := TakeInput(t, p);
            && p.checkpointed
            && WidthLegal(t.extraMax, q.settings.width)
            && t.log[p.pos] == Input(t.machine.frame(p.now), q.word, Policy(q.settings), q.settings.width, 0)
            && q == p.(pos := p.pos + 1, word := q.word, settings := q.settings, timing := q.settings.timing,
                       nextFrame := NextFrame(t.machine.frame(p.now)), pending := true)
            && (p.timing ==> q.settings.timing)
  {
    var line := t.log[p.pos];
    LegalIsPolicy(line.flags, line.width);
  }

  /** Conversely an input record printed from settings is taken with exactly those settings. */
  lemma TakesInput<S>(t: Tape<S>, p: State<S>, word: nat, settings: Settings)
    requires p.pos < |t.log| && p.checkpointed && !p.failed
    requires WidthLegal(t.extraMax, settings.width) && (p.timing ==> settings.timing)
    requires t.log[p.pos] == Input(t.machine.frame(p.now), word, Policy(settings), settings.width, 0)
    ensures TakeInput(t, p) ==
            p.(pos := p.pos + 1, word := word, settings := settings, timing := settings.timing,
               nextFrame := NextFrame(t.machine.frame(p.now)), pending := true)
  {
    PolicyDecodes(settings);
  }

  /** The machine and cursor that the input half of Begin starts from. */
  function Positioned<S>(t: Tape<S>, p: State<S>): State<S>
    requires p.pos < |t.log|
  {
    if t.log[p.pos].Checkpoint? then Restore(t, p) else p
  }

  /** End accepts a frame exactly when the next record is the digest record of the machine. */
  lemma EndAccepts<S>(t: Tape<S>, b: State<S>)
    requires b.pending && !Stopped(b) && b.pos > 0
    ensures var q := End(t, b);
            var accepted := b.pos < |t.log| && t.log[b.pos] == ResultOf(t.machine, b.now)
                            && t.machine.frame(b.now) == b.nextFrame;
            if accepted then
              q == b.(pos := b.pos + 1, rows := b.rows + 1, pending := false, finished := b.pos + 1 == |t.log|)
            else q.failed && !q.finished && !q.pending
  {
  }

  /** Begin lets a frame through from the machine it had, or from an intact checkpoint. */
  lemma BeginPositions<S>(t: Tape<S>, p: State<S>)
    requires Between(p) && !Stopped(Begin(t, p))
    ensures p.pos < |t.log|
    ensures var r := Positioned(t, p);
            && !r.failed && r.pos < |t.log| && Begin(t, p) == TakeInput(t, r)
            && (r == p || (r == p.(pos := p.pos + 1, now := r.now, checkpointed := true) && Restores(t, p.pos, r.now)))
  {
  }

  lemma ShotLicensed<S>(t: Tape<S>, p: State<S>, r: State<S>, b: State<S>)
    requires r.pos < |t.log|
    requires r == p || (r == p.(pos := p.pos + 1, now := r.now, checkpointed := true) && Restores(t, p.pos, r.now))
    requires r.checkpointed && (r.timing ==> b.settings.timing) && WidthLegal(t.extraMax, b.settings.width)
    requires t.log[r.pos] == Input(t.machine.frame(r.now), b.word, Policy(b.settings), b.settings.width, 0)
    requires b.pos == r.pos + 1 && b.now == r.now && b.nextFrame == NextFrame(t.machine.frame(r.now))
    requires b.pos < |t.log| && t.log[b.pos] == ResultOf(t.machine, Execute(t, b).now)
    requires t.machine.frame(Execute(t, b).now) == b.nextFrame
    ensures Licensed(t, p.pos, p.checkpointed, p.now, p.timing, ShotOf(t, b))
  {
  }

  /** One round of the host's loop either runs a licensed frame or ends the playback; and when a
      frame was executed without being licensed, the playback has failed. */
  lemma RoundLicenses<S>(t: Tape<S>, p: State<S>)
    requires Between(p) && !Stopped(Begin(t, p))
    ensures var shot := ShotOf(t, Begin(t, p));
            var q := End(t, Execute(t, Begin(t, p)));
            if q.failed then !q.finished
            else
              && Licensed(t, p.pos, p.checkpointed, p.now, p.timing, shot)
              && q.rows == p.rows + 1 && q.pos == shot.at + 2 && q.checkpointed && !q.pending
              && q.now == shot.after && q.timing == shot.settings.timing
              && q.finished == (q.pos == |t.log|)
  {
    BeginPositions(t, p);
    var r := Positioned(t, p);
    TakenInput(t, r);
    var b := Begin(t, p);
    EndAccepts(t, Execute(t, b));
    if !End(t, Execute(t, b)).failed {
      ShotLicensed(t, p, r, b);
    }
  }

  /** Conversely a licensed frame is executed, and its digests are accepted. */
  lemma LicensedRuns<S>(t: Tape<S>, p: State<S>, shot: Shot<S>)
    requires Between(p)
    requires Licensed(t, p.pos, p.checkpointed, p.now, p.timing, shot)
    ensures !Stopped(Begin(t, p)) && ShotOf(t, Begin(t, p)) == shot
    ensures var q := End(t, Execute(t, Begin(t, p)));
            && !q.failed && !q.pending && q.rows == p.rows + 1 && q.pos == shot.at + 2
            && q.checkpointed && q.now == shot.after && q.timing == shot.settings.timing
            && q.finished == (q.pos == |t.log|)
  {
    var r := Positioned(t, p);
    assert !r.failed && r.pos == shot.at && r.now == shot.before && r.checkpointed && r.timing == p.timing
           && r.rows == p.rows;
    TakesInput(t, r, shot.word, shot.settings);
    EndAccepts(t, Execute(t, Begin(t, p)));
  }

  lemma CertificateCons<S>(t: Tape<S>, pos: nat, ck: bool, now: S, timing: bool, shot: Shot<S>, rest: seq<Shot<S>>)
    requires Licensed(t, pos, ck, now, timing, shot)
    requires CertifiedFrom(t, shot.at + 2, true, shot.after, shot.settings.timing, rest)
    ensures CertifiedFrom(t, pos, ck, now, timing, [shot] + rest)
  {
    var all := [shot] + rest;
    assert all[0] == shot && all[1..] == rest;
  }

  /** The last record a certificate accounts for is a digest record. */
  lemma {:induction false} CertificateEnd<S>(t: Tape<S>, pos: nat, ck: bool, now: S, timing: bool, shots: seq<Shot<S>>)
    requires shots != [] && CertifiedFrom(t, pos, ck, now, timing, shots)
    ensures pos < |t.log| && t.log[|t.log| - 1].Result?
    decreases |shots|
  {
    var shot := shots[0];
    if |shots| > 1 {
      CertificateEnd(t, shot.at + 2, true, shot.after, shot.settings.timing, shots[1..]);
    }
  }

  lemma PlayRound<S>(t: Tape<S>, p: State<S>)
    requires !Stopped(Begin(t, p))
    ensures var rest := Play(t, End(t, Execute(t, Begin(t, p))));
            Play(t, p) == Run(rest.final, [ShotOf(t, Begin(t, p))] + rest.shots)
  {
  }

  /** Begin reports completion only at the end of the log, and only after a verified frame. */
  lemma BeginStops<S>(t: Tape<S>, p: State<S>)
    requires Between(p) && p.pos <= |t.log| && Stopped(Begin(t, p))
    ensures Play(t, p) == Run(Begin(t, p), [])
    ensures var b := Begin(t, p);
            if b.finished then !b.failed && p.pos == |t.log| && b.rows == p.rows > 0 else b.failed
  {
  }

  /** A run from `p` either failed, or finished with a certificate of everything it executed. */
  predicate Accounts<S(==)>(t: Tape<S>, p: State<S>, r: Run<S>) {
    if r.final.finished then
      && !r.final.failed
      && CertifiedFrom(t, p.pos, p.checkpointed, p.now, p.timing, r.shots)
      && r.final.rows == p.rows + |r.shots| > 0
    else r.final.failed
  }

  lemma AccountsRound<S>(t: Tape<S>, p: State<S>, q: State<S>, shot: Shot<S>, rest: Run<S>)
    requires !q.failed ==>
      && Licensed(t, p.pos, p.checkpointed, p.now, p.timing, shot)
      && q.rows == p.rows + 1 && q.pos == shot.at + 2 && q.checkpointed
      && q.now == shot.after && q.timing == shot.settings.timing
    requires Accounts(t, q, rest) && (q.failed ==> !rest.final.finished)
    ensures Accounts(t, p, Run(rest.final, [shot] + rest.shots))
  {
    if rest.final.finished {
      CertificateCons(t, p.pos, p.checkpointed, p.now, p.timing, shot, rest.shots);
    }
  }

  lemma {:induction false} FinishedIsCertified<S>(t: Tape<S>, p: State<S>)
    requires Between(p) && p.pos <= |t.log|
    ensures Accounts(t, p, Play(t, p))
    decreases |t.log| - p.pos
  {
    if Stopped(Begin(t, p)) {
      BeginStops(t, p);
    } else {
      var shot, q := ShotOf(t, Begin(t, p)), End(t, Execute(t, Begin(t, p)));
      RoundLicenses(t, p);
      PlayRound(t, p);
      if Stopped(q) {
        StoppedIsAbsorbing(t, q);
      } else {
        FinishedIsCertified(t, q);
      }
      AccountsRound(t, p, q, shot, Play(t, q));
    }
  }

  /** One certified frame: it is executed, and what is left is a certificate for the state after it. */
  lemma CertifiedRound<S>(t: Tape<S>, p: State<S>, shot: Shot<S>, rest: seq<Shot<S>>, q: State<S>)
    requires Between(p) && CertifiedFrom(t, p.pos, p.checkpointed, p.now, p.timing, [shot] + rest)
    requires q == End(t, Execute(t, Begin(t, p)))
    ensures Licensed(t, p.pos, p.checkpointed, p.now, p.timing, shot)
    ensures !q.failed && !q.pending && q.rows > 0 && (q.finished <==> rest == [])
    ensures CertifiedFrom(t, q.pos, q.checkpointed, q.now, q.timing, rest)
  {
    assert ([shot] + rest)[0] == shot && ([shot] + rest)[1..] == rest;
    LicensedRuns(t, p, shot);
    if rest != [] {
      CertificateEnd(t, shot.at + 2, true, shot.after, shot.settings.timing, rest);
    }
  }

  lemma {:induction false} CertifiedFinishes<S>(t: Tape<S>, p: State<S>, shots: seq<Shot<S>>)
    requires Between(p) && (p.rows > 0 || shots != [])
    requires CertifiedFrom(t, p.pos, p.checkpointed, p.now, p.timing, shots)
    ensures Play(t, p).final.finished && Play(t, p).shots == shots
    decreases |shots|
  {
    if shots != [] {
      var shot, rest, q := shots[0], shots[1..], End(t, Execute(t, Begin(t, p)));
      assert [shot] + rest == shots;
      CertifiedRound(t, p, shot, rest, q);
      LicensedRuns(t, p, shot);
      if q.finished {
        StoppedIsAbsorbing(t, q);
      } else {
        CertifiedFinishes(t, q, rest);
      }
      PlayRound(t, p);
    }
  }

  /** Playback neither over-reports nor under-reports. For every log, checkpoint file, machine and
      starting state, it finishes exactly when some certificate accounts for the whole log, the
      certificate is then the list of frames it executed, and otherwise it ends failed. */
  lemma FinishedIffCertified<S>(t: Tape<S>, s: S, timing: bool)
    ensures var r := Play(t, Start(s, timing));
            && r.final.finished != r.final.failed
            && (r.final.finished ==> Certified(t, s, timing, r.shots) && r.final.rows == |r.shots|)
            && (forall shots :: Certified(t, s, timing, shots) ==> r.final.finished && r.shots == shots)
  {
    var p := Start(s, timing);
    FinishedIsCertified(t, p);
    forall shots | Certified(t, s, timing, shots)
      ensures Play(t, p).final.finished && Play(t, p).shots == shots
    {
      CertifiedFinishes(t, p, shots);
    }
  }

  /** A log whose last record is not a digest record never finishes: an input that was recorded
      but whose frame did not complete is reported as a failure. */
  lemma FinishedEndsInResult<S>(t: Tape<S>, s: S, timing: bool)
    ensures var r := Play(t, Start(s, timing));
            r.final.finished ==> |t.log| > 0 && t.log[|t.log| - 1].Result?
  {
    FinishedIffCertified(t, s, timing);
    var r := Play(t, Start(s, timing));
    if r.final.finished {
      CertificateEnd(t, 0, false, s, timing, r.shots);
    }
  }
}
