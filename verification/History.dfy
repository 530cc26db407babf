/** What a recorded segment stands for: the frames that were executed, and the log and checkpoint
    file that recording them produces. Playing such a file back re-executes exactly those frames. */
module History {
  import opened Bytes
  import opened ReplayLog
  import opened Machine
  import opened Player
  import Recorder

  /** One executed frame; `checkpoint` tells whether the machine was saved before it. */
  datatype Row<S> = Row(checkpoint: bool, before: S, word: nat, settings: Settings, after: S)

  function InputOf<S>(m: Machine<S>, row: Row<S>): Line {
    Input(m.frame(row.before), row.word, Policy(row.settings), row.settings.width, 0)
  }

  function RowLines<S>(m: Machine<S>, offset: nat, row: Row<S>): seq<Line> {
    (if row.checkpoint then [Recorder.CheckpointLine(offset, m.save(row.before))] else [])
    + [InputOf(m, row), ResultOf(m, row.after)]
  }

  /** The checkpoint file of a list of frames. */
  function Blob<S>(m: Machine<S>, rows: seq<Row<S>>): seq<Byte> {
    if rows == [] then []
    else
      var n := |rows| - 1;
      Blob(m, rows[..n]) + (if rows[n].checkpoint then m.save(rows[n].before) else [])
  }

  /** The log of a list of frames. */
  function Emit<S>(m: Machine<S>, rows: seq<Row<S>>): seq<Line> {
    if rows == [] then []
    else
      var n := |rows| - 1;
      Emit(m, rows[..n]) + RowLines(m, |Blob(m, rows[..n])|, rows[n])
  }

  /** Frame k of a segment: it continues frame k-1 unless it was checkpointed, the first frame
      always is, checkpoints are of legal size, and the timing latch never goes back. */
  predicate RowFits<S(==)>(m: Machine<S>, extraMax: nat, rows: seq<Row<S>>, k: nat)
    requires k < |rows|
  {
    var row := rows[k];
    && row.after == m.step(row.before, row.word, row.settings)
    && row.word < U32
    && WidthLegal(extraMax, row.settings.width)
    && (!row.checkpoint ==> k > 0 && row.before == rows[k - 1].after)
    && (k > 0 && rows[k - 1].settings.timing ==> row.settings.timing)
    && (row.checkpoint ==> 0 < |m.save(row.before)| <= SNAPSHOT_LIMIT)
  }

  predicate WellFormed<S(==)>(m: Machine<S>, extraMax: nat, rows: seq<Row<S>>) {
    && (forall k :: 0 <= k < |rows| ==> RowFits(m, extraMax, rows, k))
    && |Blob(m, rows)| <= STATE_LIMIT
  }

  // ----- prefixes

  lemma {:induction false} PrefixEmit<S(!new)>(m: Machine<S>, rows: seq<Row<S>>, k: nat)
    requires k <= |rows|
    ensures Emit(m, rows[..k]) <= Emit(m, rows) && Blob(m, rows[..k]) <= Blob(m, rows)
    decreases |rows|
  {
    if k == |rows| {
      assert rows[..k] == rows;
    } else {
      var n := |rows| - 1;
      assert rows[..n][..k] == rows[..k];
      PrefixEmit(m, rows[..n], k);
    }
  }

  lemma PrefixFits<S(!new)>(m: Machine<S>, extraMax: nat, rows: seq<Row<S>>, k: nat)
    requires WellFormed(m, extraMax, rows) && k <= |rows|
    ensures WellFormed(m, extraMax, rows[..k])
  {
    PrefixEmit(m, rows, k);
    forall j | 0 <= j < k
      ensures RowFits(m, extraMax, rows[..k], j)
    {
      assert RowFits(m, extraMax, rows, j);
    }
  }

  /** Where the records of frame k start in the log. */
  function Offset<S>(m: Machine<S>, rows: seq<Row<S>>, k: nat): nat
    requires k <= |rows|
  {
    |Emit(m, rows[..k])|
  }

  lemma RowInLog<S(!new)>(m: Machine<S>, rows: seq<Row<S>>, k: nat)
    requires k < |rows|
    ensures var at := Offset(m, rows, k);
            var lines := RowLines(m, |Blob(m, rows[..k])|, rows[k]);
            && Offset(m, rows, k + 1) == at + |lines| <= |Emit(m, rows)|
            && forall i :: 0 <= i < |lines| ==> Emit(m, rows)[at + i] == lines[i]
  {
    assert rows[..k + 1][..k] == rows[..k] && rows[..k + 1][k] == rows[k];
    PrefixEmit(m, rows, k + 1);
    var lines := RowLines(m, |Blob(m, rows[..k])|, rows[k]);
    assert Emit(m, rows[..k + 1]) == Emit(m, rows[..k]) + lines;
    forall i | 0 <= i < |lines|
      ensures Emit(m, rows)[Offset(m, rows, k) + i] == lines[i]
    {
      assert Emit(m, rows)[Offset(m, rows, k) + i] == Emit(m, rows[..k + 1])[Offset(m, rows, k) + i];
    }
  }

  lemma RowInBlob<S(!new)>(m: Machine<S>, rows: seq<Row<S>>, k: nat)
    requires k < |rows| && rows[k].checkpoint
    ensures var from := |Blob(m, rows[..k])|;
            var to := from + |m.save(rows[k].before)|;
            to <= |Blob(m, rows)| && Blob(m, rows)[from..to] == m.save(rows[k].before)
  {
    assert rows[..k + 1][..k] == rows[..k] && rows[..k + 1][k] == rows[k];
    PrefixEmit(m, rows, k + 1);
    assert Blob(m, rows[..k + 1]) == Blob(m, rows[..k]) + m.save(rows[k].before);
  }

  // ----- a recorded segment has a certificate

  /** The frame that the player will report for row k. */
  function ShotAt<S>(m: Machine<S>, rows: seq<Row<S>>, k: nat): Shot<S>
    requires k < |rows|
  {
    var row := rows[k];
    Shot(Offset(m, rows, k + 1) - 2, row.before, row.word, row.settings, row.after)
  }

  function Shots<S>(m: Machine<S>, rows: seq<Row<S>>, k: nat): (shots: seq<Shot<S>>)
    requires k <= |rows|
    ensures |shots| == |rows| - k
    ensures forall i :: 0 <= i < |shots| ==> shots[i] == ShotAt(m, rows, k + i)
    decreases |rows| - k
  {
    if k == |rows| then [] else [ShotAt(m, rows, k)] + Shots(m, rows, k + 1)
  }

  /** A tape that starts with the segment's records and has at least its checkpoint bytes. */
  predicate Carries<S(==)>(t: Tape<S>, rows: seq<Row<S>>) {
    Emit(t.machine, rows) <= t.log && Blob(t.machine, rows) <= t.blob
  }

  lemma SavedRestores<S(!new)>(t: Tape<S>, at: nat, from: nat, s: S)
    requires Faithful(t.machine) && at < |t.log|
    requires var bytes := t.machine.save(s);
             && t.log[at] == Recorder.CheckpointLine(from, bytes)
             && from <= STATE_LIMIT && 0 < |bytes| <= SNAPSHOT_LIMIT && from + |bytes| <= |t.blob|
             && t.blob[from..from + |bytes|] == bytes
    ensures Restores(t, at, s)
  {
  }

  lemma CheckpointRestores<S(!new)>(t: Tape<S>, rows: seq<Row<S>>, k: nat)
    requires Faithful(t.machine) && Carries(t, rows) && WellFormed(t.machine, t.extraMax, rows)
    requires k < |rows| && rows[k].checkpoint
    ensures Restores(t, Offset(t.machine, rows, k), rows[k].before)
  {
    var m, bytes := t.machine, t.machine.save(rows[k].before);
    RowInLog(m, rows, k);
    RowInBlob(m, rows, k);
    assert RowFits(m, t.extraMax, rows, k);
    var from, at := |Blob(m, rows[..k])|, Offset(m, rows, k);
    var lines := RowLines(m, from, rows[k]);
    assert lines[0] == Recorder.CheckpointLine(from, bytes);
    assert t.log[at] == Emit(m, rows)[at + 0] == lines[0];
    assert t.blob[from..from + |bytes|] == Blob(m, rows)[from..from + |bytes|];
    SavedRestores(t, at, from, rows[k].before);
  }

  lemma RowLinesEnd<S(!new)>(m: Machine<S>, offset: nat, row: Row<S>)
    ensures var lines := RowLines(m, offset, row);
            var n := if row.checkpoint then 1 else 0;
            |lines| == n + 2 && lines[n] == InputOf(m, row) && lines[n + 1] == ResultOf(m, row.after)
  {
  }

  /** The input and digest records of row k, behind its checkpoint record if it has one. */
  lemma RowOnTape<S(!new)>(t: Tape<S>, rows: seq<Row<S>>, k: nat)
    requires Carries(t, rows) && k < |rows|
    ensures var at := Offset(t.machine, rows, k + 1) - 2;
            && 0 <= at == Offset(t.machine, rows, k) + (if rows[k].checkpoint then 1 else 0)
            && at + 1 < |t.log|
            && t.log[at] == InputOf(t.machine, rows[k])
            && t.log[at + 1] == ResultOf(t.machine, rows[k].after)
  {
    var m, first := t.machine, Offset(t.machine, rows, k);
    var lines := RowLines(m, |Blob(m, rows[..k])|, rows[k]);
    RowInLog(m, rows, k);
    RowLinesEnd(m, |Blob(m, rows[..k])|, rows[k]);
    var n := |lines| - 2;
    assert Emit(m, rows)[first + n] == lines[n];
    assert Emit(m, rows)[first + (n + 1)] == lines[n + 1];
  }

  lemma RowLicensed<S(!new)>(t: Tape<S>, rows: seq<Row<S>>, k: nat, ck: bool, now: S, timing: bool)
    requires Faithful(t.machine) && Carries(t, rows) && WellFormed(t.machine, t.extraMax, rows)
    requires k < |rows|
    requires k > 0 ==> ck && now == rows[k - 1].after && timing == rows[k - 1].settings.timing
    requires k == 0 ==> (timing ==> rows[0].settings.timing)
    ensures Licensed(t, Offset(t.machine, rows, k), ck, now, timing, ShotAt(t.machine, rows, k))
  {
    RowOnTape(t, rows, k);
    assert RowFits(t.machine, t.extraMax, rows, k);
    if rows[k].checkpoint {
      CheckpointRestores(t, rows, k);
    }
  }

  lemma {:induction false} RowsCertified<S(!new)>(t: Tape<S>, rows: seq<Row<S>>, k: nat, ck: bool, now: S, timing: bool)
    requires Faithful(t.machine) && Carries(t, rows) && WellFormed(t.machine, t.extraMax, rows)
    requires k <= |rows| && |t.log| == |Emit(t.machine, rows)|
    requires k > 0 ==> ck && now == rows[k - 1].after && timing == rows[k - 1].settings.timing
    requires k == 0 && rows != [] ==> (timing ==> rows[0].settings.timing)
    ensures CertifiedFrom(t, Offset(t.machine, rows, k), ck, now, timing, Shots(t.machine, rows, k))
    decreases |rows| - k
  {
    if k == |rows| {
      assert rows[..k] == rows;
    } else {
      var shot := ShotAt(t.machine, rows, k);
      RowLicensed(t, rows, k, ck, now, timing);
      RowsCertified(t, rows, k + 1, true, shot.after, shot.settings.timing);
      RowInLog(t.machine, rows, k);
      CertificateCons(t, Offset(t.machine, rows, k), ck, now, timing, shot, Shots(t.machine, rows, k + 1));
    }
  }

  /** A completed playback that executed exactly these frames: same inputs, same settings, same
      machine before and after each of them. */
  predicate Replays<S(==)>(run: Run<S>, rows: seq<Row<S>>) {
    && run.final.finished && !run.final.failed
    && run.final.rows == |run.shots| == |rows|
    && forall k :: 0 <= k < |rows| ==>
         && run.shots[k].before == rows[k].before && run.shots[k].after == rows[k].after
         && run.shots[k].word == rows[k].word && run.shots[k].settings == rows[k].settings
  }

  /** Record and playback. A recorded segment, played from any machine state on a player whose
      timing latch is not ahead of the recording, finishes, and executes the recorded frames. */
  lemma RecordedSegmentPlays<S(!new)>(t: Tape<S>, rows: seq<Row<S>>, s: S, timing: bool)
    requires Faithful(t.machine) && WellFormed(t.machine, t.extraMax, rows) && rows != []
    requires t.log == Emit(t.machine, rows) && Blob(t.machine, rows) <= t.blob
    requires timing ==> rows[0].settings.timing
    ensures Replays(Play(t, Start(s, timing)), rows)
  {
    RowsCertified(t, rows, 0, false, s, timing);
    assert rows[..0] == [];
    assert Certified(t, s, timing, Shots(t.machine, rows, 0));
    FinishedIffCertified(t, s, timing);
  }

  lemma FirstShotTiming<S(!new)>(t: Tape<S>, rows: seq<Row<S>>, s: S, shot: Shot<S>)
    requires WellFormed(t.machine, t.extraMax, rows) && rows != [] && Carries(t, rows)
    requires Licensed(t, 0, false, s, true, shot)
    ensures rows[0].settings.timing
  {
    RowOnTape(t, rows, 0);
    assert rows[..0] == [] && RowFits(t.machine, t.extraMax, rows, 0);
    PolicyDecodes(rows[0].settings);
    PolicyDecodes(shot.settings);
  }

  /** The latch is the only way a recorded segment can be refused: a player that already has
      extended timing on plays it exactly when the segment starts with it on. */
  lemma RefusedOnlyByLatch<S(!new)>(t: Tape<S>, rows: seq<Row<S>>, s: S)
    requires Faithful(t.machine) && WellFormed(t.machine, t.extraMax, rows) && rows != []
    requires t.log == Emit(t.machine, rows) && Blob(t.machine, rows) <= t.blob
    ensures Play(t, Start(s, true)).final.finished <==> rows[0].settings.timing
    ensures Play(t, Start(s, false)).final.finished
  {
    RecordedSegmentPlays(t, rows, s, false);
    if rows[0].settings.timing {
      RecordedSegmentPlays(t, rows, s, true);
    }
    FinishedIffCertified(t, s, true);
    var r := Play(t, Start(s, true));
    if r.final.finished {
      FirstShotTiming(t, rows, s, r.shots[0]);
    }
  }
}
