/** A checkpoint file in which a byte has changed. The player executes the frames before the damaged
    checkpoint and then fails; the machine that the damaged bytes might restore is never run. */
module ReplayDamage {
  import opened Bytes
  import opened ReplayLog
  import opened Machine
  import opened Player
  import opened History
  import RP = RecordPlayback
  import Recorder
  import Fnv

  /** Byte i of the checkpoint file belongs to the checkpoint before frame k. */
  predicate OwnsByte<S>(m: Machine<S>, rows: seq<Row<S>>, k: nat, i: nat) {
    k < |rows| && rows[k].checkpoint && |Blob(m, rows[..k])| <= i < |Blob(m, rows[..k])| + |m.save(rows[k].before)|
  }

  lemma {:induction false} OwnerOf<S(!new)>(m: Machine<S>, rows: seq<Row<S>>, i: nat) returns (k: nat)
    requires i < |Blob(m, rows)|
    ensures OwnsByte(m, rows, k, i)
  {
    var n := |rows| - 1;
    if i < |Blob(m, rows[..n])| {
      k := OwnerOf(m, rows[..n], i);
      assert rows[..n][..k] == rows[..k];
    } else {
      k := n;
    }
  }

  // ----- the frames before the damage

  /** The player is between frames, at the start of row j, having executed the rows before it. */
  predicate AtRow<S(==)>(t: Tape<S>, rows: seq<Row<S>>, j: nat, p: State<S>) {
    && j <= |rows| && Between(p) && p.pos == Offset(t.machine, rows, j)
    && (j > 0 ==> p.checkpointed && p.now == rows[j - 1].after && p.timing == rows[j - 1].settings.timing)
    && (j == 0 && rows != [] ==> (p.timing ==> rows[0].settings.timing))
  }

  /** Wherever the rows end, the player finds something that it refuses. */
  ghost predicate RefusesBehind<S(!new)>(t: Tape<S>, rows: seq<Row<S>>) {
    forall p: State<S> :: AtRow(t, rows, |rows|, p) ==> Begin(t, p).failed
  }

  lemma RowExecutes<S(!new)>(t: Tape<S>, rows: seq<Row<S>>, j: nat, p: State<S>, q: State<S>)
    requires Faithful(t.machine) && Carries(t, rows) && WellFormed(t.machine, t.extraMax, rows)
    requires j < |rows| && |Emit(t.machine, rows)| < |t.log| && AtRow(t, rows, j, p)
    requires q == End(t, Execute(t, Begin(t, p)))
    ensures !Stopped(Begin(t, p)) && ShotOf(t, Begin(t, p)) == ShotAt(t.machine, rows, j) && AtRow(t, rows, j + 1, q)
  {
    RowLicensed(t, rows, j, p.checkpointed, p.now, p.timing);
    LicensedRuns(t, p, ShotAt(t.machine, rows, j));
    RowInLog(t.machine, rows, j);
  }

  lemma {:induction false} PlaysUpTo<S(!new)>(t: Tape<S>, rows: seq<Row<S>>, j: nat, p: State<S>)
    requires Faithful(t.machine) && Carries(t, rows) && WellFormed(t.machine, t.extraMax, rows)
    requires |Emit(t.machine, rows)| < |t.log| && RefusesBehind(t, rows) && AtRow(t, rows, j, p)
    ensures var r := Play(t, p); r.final.failed && !r.final.finished && r.shots == Shots(t.machine, rows, j)
    decreases |rows| - j
  {
    if j == |rows| {
      assert Begin(t, p).failed;
    } else {
      var q := End(t, Execute(t, Begin(t, p)));
      RowExecutes(t, rows, j, p, q);
      PlaysUpTo(t, rows, j + 1, q);
      PlayRound(t, p);
    }
  }

  // ----- the damage

  /** The checkpoint record of row k, and what it says. */
  lemma CheckpointRecord<S(!new)>(t: Tape<S>, rows: seq<Row<S>>, k: nat)
    requires Carries(t, rows) && k < |rows| && rows[k].checkpoint
    ensures var from, at := |Blob(t.machine, rows[..k])|, Offset(t.machine, rows, k);
            && at < |t.log| && t.log[at] == Recorder.CheckpointLine(from, t.machine.save(rows[k].before))
            && from + |t.machine.save(rows[k].before)| <= |t.blob|
            && t.blob[from..from + |t.machine.save(rows[k].before)|] == t.machine.save(rows[k].before)
  {
    var m := t.machine;
    RowInLog(m, rows, k);
    RowInBlob(m, rows, k);
    var from, at := |Blob(m, rows[..k])|, Offset(m, rows, k);
    var to, lines := from + |m.save(rows[k].before)|, RowLines(m, from, rows[k]);
    assert lines[0] == Recorder.CheckpointLine(from, m.save(rows[k].before));
    assert t.log[at] == Emit(m, rows)[at + 0] == lines[0];
    assert t.blob[from..to] == Blob(m, rows)[from..to];
  }

  /** The digest of a damaged checkpoint is not the recorded one. */
  lemma DamagedBytes(blob: seq<Byte>, bytes: seq<Byte>, from: nat, i: nat, v: Byte)
    requires from + |bytes| <= |blob| && blob[from..from + |bytes|] == bytes
    requires from <= i < from + |bytes| && v != blob[i]
    ensures CheckpointBytes(Recorder.CheckpointLine(from, bytes), blob[i := v]) == None
  {
    assert blob[i] == bytes[i - from];
    assert blob[i := v][from..from + |bytes|] == bytes[i - from := v];
    Fnv.DigestNotices(bytes, i - from, v);
  }

  /** The player sees the damage. */
  lemma DamageRefused<S(!new)>(t: Tape<S>, d: Tape<S>, rows: seq<Row<S>>, k: nat, i: nat, v: Byte, p: State<S>)
    requires Carries(t, rows) && OwnsByte(t.machine, rows, k, i) && i < |t.blob| && v != t.blob[i]
    requires d == t.(blob := t.blob[i := v]) && Between(p) && p.pos == Offset(t.machine, rows, k)
    ensures Begin(d, p).failed
  {
    CheckpointRecord(t, rows, k);
    DamagedBytes(t.blob, t.machine.save(rows[k].before), |Blob(t.machine, rows[..k])|, i, v);
  }

  /** What is left of the tape before the damage is as it was recorded. */
  lemma CarriesBefore<S(!new)>(t: Tape<S>, d: Tape<S>, rows: seq<Row<S>>, k: nat, i: nat, v: Byte)
    requires Carries(t, rows) && OwnsByte(t.machine, rows, k, i) && i < |t.blob|
    requires d == t.(blob := t.blob[i := v])
    ensures Carries(d, rows[..k]) && |Emit(t.machine, rows[..k])| < |t.log|
  {
    PrefixEmit(t.machine, rows, k);
    CheckpointRecord(t, rows, k);
    var n := |Blob(t.machine, rows[..k])|;
    assert d.blob[..n] == t.blob[..n];
  }

  lemma DamageAhead<S(!new)>(t: Tape<S>, d: Tape<S>, rows: seq<Row<S>>, k: nat, i: nat, v: Byte)
    requires Carries(t, rows) && OwnsByte(t.machine, rows, k, i) && i < |t.blob| && v != t.blob[i]
    requires d == t.(blob := t.blob[i := v])
    ensures RefusesBehind(d, rows[..k])
  {
    var before := rows[..k];
    assert before[..k] == before;
    forall p: State<S> | AtRow(d, before, |before|, p)
      ensures Begin(d, p).failed
    {
      DamageRefused(t, d, rows, k, i, v, p);
    }
  }

  /** The playback executed exactly these frames, machine for machine, and then failed. */
  predicate FailsBehind<S(==)>(run: Run<S>, rows: seq<Row<S>>) {
    && run.final.failed && !run.final.finished && |run.shots| == |rows|
    && forall j :: 0 <= j < |rows| ==> run.shots[j].before == rows[j].before && run.shots[j].after == rows[j].after
  }

  /** Damage shows. Change any one byte of any checkpoint of a recording: whatever machine the damaged
      bytes might restore, and whatever follows in the log, playback executes exactly the frames
      before that checkpoint, and fails. */
  lemma DamageStops<S(!new)>(t: Tape<S>, rows: seq<Row<S>>, k: nat, i: nat, v: Byte, s: S, timing: bool)
    requires Faithful(t.machine) && WellFormed(t.machine, t.extraMax, rows) && Carries(t, rows)
    requires OwnsByte(t.machine, rows, k, i) && i < |t.blob| && v != t.blob[i] && RP.LatchFits(rows, timing)
    ensures FailsBehind(Play(t.(blob := t.blob[i := v]), Start(s, timing)), rows[..k])
  {
    var d, before := t.(blob := t.blob[i := v]), rows[..k];
    CarriesBefore(t, d, rows, k, i, v);
    PrefixFits(t.machine, t.extraMax, rows, k);
    DamageAhead(t, d, rows, k, i, v);
    StartsAtRow(d, before, s, timing);
    PlaysUpTo(d, before, 0, Start(s, timing));
    FailsWithShots(t.machine, before, Play(d, Start(s, timing)));
  }

  lemma StartsAtRow<S(!new)>(t: Tape<S>, rows: seq<Row<S>>, s: S, timing: bool)
    requires RP.LatchFits(rows, timing)
    ensures AtRow(t, rows, 0, Start(s, timing))
  {
    assert rows[..0] == [];
  }

  lemma FailsWithShots<S(!new)>(m: Machine<S>, rows: seq<Row<S>>, run: Run<S>)
    requires run.final.failed && !run.final.finished && run.shots == Shots(m, rows, 0)
    ensures FailsBehind(run, rows)
  {
  }

  /** So it is for every file of every session: a changed byte of what its frames recorded ends the
      playback at the checkpoint that the byte belongs to. */
  lemma EveryDamageShows<S(!new)>(x: RP.Session<S>, s: S, enabled: bool, events: seq<RP.Event<S>>, seg: nat, i: nat, v: Byte,
                                  host: S, timing: bool) returns (k: nat)
    requires RP.SessionOk(x) && RP.HonestRun(x, RP.NewWorld(s, enabled), events)
    requires var w := RP.Run(x, RP.NewWorld(s, enabled), events);
             && seg in w.r.logs && RP.LatchFits(RP.RowsOf(w, seg), timing)
             && i < |Blob(x.machine, RP.RowsOf(w, seg))|
             && (i < |Recorder.BlobOf(w.r, seg)| ==> v != Recorder.BlobOf(w.r, seg)[i])
    ensures var w := RP.Run(x, RP.NewWorld(s, enabled), events);
            && OwnsByte(x.machine, RP.RowsOf(w, seg), k, i) && i < |Recorder.BlobOf(w.r, seg)|
            && FailsBehind(RP.Playback(x, w.r.logs[seg], Recorder.BlobOf(w.r, seg)[i := v], host, timing), RP.RowsOf(w, seg)[..k])
  {
    var w := RP.Run(x, RP.NewWorld(s, enabled), events);
    RP.EverySessionIsSound(x, s, enabled, events);
    k := FileDamage(x, w.r.logs[seg], Recorder.BlobOf(w.r, seg), RP.RowsOf(w, seg), i, v, host, timing);
  }

  lemma FileDamage<S(!new)>(x: RP.Session<S>, log: seq<Line>, blob: seq<Byte>, rows: seq<Row<S>>, i: nat, v: Byte,
                            host: S, timing: bool) returns (k: nat)
    requires RP.SessionOk(x) && RP.FileOk(x, log, blob, rows) && RP.LatchFits(rows, timing)
    requires i < |Blob(x.machine, rows)| && (i < |blob| ==> v != blob[i])
    ensures OwnsByte(x.machine, rows, k, i) && i < |blob|
    ensures FailsBehind(RP.Playback(x, log, blob[i := v], host, timing), rows[..k])
  {
    k := OwnerOf(x.machine, rows, i);
    DamageStops(Tape(x.machine, x.extraMax, log, blob), rows, k, i, v, host, timing);
  }
}
