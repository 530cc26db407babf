/** Recordings as text files: what the recorder prints, the inspection script reads, --until cuts
    and the player scans are the same recording. */
module ReplayFiles {
  import opened Bytes
  import opened ReplayLog
  import opened History
  import opened RecordPlayback
  import opened ReplayInspect
  import Player
  import Recorder

  /** The identity of a recording: build, ROM digest and mod-selection digest. */
  datatype Identity = Identity(build: Build, rom: nat, mods: nat)

  predicate IdentityOk(id: Identity) {
    BuildOk(id.build) && id.rom < U32 && id.mods < U32
  }

  function FileText(id: Identity, log: seq<Line>): seq<string>
    requires AllPrintable(log)
  {
    Header(id.build, id.rom, id.mods) + PrintAll(log)
  }

  /** MmxReplayPlayback of a text file on a host with the given ROM and mod selection. */
  function PlayFile<S>(x: Session<S>, file: seq<string>, blob: seq<Byte>, rom: nat, mods: nat, s: S, timing: bool): Player.Run<S> {
    if HeaderAccepted(file, rom, mods) then
      Player.Play(Player.Tape(x.machine, x.extraMax, ClassifyAll(file[4..]), blob), Player.Start(s, timing))
    else
      Player.Run(Player.Fail(Player.Start(s, timing)), [])
  }

  lemma PrintedClassify(log: seq<Line>)
    requires AllPrintable(log)
    ensures ClassifyAll(PrintAll(log)) == log
  {
    forall i | 0 <= i < |log|
      ensures Classify(PrintAll(log)[i]) == log[i]
    {
      PrintClassify(log[i]);
    }
  }

  lemma FileParts(id: Identity, log: seq<Line>)
    requires AllPrintable(log)
    ensures |FileText(id, log)| == 4 + |log| && FileText(id, log)[4..] == PrintAll(log)
    ensures HeaderSeen(FileText(id, log))
  {
  }

  /** The text layer is transparent: playing a printed recording is playing the recording, and a
      host with another ROM or another mod selection refuses it. */
  lemma PrintedFilePlays<S(!new)>(x: Session<S>, id: Identity, log: seq<Line>, blob: seq<Byte>, rom: nat, mods: nat, s: S, timing: bool)
    requires IdentityOk(id) && AllPrintable(log)
    ensures var run := PlayFile(x, FileText(id, log), blob, rom, mods, s, timing);
            if rom == id.rom && mods == id.mods then
              run == Player.Play(Player.Tape(x.machine, x.extraMax, log, blob), Player.Start(s, timing))
            else run.final.failed && run.shots == []
  {
    HeaderRoundTrip(id.build, id.rom, id.mods, rom, mods, PrintAll(log));
    FileParts(id, log);
    PrintedClassify(log);
  }

  // ----- marked lines of a file

  lemma {:induction false} MarksJoin(a: seq<string>, b: seq<string>)
    ensures Marks(a + b) == Marks(a) + Marks(b)
    decreases |b|
  {
    if b == [] {
      assert a + b == a;
    } else {
      assert (a + b)[..|a + b| - 1] == a + b[..|b| - 1];
      MarksJoin(a, b[..|b| - 1]);
    }
  }

  lemma HeaderUnmarked(id: Identity)
    ensures Marks(Header(id.build, id.rom, id.mods)) == 0
  {
    var h := Header(id.build, id.rom, id.mods);
    assert h[0][0] == 'M' && h[1][0] == 'B' && h[2][0] == 'R' && h[3][0] == 'M';
    assert h[..3][..2] == h[..2] && h[..2][..1] == h[..1] && h[..1][..0] == [];
    assert Marks(h[..1]) == 0;
    assert Marks(h[..2]) == 0;
    assert Marks(h[..3]) == 0;
  }

  lemma FileMarks(id: Identity, log: seq<Line>)
    requires AllPrintable(log)
    ensures Marks(FileText(id, log)) == Results(log)
  {
    HeaderUnmarked(id);
    MarksJoin(Header(id.build, id.rom, id.mods), PrintAll(log));
    PrintedKinds(log);
    MarksAreFrames(PrintAll(log), LineKinds(log));
  }

  /** The recording of the first n frames, as a part of the whole log. */
  lemma HeadOfLog<S(!new)>(x: Session<S>, log: seq<Line>, blob: seq<Byte>, rows: seq<Row<S>>, n: nat)
    requires SessionOk(x) && FileOk(x, log, blob, rows) && 1 <= n <= |rows|
    ensures WellFormed(x.machine, x.extraMax, rows[..n]) && Blob(x.machine, rows[..n]) <= blob
    ensures var head := Emit(x.machine, rows[..n]);
            && head <= log && AllPrintable(head) && Results(head) == n && Shaped(head)
            && head != [] && head[|head| - 1].Result?
  {
    PrefixFits(x.machine, x.extraMax, rows, n);
    EmitShaped(x, rows[..n]);
    EmitEndsInResult(x.machine, rows[..n]);
    PrefixEmit(x.machine, rows, n);
  }

  lemma TextPrefix(id: Identity, log: seq<Line>, head: seq<Line>)
    requires AllPrintable(log) && head <= log
    ensures AllPrintable(head) && FileText(id, head) <= FileText(id, log)
  {
    assert forall i :: 0 <= i < |head| ==> head[i] == log[i];
    assert PrintAll(log)[..|head|] == PrintAll(head);
  }

  /** A part of a log that ends in a digest record is printed as a cut of its file. */
  lemma TextOfHead(id: Identity, log: seq<Line>, head: seq<Line>)
    requires AllPrintable(log) && head <= log && head != [] && head[|head| - 1].Result?
    ensures AllPrintable(head) && CutsAt(FileText(id, log), Results(head), FileText(id, head))
  {
    TextPrefix(id, log, head);
    FileParts(id, head);
    FileMarks(id, head);
    PrintedMark(id, head);
  }

  lemma PrintedMark(id: Identity, head: seq<Line>)
    requires AllPrintable(head) && head != [] && head[|head| - 1].Result?
    ensures var text := FileText(id, head); text != [] && IsMark(text[|text| - 1])
  {
    FileParts(id, head);
    PrintedKinds(head);
    var text := FileText(id, head);
    assert text[|text| - 1] == text[4..][|head| - 1] == PrintAll(head)[|head| - 1];
  }

  lemma HeadKinds(head: seq<Line>)
    requires AllPrintable(head) && Shaped(head) && head != [] && head[|head| - 1].Result?
    ensures var kinds := Kinds(PrintAll(head));
            Grammatical(kinds) && ReportOf(kinds).frames == Results(head) && !ReportOf(kinds).unfinished
  {
    PrintedKinds(head);
  }

  /** What the script reports about the text of a log that ends in a digest record. */
  lemma HeadReport(id: Identity, head: seq<Line>)
    requires AllPrintable(head) && Shaped(head) && head != [] && head[|head| - 1].Result?
    ensures var text := FileText(id, head);
            && HeaderSeen(text) && Grammatical(Kinds(text[4..]))
            && ReportOf(Kinds(text[4..])).frames == Results(head) && !ReportOf(Kinds(text[4..])).unfinished
  {
    FileParts(id, head);
    HeadKinds(head);
    assert FileText(id, head)[4..] == PrintAll(head);
  }

  /** Truncation. --until n succeeds on a recorded file exactly when n completed frames are in it.
      Whatever it writes is then the recording of the first n frames: the script accepts it as n
      complete frames, and with the untouched checkpoint file it plays to completion after exactly
      n rows, through the machines of those frames. */
  lemma CutFilePlays<S(!new)>(x: Session<S>, id: Identity, log: seq<Line>, blob: seq<Byte>, rows: seq<Row<S>>, n: int,
                              cut: seq<string>, s: S, timing: bool)
    requires SessionOk(x) && IdentityOk(id) && FileOk(x, log, blob, rows) && AllPrintable(log)
    requires n >= 1 && CutsAt(FileText(id, log), n, cut)
    requires LatchFits(rows, timing)
    ensures n <= |rows| == Marks(FileText(id, log))
    ensures HeaderSeen(cut) && Grammatical(Kinds(cut[4..]))
    ensures ReportOf(Kinds(cut[4..])).frames == n && !ReportOf(Kinds(cut[4..])).unfinished
    ensures Replays(PlayFile(x, cut, blob, id.rom, id.mods, s, timing), rows[..n])
  {
    FileShaped(x, log, blob, rows);
    FileMarks(id, log);
    CutWithinMarks(FileText(id, log), n, cut);
    HeadOfLog(x, log, blob, rows, n);
    var head := Emit(x.machine, rows[..n]);
    TextOfHead(id, log, head);
    CutIsUnique(FileText(id, log), n, cut, FileText(id, head));
    HeadReport(id, head);
    PrintedFilePlays(x, id, head, blob, id.rom, id.mods, s, timing);
    RecordedSegmentPlays(Player.Tape(x.machine, x.extraMax, head, blob), rows[..n], s, timing);
  }

  lemma CutWithinMarks(lines: seq<string>, n: int, cut: seq<string>)
    requires CutsAt(lines, n, cut)
    ensures n <= Marks(lines)
  {
    assert cut == lines[..|cut|] && lines[..|lines|] == lines;
    MarksMonotone(lines, |cut|, |lines|);
  }

  /** What the script and the player make of the text of one file. */
  predicate TextPlays<S(==)>(x: Session<S>, id: Identity, log: seq<Line>, blob: seq<Byte>, rows: seq<Row<S>>, host: S, timing: bool) {
    && AllPrintable(log)
    && Grammatical(Kinds(FileText(id, log)[4..]))
    && ReportOf(Kinds(FileText(id, log)[4..])).frames == |rows|
    && PlaysAsRecorded(PlayFile(x, FileText(id, log), blob, id.rom, id.mods, host, timing), log, rows)
  }

  lemma FileTextPlays<S(!new)>(x: Session<S>, id: Identity, log: seq<Line>, blob: seq<Byte>, rows: seq<Row<S>>, host: S, timing: bool)
    requires SessionOk(x) && IdentityOk(id) && FileOk(x, log, blob, rows) && LatchFits(rows, timing)
    ensures TextPlays(x, id, log, blob, rows, host, timing)
  {
    EveryPrefixAccepted(x, log, blob, rows, |log|);
    assert PrintAll(log)[..|log|] == PrintAll(log);
    FileParts(id, log);
    PrintedFilePlays(x, id, log, blob, id.rom, id.mods, host, timing);
    FilePlays(x, log, blob, rows, host, timing);
  }

  /** The whole chain, from sessions to text files. Every file that any session leaves behind is
      accepted by the script with one frame per recorded frame, and a host with the same ROM and
      mods plays its text to completion exactly when its last frame completed. */
  lemma EverySessionFilePlays<S(!new)>(x: Session<S>, id: Identity, s: S, enabled: bool, events: seq<Event<S>>, seg: nat,
                                       host: S, timing: bool)
    requires SessionOk(x) && IdentityOk(id) && HonestRun(x, NewWorld(s, enabled), events)
    requires seg in Run(x, NewWorld(s, enabled), events).r.logs
    requires LatchFits(RowsOf(Run(x, NewWorld(s, enabled), events), seg), timing)
    ensures var w := Run(x, NewWorld(s, enabled), events);
            TextPlays(x, id, w.r.logs[seg], Recorder.BlobOf(w.r, seg), RowsOf(w, seg), host, timing)
  {
    var w := Run(x, NewWorld(s, enabled), events);
    EverySessionIsSound(x, s, enabled, events);
    FileTextPlays(x, id, w.r.logs[seg], Recorder.BlobOf(w.r, seg), RowsOf(w, seg), host, timing);
  }
}
