/** tools/replay_diagnostic.py: the record grammar that `inspect` accepts and the truncation that
    --until performs, and their agreement with what the recorder emits and the player plays. */
module ReplayInspect {
  import opened Bytes
  import opened Text
  import opened ReplayLog
  import opened Machine
  import opened History
  import opened RecordPlayback
  import Recorder

  // ----- inspect

  datatype Kind = S | I | H | Bad

  /** One record by its blank-separated fields, as the script reads it. */
  function KindOf(line: string): Kind {
    var fields := Fields(line);
    if fields == [] then Bad
    else if fields[0] == "S" && |fields| == 4 then S
    else if fields[0] == "I" && |fields| == 6 then I
    else if fields[0] == "H" && |fields| == 6 then H
    else Bad
  }

  function Kinds(records: seq<string>): (kinds: seq<Kind>)
    ensures |kinds| == |records| && forall i :: 0 <= i < |kinds| ==> kinds[i] == KindOf(records[i])
  {
    seq(|records|, i requires 0 <= i < |records| => KindOf(records[i]))
  }

  datatype Report = Report(frames: nat, checkpoints: nat, unfinished: bool)

  predicate HeaderSeen(lines: seq<string>) {
    |lines| >= 4 && (lines[0] == "MMX2REPLAY 1" || lines[0] == MAGIC_LINE)
  }

  /** The accepted record sequences: no bad record, and a digest record stands exactly after an
      input record. */
  predicate Grammatical(kinds: seq<Kind>) {
    forall i :: 0 <= i < |kinds| ==> FitsAt(kinds, i)
  }

  predicate FitsAt(kinds: seq<Kind>, i: nat)
    requires i < |kinds|
  {
    kinds[i] != Bad && (kinds[i] == H <==> i > 0 && kinds[i - 1] == I)
  }

  function Count(kinds: seq<Kind>, kind: Kind): nat {
    if kinds == [] then 0
    else Count(kinds[..|kinds| - 1], kind) + (if kinds[|kinds| - 1] == kind then 1 else 0)
  }

  function ReportOf(kinds: seq<Kind>): Report {
    Report(Count(kinds, H), Count(kinds, S), kinds != [] && kinds[|kinds| - 1] == I)
  }

  lemma GrammarStep(kinds: seq<Kind>, n: nat)
    requires n < |kinds|
    ensures Grammatical(kinds[..n + 1])
       <==> Grammatical(kinds[..n]) && FitsAt(kinds, n)
    ensures ReportOf(kinds[..n + 1])
         == var r := ReportOf(kinds[..n]);
            Report(if kinds[n] == H then r.frames + 1 else r.frames,
                   if kinds[n] == S then r.checkpoints + 1 else r.checkpoints, kinds[n] == I)
    ensures ReportOf(kinds[..n]).unfinished <==> n > 0 && kinds[n - 1] == I
  {
    var longer, shorter := kinds[..n + 1], kinds[..n];
    assert longer[..n] == shorter && longer[n] == kinds[n];
    assert forall i :: 0 <= i < n ==> FitsAt(longer, i) == FitsAt(shorter, i);
    assert FitsAt(longer, n) == FitsAt(kinds, n);
  }

  lemma GrammarPrefix(kinds: seq<Kind>, n: nat)
    requires n <= |kinds|
    ensures Grammatical(kinds) ==> Grammatical(kinds[..n])
  {
    assert forall i :: 0 <= i < n ==> FitsAt(kinds[..n], i) == FitsAt(kinds, i);
  }

  /** The script accepts exactly the grammatical files with a known header and a checkpoint file,
      and it counts their digest and checkpoint records. */
  method Inspect(lines: seq<string>, savePresent: bool) returns (report: Option<Report>)
    ensures report.Some? <==> HeaderSeen(lines) && Grammatical(Kinds(lines[4..])) && savePresent
    ensures report.Some? ==> report.value == ReportOf(Kinds(lines[4..]))
  {
    if |lines| < 4 || (lines[0] != "MMX2REPLAY 1" && lines[0] != MAGIC_LINE) {
      return None;
    }
    var records := lines[4..];
    ghost var kinds := Kinds(records);
    var frames, checkpoints, unfinished := 0, 0, false;
    var n := 0;
    while n < |records|
      invariant 0 <= n <= |records|
      invariant Grammatical(kinds[..n])
      invariant Report(frames, checkpoints, unfinished) == ReportOf(kinds[..n])
    {
      var kind := KindOf(records[n]);
      GrammarStep(kinds, n);
      if kind == S && !unfinished {
        checkpoints := checkpoints + 1;
      } else if kind == I && !unfinished {
        unfinished := true;
      } else if kind == H && unfinished {
        frames := frames + 1;
        unfinished := false;
      } else {
        GrammarPrefix(kinds, n + 1);
        return None;
      }
      n := n + 1;
    }
    assert kinds[..n] == kinds;
    if !savePresent {
      return None;
    }
    report := Some(Report(frames, checkpoints, unfinished));
  }

  // ----- --until

  predicate IsMark(line: string) {
    "H " <= line
  }

  function Marks(lines: seq<string>): nat {
    if lines == [] then 0 else Marks(lines[..|lines| - 1]) + (if IsMark(lines[|lines| - 1]) then 1 else 0)
  }

  /** `cut` ends with the n-th marked line. */
  predicate CutsAt(lines: seq<string>, n: int, cut: seq<string>) {
    cut <= lines && cut != [] && IsMark(cut[|cut| - 1]) && Marks(cut) == n
  }

  /** The file written for --until n, or an error when n is not positive or too large. */
  method Until(lines: seq<string>, until: int) returns (cut: Option<seq<string>>)
    ensures cut.Some? <==> 1 <= until <= Marks(lines)
    ensures cut.Some? ==> CutsAt(lines, until, cut.value)
  {
    if until <= 0 {
      return None;
    }
    var completed, i := 0, 0;
    while i < |lines|
      invariant 0 <= i <= |lines|
      invariant completed == Marks(lines[..i]) < until
    {
      assert lines[..i + 1][..i] == lines[..i];
      if IsMark(lines[i]) {
        completed := completed + 1;
        if completed == until {
          MarksMonotone(lines, i + 1, |lines|);
          assert lines[..|lines|] == lines;
          return Some(lines[..i + 1]);
        }
      }
      i := i + 1;
    }
    assert lines[..i] == lines;
    return None;
  }

  lemma {:induction false} MarksMonotone(lines: seq<string>, i: nat, j: nat)
    requires i <= j <= |lines|
    ensures Marks(lines[..i]) <= Marks(lines[..j])
    decreases j
  {
    if i < j {
      assert lines[..j][..j - 1] == lines[..j - 1];
      MarksMonotone(lines, i, j - 1);
    }
  }

  /** There is only one place to cut. */
  lemma CutIsUnique(lines: seq<string>, n: int, a: seq<string>, b: seq<string>)
    requires CutsAt(lines, n, a) && CutsAt(lines, n, b)
    ensures a == b
  {
    var x, y := if |a| <= |b| then a else b, if |a| <= |b| then b else a;
    assert x == lines[..|x|] && y == lines[..|y|];
    if |x| < |y| {
      assert y[..|y| - 1] == lines[..|y| - 1];
      MarksMonotone(lines, |x|, |y| - 1);
    }
  }

  // ----- agreement with the recorder

  predicate AllPrintable(log: seq<Line>) {
    forall i :: 0 <= i < |log| ==> Printable(log[i])
  }

  function PrintAll(log: seq<Line>): (lines: seq<string>)
    requires AllPrintable(log)
    ensures |lines| == |log| && forall i :: 0 <= i < |log| ==> lines[i] == Print(log[i])
  {
    seq(|log|, i requires 0 <= i < |log| => Print(log[i]))
  }

  function ClassifyAll(lines: seq<string>): (log: seq<Line>)
    ensures |log| == |lines| && forall i :: 0 <= i < |log| ==> log[i] == Classify(lines[i])
  {
    seq(|lines|, i requires 0 <= i < |lines| => Classify(lines[i]))
  }

  function LineKind(line: Line): Kind {
    match line
    case Checkpoint(_, _, _) => S
    case Input(_, _, _, _, _) => I
    case Result(_, _, _, _, _) => H
    case Junk => Bad
  }

  function LineKinds(log: seq<Line>): (kinds: seq<Kind>)
    ensures |kinds| == |log| && forall i :: 0 <= i < |kinds| ==> kinds[i] == LineKind(log[i])
  {
    seq(|log|, i requires 0 <= i < |log| => LineKind(log[i]))
  }

  lemma PrintedKind(line: Line)
    requires Printable(line)
    ensures KindOf(Print(line)) == LineKind(line)
    ensures IsMark(Print(line)) <==> line.Result?
  {
    SplitPrint(line);
    var text := Print(line);
    var spelled := Spell(LineFields(line));
    assert text[0] == Tag(line) && text[1] == spelled[0] == ' ';
  }

  /** The first n fields of a printed record, behind its tag. */
  function CutRecord(line: Line, n: nat): string
    requires Printable(line) && n <= |LineFields(line)|
  {
    assert FieldsOk(LineFields(line)[..n]);
    [Tag(line)] + Spell(LineFields(line)[..n])
  }

  /** A record that was cut short is rejected wherever the cut is: only with all of its fields is it
      a record, and then one of its own kind. */
  lemma CutIsRejected(line: Line, n: nat)
    requires Printable(line) && n <= |LineFields(line)|
    ensures KindOf(CutRecord(line, n)) == if n == |LineFields(line)| then LineKind(line) else Bad
  {
    var fields := LineFields(line)[..n];
    SplitSpell(fields);
    FieldsHead([Tag(line)], Spell(fields));
    KindByFields(line, CutRecord(line, n), n);
  }

  lemma KindByFields(line: Line, text: string, n: nat)
    requires Printable(line) && n <= |LineFields(line)|
    requires |Fields(text)| == n + 1 && Fields(text)[0] == [Tag(line)]
    ensures KindOf(text) == if n == |LineFields(line)| then LineKind(line) else Bad
  {
  }

  lemma PrintedKinds(log: seq<Line>)
    requires AllPrintable(log)
    ensures Kinds(PrintAll(log)) == LineKinds(log)
    ensures forall i :: 0 <= i < |log| ==> (IsMark(PrintAll(log)[i]) <==> log[i].Result?)
  {
    forall i | 0 <= i < |log|
      ensures KindOf(PrintAll(log)[i]) == LineKind(log[i])
      ensures IsMark(PrintAll(log)[i]) <==> log[i].Result?
    {
      PrintedKind(log[i]);
    }
  }

  /** The frames a log completes. */
  function Results(log: seq<Line>): nat {
    Count(LineKinds(log), H)
  }

  lemma {:induction false} MarksAreFrames(lines: seq<string>, kinds: seq<Kind>)
    requires |lines| == |kinds|
    requires forall i :: 0 <= i < |lines| ==> (IsMark(lines[i]) <==> kinds[i] == H)
    ensures Marks(lines) == Count(kinds, H)
  {
    if lines != [] {
      MarksAreFrames(lines[..|lines| - 1], kinds[..|kinds| - 1]);
    }
  }

  predicate Shaped(log: seq<Line>) {
    Grammatical(LineKinds(log))
  }

  lemma {:induction false} CountJoin(a: seq<Kind>, b: seq<Kind>, kind: Kind)
    ensures Count(a + b, kind) == Count(a, kind) + Count(b, kind)
    decreases |b|
  {
    if b == [] {
      assert a + b == a;
    } else {
      assert (a + b)[..|a + b| - 1] == a + b[..|b| - 1];
      CountJoin(a, b[..|b| - 1], kind);
    }
  }

  lemma ShapedJoin(a: seq<Line>, b: seq<Line>)
    requires Shaped(a) && Shaped(b)
    requires a != [] ==> a[|a| - 1].Result?
    ensures Shaped(a + b) && Results(a + b) == Results(a) + Results(b)
  {
    var ka, kb, kinds := LineKinds(a), LineKinds(b), LineKinds(a + b);
    assert kinds == ka + kb;
    CountJoin(ka, kb, H);
    forall i | 0 <= i < |kinds|
      ensures FitsAt(kinds, i)
    {
      if i < |a| {
        assert FitsAt(ka, i);
        assert kinds[i] == ka[i] && (i > 0 ==> kinds[i - 1] == ka[i - 1]);
      } else {
        assert FitsAt(kb, i - |a|);
        assert kinds[i] == kb[i - |a|];
        assert i > |a| ==> kinds[i - 1] == kb[i - |a| - 1];
        assert i == |a| && i > 0 ==> kinds[i - 1] == ka[i - 1] == H;
      }
    }
  }

  lemma KindsOf1(a: Line)
    ensures LineKinds([a]) == [LineKind(a)] && Results([a]) == (if a.Result? then 1 else 0)
  {
    assert LineKinds([a]) == [LineKind(a)];
    assert [LineKind(a)][..0] == [];
    assert Count([], H) == 0;
  }

  lemma RowPrintable<S(!new)>(x: Session<S>, rows: seq<Row<S>>, n: nat)
    requires SessionOk(x) && WellFormed(x.machine, x.extraMax, rows) && n < |rows|
    ensures Printable(InputOf(x.machine, rows[n])) && Printable(ResultOf(x.machine, rows[n].after))
    ensures AllPrintable(RowLines(x.machine, |Blob(x.machine, rows[..n])|, rows[n]))
  {
    assert RowFits(x.machine, x.extraMax, rows, n);
    PrefixEmit(x.machine, rows, n);
    assert x.machine.frame(rows[n].before) < U32 && x.machine.frame(rows[n].after) < U32;
  }

  lemma RowLinesShaped<S(!new)>(m: Machine<S>, offset: nat, row: Row<S>)
    ensures var lines := RowLines(m, offset, row);
            Shaped(lines) && Results(lines) == 1 && lines[|lines| - 1].Result?
  {
    var input, result := InputOf(m, row), ResultOf(m, row.after);
    var kinds := LineKinds([input, result]);
    assert kinds == [I, H];
    assert [input, result] == [input] + [result];
    assert LineKinds([input] + [result]) == LineKinds([input]) + LineKinds([result]);
    CountJoin(LineKinds([input]), LineKinds([result]), H);
    KindsOf1(input);
    KindsOf1(result);
    if row.checkpoint {
      var save := Recorder.CheckpointLine(offset, m.save(row.before));
      KindsOf1(save);
      assert LineKinds([save, input, result]) == [S, I, H] == [S] + [I, H];
      assert RowLines(m, offset, row) == [save, input, result];
      CountJoin([S], [I, H], H);
    } else {
      assert RowLines(m, offset, row) == [input, result];
    }
  }

  lemma {:induction false} EmitShaped<S(!new)>(x: Session<S>, rows: seq<Row<S>>)
    requires SessionOk(x) && WellFormed(x.machine, x.extraMax, rows)
    ensures var log := Emit(x.machine, rows);
            && AllPrintable(log) && Shaped(log) && Results(log) == |rows|
            && (log != [] ==> log[|log| - 1].Result?)
    decreases |rows|
  {
    if rows != [] {
      var m, n := x.machine, |rows| - 1;
      PrefixFits(x.machine, x.extraMax, rows, n);
      EmitShaped(x, rows[..n]);
      RowPrintable(x, rows, n);
      RowLinesShaped(m, |Blob(m, rows[..n])|, rows[n]);
      ShapedJoin(Emit(m, rows[..n]), RowLines(m, |Blob(m, rows[..n])|, rows[n]));
    }
  }

  lemma TailShaped(tail: seq<Line>)
    requires TailOk(tail)
    ensures Shaped(tail) && Results(tail) == 0
  {
    if |tail| == 1 {
      KindsOf1(tail[0]);
    } else if |tail| == 2 {
      KindsOf1(tail[0]);
      KindsOf1(tail[1]);
      assert LineKinds(tail) == LineKinds([tail[0]]) + LineKinds([tail[1]]);
      CountJoin(LineKinds([tail[0]]), LineKinds([tail[1]]), H);
    }
  }

  /** The shape of every file a session leaves behind. */
  lemma FileShaped<S(!new)>(x: Session<S>, log: seq<Line>, blob: seq<Byte>, rows: seq<Row<S>>)
    requires SessionOk(x) && FileOk(x, log, blob, rows)
    ensures AllPrintable(log) && Shaped(log) && Results(log) == |rows|
  {
    var emitted := Emit(x.machine, rows);
    var tail := log[|emitted|..];
    assert log == emitted + tail;
    EmitShaped(x, rows);
    TailShaped(tail);
    ShapedJoin(emitted, tail);
  }

  lemma PrefixKinds(log: seq<Line>, k: nat)
    requires AllPrintable(log) && k <= |log|
    ensures Kinds(PrintAll(log)[..k]) == LineKinds(log[..k]) == LineKinds(log)[..k]
  {
    PrintedKinds(log);
    forall i | 0 <= i < k
      ensures KindOf(PrintAll(log)[..k][i]) == LineKind(log[i])
    {
      assert Kinds(PrintAll(log))[i] == LineKinds(log)[i];
    }
  }

  /** Grammar agreement. Cut a recorded file after any number of whole records, complete or not:
      the script accepts it, counting one frame per digest record; uncut it counts every frame. */
  lemma EveryPrefixAccepted<S(!new)>(x: Session<S>, log: seq<Line>, blob: seq<Byte>, rows: seq<Row<S>>, k: nat)
    requires SessionOk(x) && FileOk(x, log, blob, rows) && k <= |log|
    ensures AllPrintable(log) && Grammatical(Kinds(PrintAll(log)[..k]))
    ensures ReportOf(Kinds(PrintAll(log)[..k])).frames == Results(log[..k])
    ensures ReportOf(Kinds(PrintAll(log))).frames == |rows|
  {
    FileShaped(x, log, blob, rows);
    PrefixKinds(log, k);
    GrammarPrefix(LineKinds(log), k);
    PrintedKinds(log);
  }
}
