/** A generated file on which tools/apply_overrides.py does not keep its promises: its last line closes
    a window and has no newline. */
module OverrideUnterminated {
  import opened Bytes
  import opened MarkedLines
  import opened WindowScan
  import opened Overrides
  import opened OverrideSites
  import opened OverrideStream
  import opened PhysicalLines
  import opened OverrideText
  import opened OverrideReread
  import opened OverrideFiles
  import Text

  const HEADER: string := "RecompReturn bank_02" + "_8000_M0X0(CpuState " + "*cpu) {\n"
  const CAMERA: string := "  uint16 _v1 = cpu_re" + "ad16(cpu, 0x7e, " + "(uint16)(0x1e5d));\n"
  const ADD: string := "  uint16 _v2 = 0x20;\n"
  const LIMIT: string := "  uint16 _v3 = 0x140;"

  const FILE: string := HEADER + CAMERA + ADD + LIMIT

  function LineWith(text: string, header: Header, cameraX: bool, assigns: Option<Assigned>, constant: Option<Constant>): Line {
    Code(text, header, cameraX, false, assigns, constant, false, false, None)
  }

  function HeaderLine(): Line {
    LineWith(HEADER, FunctionHeader("bank_02_8000"), false, None, None)
  }

  function CameraLine(): Line {
    LineWith(CAMERA, NoHeader, true, Some(Assigned("  ", "_v1")), None)
  }

  function AddLine(): Line {
    LineWith(ADD, NoHeader, false, Some(Assigned("  ", "_v2")), Some(Constant("  ", "_v2", "0x20")))
  }

  function LimitLine(): Line {
    LineWith(LIMIT, NoHeader, false, Some(Assigned("  ", "_v3")), Some(Constant("  ", "_v3", "0x140")))
  }

  function SampleLines(): seq<Line> {
    [HeaderLine(), CameraLine(), AddLine(), LimitLine()]
  }

  /** The patterns' findings on the lines of the file; any others are plain. */
  function Sample(): Patterns {
    (text: string) =>
      if text == HEADER then HeaderLine()
      else if text == CAMERA then CameraLine()
      else if text == ADD then AddLine()
      else if text == LIMIT then LimitLine()
      else LineWith(text, NoHeader, false, None, None)
  }

  lemma CameraOk()
    ensures PatternOk(CAMERA, CameraLine())
  {
    var head := "  uint16 _v1 = cpu_re";
    assert "  " + "uint16 " + "_v1" + " =" == head[..14] <= head <= CAMERA;
  }

  lemma AddOk()
    ensures PatternOk(ADD, AddLine())
  {
    assert "  " + "uint16 " + "_v2" + " =" == ADD[..14];
    assert "  " + "uint16 " + "_v2" + " = " + "0x20" + ";" == ADD[..20];
  }

  lemma LimitOk()
    ensures PatternOk(LIMIT, LimitLine())
  {
    assert "  " + "uint16 " + "_v3" + " =" == LIMIT[..14];
    assert "  " + "uint16 " + "_v3" + " = " + "0x140" + ";" == LIMIT[..21];
  }

  lemma SampleOk()
    ensures PatternsOk(Sample())
  {
    CameraOk();
    AddOk();
    LimitOk();
    forall text: string
      ensures PatternOk(text, Sample()(text))
    {
    }
  }

  /** No marker starts in the text, and no line ends in it. */
  predicate Inner(text: string) {
    forall i :: 0 <= i < |text| ==> text[i] != '/' && text[i] != '\n'
  }

  lemma Unmarked(text: string)
    requires Inner(text)
    ensures !HasMarker(text) && !HasMarker(text + "\n")
  {
    NoPart(text + "\n", MARKER);
    NoPart(text + "\n", STREAM_MARKER);
    NoPart(text + "\n", DISPATCH_MARKER);
    NoPart(text, MARKER);
    NoPart(text, STREAM_MARKER);
    NoPart(text, DISPATCH_MARKER);
  }

  lemma PartStarts(text: string, i: nat, part: string)
    requires part != "" && ContainsAt(text, i, part)
    ensures i < |text| && text[i] == part[0]
  {
    assert text[i..i + |part|][0] == text[i];
  }

  lemma NoPart(text: string, part: string)
    requires part != "" && part[0] == '/' && forall i :: 0 <= i < |text| ==> text[i] != '/'
    ensures !Contains(text, part)
  {
    if Contains(text, part) {
      var i :| 0 <= i <= |text| && ContainsAt(text, i, part);
      PartStarts(text, i, part);
    }
  }

  lemma HeaderText()
    ensures SingleLine(HEADER) && Terminated(HEADER) && !HasMarker(HEADER)
  {
    var a, b, d := "RecompReturn bank_02", "_8000_M0X0(CpuState ", "*cpu) {";
    assert Inner(a) && Inner(b) && Inner(d);
    assert Inner(a + b + d) && HEADER == a + b + d + "\n";
    Unmarked(a + b + d);
  }

  lemma CameraText()
    ensures SingleLine(CAMERA) && Terminated(CAMERA) && !HasMarker(CAMERA)
  {
    var a, b, d := "  uint16 _v1 = cpu_re", "ad16(cpu, 0x7e, ", "(uint16)(0x1e5d));";
    assert Inner(a) && Inner(b) && Inner(d);
    assert Inner(a + b + d) && CAMERA == a + b + d + "\n";
    Unmarked(a + b + d);
  }

  lemma AddText()
    ensures SingleLine(ADD) && Terminated(ADD) && !HasMarker(ADD)
  {
    var a := "  uint16 _v2 = 0x20;";
    assert Inner(a) && ADD == a + "\n";
    Unmarked(a);
  }

  lemma LimitText()
    ensures SingleLine(LIMIT) && !Terminated(LIMIT) && !HasMarker(LIMIT)
  {
    assert Inner(LIMIT);
    Unmarked(LIMIT);
  }

  lemma SampleFiled()
    ensures Filed(Sample(), SampleLines()) && Clean(SampleLines())
  {
    HeaderText();
    CameraText();
    AddText();
    LimitText();
    var lines := SampleLines();
    assert HEADER[0] == 'R' && CAMERA[0] == ' ' && CAMERA[10] == ADD[10] == LIMIT[10] == 'v'
           && CAMERA[11] == '1' && ADD[11] == '2' && LIMIT[11] == '3';
    assert Whole(Sample(), lines[..3]);
    FiledSnoc(Sample(), lines[..3], lines[3]);
    assert lines[..3] + [lines[3]] == lines;
  }

  lemma FourLines(a: Line, b: Line, x: Line, y: Line)
    ensures Written([a, b, x, y]) == a.text + b.text + x.text + y.text
    ensures Written([a, b, x]) == a.text + b.text + x.text
  {
    assert Texts([a, b, x, y]) == [a.text] + [b.text] + [x.text] + [y.text];
    assert Texts([a, b, x]) == [a.text] + [b.text] + [x.text];
    JoinSnoc([], a.text);
    JoinSnoc([a.text], b.text);
    JoinSnoc([a.text] + [b.text], x.text);
    JoinSnoc([a.text] + [b.text] + [x.text], y.text);
  }

  lemma SampleRead()
    ensures Read(Sample(), FILE) == SampleLines() && CodeOf(Sample(), FILE) == SampleLines()
  {
    SampleOk();
    SampleFiled();
    FourLines(HeaderLine(), CameraLine(), AddLine(), LimitLine());
    ReadFiled(Sample(), SampleLines());
    StripClean(SampleLines());
  }

  lemma SampleConstants()
    ensures HexValue("0x20") == 0x20 && HexValue("0x140") == 0x140
  {
    assert "0x20"[2..] == "20" && "0x140"[2..] == "140" && "0x20"[..2] == "0x" && "0x140"[..2] == "0x";
    assert "20"[..1] == "2" && "140"[..2] == "14" && "14"[..1] == "1" && "2"[..0] == "" && "1"[..0] == "";
    assert Text.Number(16, "2") == 2 && Text.Number(16, "1") == 1;
    assert Text.Number(16, "20") == 0x20 && Text.Number(16, "14") == 0x14;
  }

  lemma SampleOpens()
    ensures OpensWindow(SampleLines(), PairRules(SampleLines()), 1, 2)
  {
    var lines := SampleLines();
    assert FunctionAt(lines, 0) == Some("bank_02_8000");
    assert FunctionAt(lines, 1) == Some("bank_02_8000");
    assert LiteralAt(lines, 2) == Some("0x20");
  }

  lemma SampleWindow()
    ensures PairAt(SampleLines(), Window(1, 2, 3))
  {
    var lines := SampleLines();
    SampleOpens();
    assert LiteralAt(lines, 2) == Some("0x20") && LiteralAt(lines, 3) == Some("0x140");
    SampleConstants();
    assert Matches(lines, 2, 3) && LiteralIn(lines, 3, LIMIT_CONSTS);
    assert PlainBetween(lines, 2, 4);
  }

  lemma SampleUnsafe()
    ensures !Safe(SampleLines())
  {
    SampleWindow();
    InjectedExactly(SampleLines(), 3);
    LimitText();
  }

  lemma SampleLoses(c: Patterns, lines: seq<Line>)
    requires PatternsOk(c) && CodeOf(c, FILE) == lines && !Safe(lines)
    ensures lines != [] && FileAfter(c, FileAfter(c, FILE, Apply), Restore) == Written(lines[..|lines| - 1])
  {
    AppliedUnsafe(c, FILE);
  }

  /** Applying to this file and then restoring it drops its last line. */
  lemma UnterminatedFileLosesCode()
    ensures PatternsOk(Sample()) && FileAfter(Sample(), FILE, Restore) == FILE
    ensures FileAfter(Sample(), FileAfter(Sample(), FILE, Apply), Restore) == HEADER + CAMERA + ADD
  {
    SampleOk();
    SampleRead();
    SampleUnsafe();
    SampleLoses(Sample(), SampleLines());
    assert SampleLines()[..3] == [HeaderLine(), CameraLine(), AddLine()];
    FourLines(HeaderLine(), CameraLine(), AddLine(), LimitLine());
  }
}
