/** The record-stream pass of tools/apply_overrides.py: four edits in one routine, each the first of
    its shape below its block's label. */
module OverrideStream {
  import opened Bytes
  import opened MarkedLines
  import opened WindowScan

  const STREAM_FUNCTION: string := "bank_00_DE3A"
  const STREAM_MARKER: string := "/*WS-SPAWN-STREAM*/"

  datatype StreamScan = StreamScan(fn: Option<string>, block: Option<string>, padSeen: bool, edits: map<nat, string>)

  function StreamSnippet(indent: string, name: string, helper: string): string {
    indent + STREAM_MARKER + Call(name, helper, name) + "\n"
  }

  /** A line inside the routine that is no label: each block takes its own operands once. */
  function Operand(s: StreamScan, line: Line, k: nat): StreamScan
    requires line.Code?
  {
    if s.block == Some("DE5A") && line.cameraX then
      if line.assigns.None? then s
      else
        var a := line.assigns.value;
        s.(block := None, edits := s.edits[k := StreamSnippet(a.indent, a.name, "X3WsSpawnStreamLeft")])
    else if line.constant.None? then s
    else
      var c := line.constant.value;
      if s.block == Some("DE70") && c.literal == "0x100" then
        s.(block := None, edits := s.edits[k := StreamSnippet(c.indent, c.name, "X3WsSpawnStreamRightAdd")])
      else if s.block == Some("DEB2") && !s.padSeen && c.literal == "0x20" then
        s.(padSeen := true, edits := s.edits[k := StreamSnippet(c.indent, c.name, "X3WsSpawnStreamGridPad")])
      else if s.block == Some("DEB2") && s.padSeen && c.literal == "0xa" then
        s.(block := None, edits := s.edits[k := StreamSnippet(c.indent, c.name, "X3WsSpawnStreamColumns")])
      else s
  }

  /** One line of the pass: function headers and labels select a block. */
  function StreamStep(lines: seq<Line>, s: StreamScan, k: nat): StreamScan
    requires k < |lines|
  {
    var line := lines[k];
    var here := s.(fn := Enter(s.fn, line), block := if line.Code? && line.header != NoHeader then None else s.block);
    if here.fn != Some(STREAM_FUNCTION) || line.Marked? then here
    else if line.block.Some? then here.(block := line.block, padSeen := false)
    else Operand(here, line, k)
  }

  function StreamTo(lines: seq<Line>, n: nat): StreamScan
    requires n <= |lines|
  {
    if n == 0 then StreamScan(None, None, false, map[]) else StreamStep(lines, StreamTo(lines, n - 1), n - 1)
  }

  function StreamEdits(lines: seq<Line>): map<nat, string> {
    StreamTo(lines, |lines|).edits
  }

  // ----- what the pass takes, stated about the text alone

  /** Line m carries the label of a block in the stream routine, and neither a label nor a function
      header follows before line n. */
  predicate Entered(lines: seq<Line>, m: nat, n: nat, block: string) {
    && m < n <= |lines|
    && lines[m].Code? && lines[m].block == Some(block)
    && FunctionAt(lines, m) == Some(STREAM_FUNCTION)
    && forall p :: m < p < n && lines[p].Code? ==> lines[p].header == NoHeader && lines[p].block == None
  }

  predicate Literal(line: Line, literal: string) {
    line.Code? && line.constant.Some? && line.constant.value.literal == literal
  }

  /** A camera-X read assigned to a variable. */
  predicate ReadsCamera(line: Line) {
    line.Code? && line.cameraX && line.assigns.Some?
  }

  predicate ReadSeen(lines: seq<Line>, m: nat, k: nat) {
    exists p :: m < p < k && p < |lines| && ReadsCamera(lines[p])
  }

  predicate LiteralSeen(lines: seq<Line>, m: nat, k: nat, literal: string) {
    exists p :: m < p < k && p < |lines| && Literal(lines[p], literal)
  }

  /** The pad has been seen, and behind it a column count. */
  predicate ColumnsSeen(lines: seq<Line>, m: nat, k: nat) {
    exists p :: m < p < k && p < |lines| && Literal(lines[p], "0xa") && LiteralSeen(lines, m, p, "0x20")
  }

  /** Everything the block at line m is good for has been taken before line k. */
  predicate Spent(lines: seq<Line>, m: nat, k: nat, block: string) {
    || (block == "DE5A" && ReadSeen(lines, m, k))
    || (block == "DE70" && LiteralSeen(lines, m, k, "0x100"))
    || (block == "DEB2" && ColumnsSeen(lines, m, k))
  }

  /** Line k is a left edge: the first assigned camera-X read of block DE5A. */
  predicate LeftAt(lines: seq<Line>, m: nat, k: nat) {
    && k < |lines| && Entered(lines, m, k + 1, "DE5A") && m < k
    && ReadsCamera(lines[k]) && !ReadSeen(lines, m, k)
  }

  /** A right edge: the first $100 of block DE70. */
  predicate RightAt(lines: seq<Line>, m: nat, k: nat) {
    && k < |lines| && Entered(lines, m, k + 1, "DE70") && m < k
    && Literal(lines[k], "0x100") && !LiteralSeen(lines, m, k, "0x100")
  }

  /** A grid pad: the first $20 of block DEB2. */
  predicate PadAt(lines: seq<Line>, m: nat, k: nat) {
    && k < |lines| && Entered(lines, m, k + 1, "DEB2") && m < k
    && Literal(lines[k], "0x20") && !LiteralSeen(lines, m, k, "0x20")
  }

  /** A column count: the first $0A behind the pad of block DEB2. */
  predicate ColumnsAt(lines: seq<Line>, m: nat, k: nat) {
    && k < |lines| && Entered(lines, m, k + 1, "DEB2") && m < k
    && Literal(lines[k], "0xa") && LiteralSeen(lines, m, k, "0x20") && !ColumnsSeen(lines, m, k)
  }

  function ConstantText(line: Line, helper: string): string {
    if line.Code? && line.constant.Some? then
      StreamSnippet(line.constant.value.indent, line.constant.value.name, helper)
    else ""
  }

  function AssignedText(line: Line, helper: string): string {
    if line.Code? && line.assigns.Some? then StreamSnippet(line.assigns.value.indent, line.assigns.value.name, helper)
    else ""
  }

  /** The edit that line k of the block at line m asks for. */
  predicate EditIn(lines: seq<Line>, m: nat, k: nat, text: string) {
    && k < |lines|
    && (|| (LeftAt(lines, m, k) && text == AssignedText(lines[k], "X3WsSpawnStreamLeft"))
        || (RightAt(lines, m, k) && text == ConstantText(lines[k], "X3WsSpawnStreamRightAdd"))
        || (PadAt(lines, m, k) && text == ConstantText(lines[k], "X3WsSpawnStreamGridPad"))
        || (ColumnsAt(lines, m, k) && text == ConstantText(lines[k], "X3WsSpawnStreamColumns")))
  }

  predicate EditAt(lines: seq<Line>, k: nat, text: string) {
    exists m :: 0 <= m < k && EditIn(lines, m, k, text)
  }

  // ----- the scan takes exactly those

  /** The label at line m governs before line n, and says what the scan's state is. */
  predicate Governs(lines: seq<Line>, s: StreamScan, m: nat, n: nat, block: string) {
    && s.block == (if Spent(lines, m, n, block) then None else Some(block))
    && (block == "DEB2" && s.block.Some? ==> (s.padSeen <==> LiteralSeen(lines, m, n, "0x20")))
  }

  ghost predicate BlockOk(lines: seq<Line>, s: StreamScan, n: nat)
    requires n <= |lines|
  {
    && s.fn == (if n == 0 then None else FunctionAt(lines, n - 1))
    && (s.block.Some? ==> exists m: nat :: Entered(lines, m, n, s.block.value))
    && (forall m: nat, block {:trigger Entered(lines, m, n, block)} ::
          Entered(lines, m, n, block) ==> Governs(lines, s, m, n, block))
  }

  lemma {:induction false} EnteredFunction(lines: seq<Line>, m: nat, n: nat, block: string)
    requires Entered(lines, m, n, block)
    ensures FunctionAt(lines, n - 1) == Some(STREAM_FUNCTION)
    decreases n
  {
    if m < n - 1 {
      EnteredFunction(lines, m, n - 1, block);
    }
  }

  /** A line that is neither label nor header leaves the label that governs. */
  lemma EnteredLonger(lines: seq<Line>, m: nat, n: nat, block: string)
    requires n < |lines| && m < n && (lines[n].Code? ==> lines[n].header == NoHeader && lines[n].block == None)
    ensures Entered(lines, m, n + 1, block) <==> Entered(lines, m, n, block)
  {
  }

  lemma SeenLonger(lines: seq<Line>, m: nat, n: nat)
    requires m < n < |lines|
    ensures ReadSeen(lines, m, n + 1) <==> ReadSeen(lines, m, n) || ReadsCamera(lines[n])
    ensures forall literal :: LiteralSeen(lines, m, n + 1, literal) <==> LiteralSeen(lines, m, n, literal) || Literal(lines[n], literal)
    ensures ColumnsSeen(lines, m, n + 1)
       <==> ColumnsSeen(lines, m, n) || (Literal(lines[n], "0xa") && LiteralSeen(lines, m, n, "0x20"))
    ensures ColumnsSeen(lines, m, n) ==> LiteralSeen(lines, m, n, "0x20")
  {
    if LiteralSeen(lines, m, n, "0x20") && Literal(lines[n], "0xa") {
      assert ColumnsSeen(lines, m, n + 1);
    }
  }

  /** A line of the block whose label is at m. */
  lemma GovernsStep(lines: seq<Line>, s: StreamScan, m: nat, n: nat, block: string)
    requires n < |lines| && BlockOk(lines, s, n) && m < n && Entered(lines, m, n, block)
    requires lines[n].Code? ==> lines[n].header == NoHeader && lines[n].block == None
    ensures Governs(lines, StreamStep(lines, s, n), m, n + 1, block)
    ensures StreamStep(lines, s, n).block.Some? ==> StreamStep(lines, s, n).block == s.block
  {
    assert Governs(lines, s, m, n, block);
    EnteredFunction(lines, m, n, block);
    SeenLonger(lines, m, n);
  }

  lemma BlockStep(lines: seq<Line>, s: StreamScan, n: nat)
    requires n < |lines| && BlockOk(lines, s, n)
    ensures BlockOk(lines, StreamStep(lines, s, n), n + 1)
  {
    var line, t := lines[n], StreamStep(lines, s, n);
    assert t.fn == FunctionAt(lines, n);
    if line.Code? && (line.header != NoHeader || line.block.Some?) {
      LabelStep(lines, s, n);
    } else {
      var after := n + 1;
      forall m: nat, block | Entered(lines, m, after, block)
        ensures Governs(lines, t, m, after, block)
      {
        EnteredLonger(lines, m, n, block);
        GovernsStep(lines, s, m, n, block);
      }
      if t.block.Some? {
        assert s.block.Some?;
        var m: nat :| Entered(lines, m, n, s.block.value);
        EnteredLonger(lines, m, n, s.block.value);
        GovernsStep(lines, s, m, n, s.block.value);
      }
    }
  }

  /** A label or a function header starts afresh. */
  lemma LabelStep(lines: seq<Line>, s: StreamScan, n: nat)
    requires n < |lines| && BlockOk(lines, s, n)
    requires lines[n].Code? && (lines[n].header != NoHeader || lines[n].block.Some?)
    ensures BlockOk(lines, StreamStep(lines, s, n), n + 1)
  {
    var t := StreamStep(lines, s, n);
    assert t.fn == FunctionAt(lines, n);
    if s.block.Some? {
      var m: nat :| Entered(lines, m, n, s.block.value);
      EnteredFunction(lines, m, n, s.block.value);
    }
    if t.block.Some? {
      assert Entered(lines, n, n + 1, t.block.value);
    }
    var after := n + 1;
    forall m: nat, block | Entered(lines, m, after, block)
      ensures Governs(lines, t, m, after, block)
    {
      assert m == n;
    }
  }

  /** At a line that the text asks to edit, the scan is in the right block, with the pad seen or not. */
  lemma AskedState(lines: seq<Line>, s: StreamScan, n: nat, m: nat, block: string)
    requires n < |lines| && BlockOk(lines, s, n) && m < n && Entered(lines, m, n + 1, block) && !Spent(lines, m, n, block)
    ensures lines[n].Code? ==> lines[n].header == NoHeader && lines[n].block == None
    ensures Enter(s.fn, lines[n]) == Some(STREAM_FUNCTION) && s.block == Some(block)
    ensures block == "DEB2" ==> (s.padSeen <==> LiteralSeen(lines, m, n, "0x20"))
  {
    EnteredLonger(lines, m, n, block);
    EnteredFunction(lines, m, n + 1, block);
    assert Governs(lines, s, m, n, block);
  }

  /** The scan takes a line that the text asks to edit, with the text asked for. */
  lemma TakesAsked(lines: seq<Line>, s: StreamScan, n: nat, m: nat, text: string)
    requires n < |lines| && BlockOk(lines, s, n) && EditIn(lines, m, n, text)
    ensures StreamStep(lines, s, n).edits == s.edits[n := text]
  {
    var line, here := lines[n], s.(fn := Enter(s.fn, lines[n]));
    SeenLonger(lines, m, n);
    if LeftAt(lines, m, n) {
      AskedState(lines, s, n, m, "DE5A");
    } else if RightAt(lines, m, n) {
      AskedState(lines, s, n, m, "DE70");
    } else {
      AskedState(lines, s, n, m, "DEB2");
    }
    assert StreamStep(lines, s, n) == Operand(here, line, n);
  }

  lemma AskedIfTaken(lines: seq<Line>, s: StreamScan, n: nat)
    requires n < |lines| && BlockOk(lines, s, n) && StreamStep(lines, s, n).edits != s.edits
    ensures n in StreamStep(lines, s, n).edits && EditAt(lines, n, StreamStep(lines, s, n).edits[n])
    ensures StreamStep(lines, s, n).edits == s.edits[n := StreamStep(lines, s, n).edits[n]]
  {
    var t := StreamStep(lines, s, n);
    assert lines[n].Code? && lines[n].header == NoHeader && lines[n].block == None && s.block.Some?;
    assert t == Operand(s.(fn := t.fn), lines[n], n);
    var m: nat :| Entered(lines, m, n, s.block.value);
    EnteredLonger(lines, m, n, s.block.value);
    assert Governs(lines, s, m, n, s.block.value);
    assert EditIn(lines, m, n, t.edits[n]);
  }

  ghost predicate EditsOk(lines: seq<Line>, edits: map<nat, string>, n: nat) {
    && (forall k :: k in edits ==> k < n && EditAt(lines, k, edits[k]))
    && (forall k: nat, text :: k < n && EditAt(lines, k, text) ==> k in edits && edits[k] == text)
  }

  lemma EditsStep(lines: seq<Line>, s: StreamScan, n: nat)
    requires n < |lines| && BlockOk(lines, s, n) && EditsOk(lines, s.edits, n)
    ensures EditsOk(lines, StreamStep(lines, s, n).edits, n + 1)
  {
    var t := StreamStep(lines, s, n);
    if t.edits != s.edits {
      AskedIfTaken(lines, s, n);
    }
    forall k: nat, text | k < n + 1 && EditAt(lines, k, text)
      ensures k in t.edits && t.edits[k] == text
    {
      if k == n {
        var m: nat :| m < n && EditIn(lines, m, n, text);
        TakesAsked(lines, s, n, m, text);
      }
    }
  }

  lemma {:induction false} StreamToOk(lines: seq<Line>, n: nat)
    requires n <= |lines|
    ensures BlockOk(lines, StreamTo(lines, n), n)
    ensures EditsOk(lines, StreamTo(lines, n).edits, n)
  {
    if n > 0 {
      StreamToOk(lines, n - 1);
      BlockStep(lines, StreamTo(lines, n - 1), n - 1);
      EditsStep(lines, StreamTo(lines, n - 1), n - 1);
    }
  }

  /** The stream pass edits exactly the left edge, the right edge, the grid pad and the column count
      below each of its labels, each through its own helper, and nothing else. */
  lemma StreamEditsExactly(lines: seq<Line>, k: nat, text: string)
    ensures k in StreamEdits(lines) && StreamEdits(lines)[k] == text <==> EditAt(lines, k, text)
  {
    StreamToOk(lines, |lines|);
  }

  method ApplySpawnStream(lines: seq<Line>) returns (out: seq<Line>, count: nat)
    ensures out == Inject(lines, StreamEdits(lines)) && count == |StreamEdits(lines)|
  {
    var fn: Option<string>, block: Option<string>, padSeen := None, None, false;
    var edits: map<nat, string> := map[];
    for k := 0 to |lines|
      invariant StreamScan(fn, block, padSeen, edits) == StreamTo(lines, k)
    {
      var line := lines[k];
      fn := Enter(fn, line);
      if line.Code? && line.header != NoHeader {
        block := None;
      }
      if fn != Some(STREAM_FUNCTION) || line.Marked? {
        continue;
      }
      if line.block.Some? {
        block, padSeen := line.block, false;
        continue;
      }
      if block == Some("DE5A") && line.cameraX {
        if line.assigns.Some? {
          var a := line.assigns.value;
          edits := edits[k := StreamSnippet(a.indent, a.name, "X3WsSpawnStreamLeft")];
          block := None;
        }
        continue;
      }
      if line.constant.None? {
        continue;
      }
      var c := line.constant.value;
      if block == Some("DE70") && c.literal == "0x100" {
        edits := edits[k := StreamSnippet(c.indent, c.name, "X3WsSpawnStreamRightAdd")];
        block := None;
      } else if block == Some("DEB2") && !padSeen && c.literal == "0x20" {
        edits := edits[k := StreamSnippet(c.indent, c.name, "X3WsSpawnStreamGridPad")];
        padSeen := true;
      } else if block == Some("DEB2") && padSeen && c.literal == "0xa" {
        edits := edits[k := StreamSnippet(c.indent, c.name, "X3WsSpawnStreamColumns")];
        block := None;
      }
    }
    out := InjectLines(lines, edits);
    count := |edits|;
  }
}
