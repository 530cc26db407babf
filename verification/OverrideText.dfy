/** Generated C as text: how tools/apply_overrides.py classifies the lines of a file, and what its
    injected lines look like when the file is read again. */
module OverrideText {
  import opened MarkedLines
  import opened WindowScan
  import opened Overrides
  import opened OverrideSites
  import opened OverrideStream
  import opened PhysicalLines
  import Text

  const DISPATCH_MARKER: string := "/*WS-SPAWN-DISPATCH*/"

  predicate ContainsAt(text: string, i: nat, part: string) {
    i + |part| <= |text| && text[i..i + |part|] == part
  }

  predicate Contains(text: string, part: string) {
    exists i :: 0 <= i <= |text| && ContainsAt(text, i, part)
  }

  predicate HasMarker(text: string) {
    Contains(text, MARKER) || Contains(text, STREAM_MARKER) || Contains(text, DISPATCH_MARKER)
  }

  // ----- patterns

  /** What the regular expressions find in a line without a marker. */
  type Patterns = string -> Line

  predicate Blank(text: string) {
    forall i :: 0 <= i < |text| ==> Text.IsSpace(text[i])
  }

  predicate IsWordChar(c: char) {
    'a' <= c <= 'z' || 'A' <= c <= 'Z' || '0' <= c <= '9' || c == '_'
  }

  predicate IsWord(text: string) {
    forall i :: 0 <= i < |text| ==> IsWordChar(text[i])
  }

  /** `uint16 name =`, behind blanks only. */
  predicate Assigns(text: string, indent: string, name: string) {
    Blank(indent) && IsWord(name) && indent + "uint16 " + name + " =" <= text
  }

  predicate AssignsConstant(text: string, c: Constant) {
    Assigns(text, c.indent, c.name) && IsWord(c.literal)
    && c.indent + "uint16 " + c.name + " = " + c.literal + ";" <= text
  }

  predicate PatternOk(text: string, line: Line) {
    && line.Code? && line.text == text
    && (line.assigns.Some? ==> Assigns(text, line.assigns.value.indent, line.assigns.value.name))
    && (line.constant.Some? ==> AssignsConstant(text, line.constant.value))
  }

  /** The groups that the assignment patterns capture stand in the line as those patterns say. */
  ghost predicate PatternsOk(c: Patterns) {
    forall text :: PatternOk(text, c(text))
  }

  function Classify(c: Patterns, text: string): Line {
    if HasMarker(text) then Marked(text) else c(text)
  }

  function ClassifyAll(c: Patterns, texts: seq<string>): (lines: seq<Line>)
    ensures |lines| == |texts| && forall i :: 0 <= i < |texts| ==> lines[i] == Classify(c, texts[i])
  {
    seq(|texts|, i requires 0 <= i < |texts| => Classify(c, texts[i]))
  }

  function Texts(lines: seq<Line>): (texts: seq<string>)
    ensures |texts| == |lines| && forall i :: 0 <= i < |lines| ==> texts[i] == lines[i].text
  {
    seq(|lines|, i requires 0 <= i < |lines| => lines[i].text)
  }

  /** Lines that are what the tool makes of their text. */
  ghost predicate Consistent(c: Patterns, lines: seq<Line>) {
    forall i :: 0 <= i < |lines| ==> lines[i] == Classify(c, lines[i].text)
  }

  function Read(c: Patterns, file: string): seq<Line> {
    ClassifyAll(c, ReadLines(file))
  }

  function Written(lines: seq<Line>): string {
    Join(Texts(lines))
  }

  lemma TextsOfRead(c: Patterns, file: string)
    requires PatternsOk(c)
    ensures Texts(Read(c, file)) == ReadLines(file)
    ensures Consistent(c, Read(c, file)) && Physical(Texts(Read(c, file))) && Written(Read(c, file)) == file
  {
    ReadIsPhysical(file);
    var texts := ReadLines(file);
    assert Texts(Read(c, file)) == texts by {
      forall i | 0 <= i < |texts|
        ensures Read(c, file)[i].text == texts[i]
      {
        assert PatternOk(texts[i], c(texts[i]));
      }
    }
  }

  /** Writing and reading back returns consistent lines exactly when they are physical lines. */
  lemma ReadWritten(c: Patterns, lines: seq<Line>)
    requires PatternsOk(c) && Consistent(c, lines)
    ensures Read(c, Written(lines)) == lines <==> Physical(Texts(lines))
  {
    ReadJoin(Texts(lines));
    if Physical(Texts(lines)) {
      assert ReadLines(Written(lines)) == Texts(lines);
    }
    TextsOfRead(c, Written(lines));
  }

  // ----- injected lines

  /** A line of its own that carries a marker behind blanks. */
  predicate Injectable(text: string) {
    SingleLine(text) && Terminated(text) && HasMarker(text) && LeadsWith(text, '/')
  }

  predicate BlankTo(text: string, n: nat)
    requires n <= |text|
  {
    forall i :: 0 <= i < n ==> Text.IsSpace(text[i])
  }

  /** The first character that is not blank. */
  predicate LeadsWith(text: string, ch: char) {
    !Text.IsSpace(ch) && exists n :: 0 <= n < |text| && BlankTo(text, n) && text[n] == ch
  }

  lemma LeadsOnce(text: string, a: char, b: char)
    requires LeadsWith(text, a) && LeadsWith(text, b)
    ensures a == b
  {
    var n :| 0 <= n < |text| && BlankTo(text, n) && text[n] == a;
    var m :| 0 <= m < |text| && BlankTo(text, m) && text[m] == b;
    assert n == m;
  }

  lemma LeadsLonger(text: string, ch: char, more: string)
    requires LeadsWith(text, ch)
    ensures LeadsWith(text + more, ch)
  {
    var n :| 0 <= n < |text| && BlankTo(text, n) && text[n] == ch;
    assert BlankTo(text + more, n) && (text + more)[n] == ch;
  }

  lemma LeadsBehind(indent: string, rest: string)
    requires Blank(indent) && rest != "" && !Text.IsSpace(rest[0])
    ensures LeadsWith(indent + rest, rest[0])
  {
    assert BlankTo(indent + rest, |indent|) && (indent + rest)[|indent|] == rest[0];
  }

  predicate NoNewline(text: string) {
    forall i :: 0 <= i < |text| ==> text[i] != '\n'
  }

  lemma ContainsMiddle(before: string, part: string, after: string)
    ensures Contains(before + part + after, part)
  {
    var text := before + part + after;
    assert text[|before|..|before| + |part|] == part;
    assert ContainsAt(text, |before|, part);
  }

  lemma ContainsLonger(before: string, text: string, part: string)
    requires Contains(text, part)
    ensures Contains(before + text, part)
  {
    var i :| 0 <= i <= |text| && ContainsAt(text, i, part);
    assert (before + text)[|before| + i..|before| + i + |part|] == part;
    assert ContainsAt(before + text, |before| + i, part);
  }

  const HELPERS: set<string> :=
    {"X3WsObjWinAdd", "X3WsObjWinLimit", "X3HunterLandingCameraY", "X3WsSpawnStreamLeft",
     "X3WsSpawnStreamRightAdd", "X3WsSpawnStreamGridPad", "X3WsSpawnStreamColumns"}

  lemma HelperInline(helper: string)
    requires helper in HELPERS
    ensures NoNewline(helper)
  {
  }

  lemma OwnLine(text: string)
    requires NoNewline(text)
    ensures SingleLine(text + "\n") && Terminated(text + "\n")
  {
  }

  /** Blanks, a marker, and a call of the helper: the form of all injected lines. */
  lemma InjectedForm(indent: string, marker: string, call: string)
    requires Blank(indent) && NoNewline(indent) && marker in {MARKER, STREAM_MARKER} && NoNewline(call)
    ensures Injectable(indent + marker + call + "\n")
  {
    var text := indent + marker + call + "\n";
    OwnLine(indent + marker + call);
    assert text == indent + marker + (call + "\n");
    ContainsMiddle(indent, marker, call + "\n");
    assert text == indent + (marker + call + "\n");
    LeadsBehind(indent, marker + call + "\n");
  }

  lemma CallInline(name: string, helper: string, argument: string)
    requires NoNewline(name) && NoNewline(helper) && NoNewline(argument)
    ensures NoNewline(Call(name, helper, argument))
  {
  }

  lemma SnippetInjectable(indent: string, name: string, helper: string, argument: string)
    requires Blank(indent) && NoNewline(indent) && NoNewline(name) && helper in HELPERS && NoNewline(argument)
    ensures Injectable(Snippet(indent, name, helper, argument))
  {
    HelperInline(helper);
    CallInline(name, helper, argument);
    InjectedForm(indent, MARKER, Call(name, helper, argument));
  }

  lemma StreamSnippetInjectable(indent: string, name: string, helper: string)
    requires Blank(indent) && NoNewline(indent) && NoNewline(name) && helper in HELPERS
    ensures Injectable(StreamSnippet(indent, name, helper))
  {
    HelperInline(helper);
    CallInline(name, helper, name);
    InjectedForm(indent, STREAM_MARKER, Call(name, helper, name));
  }

  lemma Captured(text: string, indent: string, name: string)
    requires SingleLine(text) && Assigns(text, indent, name)
    ensures NoNewline(indent) && NoNewline(name) && LeadsWith(text, 'u')
  {
    var head := indent + "uint16 " + name + " =";
    assert forall i :: 0 <= i < |indent| ==> indent[i] == head[i] == text[i];
    assert forall i :: 0 <= i < |name| ==> name[i] == head[|indent| + 7 + i] == text[|indent| + 7 + i];
    assert text == indent + text[|indent|..];
    assert text[|indent|] == head[|indent|] == 'u';
    LeadsBehind(indent, text[|indent|..]);
  }

  lemma CapturedLiteral(text: string, c: Constant)
    requires SingleLine(text) && AssignsConstant(text, c)
    ensures NoNewline(c.literal)
  {
    var head := c.indent + "uint16 " + c.name + " = " + c.literal + ";";
    var at := |c.indent| + 7 + |c.name| + 3;
    assert forall i :: 0 <= i < |c.literal| ==> c.literal[i] == head[at + i] == text[at + i];
  }

  // ----- what the passes inject

  /** An edit as it must be for the file to be read again: its line assigns to a variable, and its
      text is a line of its own, with a marker. */
  predicate Editable(lines: seq<Line>, k: nat, text: string) {
    k < |lines| && lines[k].Code? && LeadsWith(lines[k].text, 'u') && Injectable(text)
  }

  /** Lines as read from a file. */
  ghost predicate Lined(c: Patterns, lines: seq<Line>) {
    Consistent(c, lines) && forall i :: 0 <= i < |lines| ==> SingleLine(lines[i].text)
  }

  lemma LinePatterns(c: Patterns, lines: seq<Line>, k: nat)
    requires PatternsOk(c) && Lined(c, lines) && k < |lines| && lines[k].Code?
    ensures PatternOk(lines[k].text, lines[k])
  {
    assert lines[k] == Classify(c, lines[k].text);
    assert PatternOk(lines[k].text, c(lines[k].text));
  }

  lemma ConstantEditable(c: Patterns, lines: seq<Line>, k: nat, helper: string)
    requires PatternsOk(c) && Lined(c, lines) && LiteralAt(lines, k).Some? && helper in HELPERS
    ensures Editable(lines, k, ConstantSnippet(lines, k, helper))
    ensures Editable(lines, k, ConstantText(lines[k], helper))
  {
    LinePatterns(c, lines, k);
    var text, x := lines[k].text, lines[k].constant.value;
    Captured(text, x.indent, x.name);
    CapturedLiteral(text, x);
    SnippetInjectable(x.indent, x.name, helper, x.literal);
    StreamSnippetInjectable(x.indent, x.name, helper);
  }

  lemma AssignedEditable(c: Patterns, lines: seq<Line>, k: nat, helper: string)
    requires PatternsOk(c) && Lined(c, lines) && k < |lines| && lines[k].Code? && lines[k].assigns.Some? && helper in HELPERS
    ensures var a := lines[k].assigns.value;
            && Editable(lines, k, Snippet(a.indent, a.name, helper, a.name))
            && Editable(lines, k, StreamSnippet(a.indent, a.name, helper))
  {
    LinePatterns(c, lines, k);
    var a := lines[k].assigns.value;
    Captured(lines[k].text, a.indent, a.name);
    SnippetInjectable(a.indent, a.name, helper, a.name);
    StreamSnippetInjectable(a.indent, a.name, helper);
  }

  lemma LandingEditable(c: Patterns, lines: seq<Line>, k: nat)
    requires PatternsOk(c) && Lined(c, lines) && LandingAt(lines, k)
    ensures k in ObjectEdits(lines) && Editable(lines, k, ObjectEdits(lines)[k])
  {
    LandingInjected(lines, k);
    AssignedEditable(c, lines, k, "X3HunterLandingCameraY");
  }

  lemma PairEditable(c: Patterns, lines: seq<Line>, w: Window)
    requires PatternsOk(c) && Lined(c, lines) && PairAt(lines, w)
    ensures w.opener in ObjectEdits(lines) && Editable(lines, w.opener, ObjectEdits(lines)[w.opener])
    ensures w.closer in ObjectEdits(lines) && Editable(lines, w.closer, ObjectEdits(lines)[w.closer])
  {
    PairInjected(lines, w);
    PairIsHorizontal(lines, w);
    ConstantEditable(c, lines, w.opener, "X3WsObjWinAdd");
    ConstantEditable(c, lines, w.closer, "X3WsObjWinLimit");
  }

  lemma TriggerEditable(c: Patterns, lines: seq<Line>, w: Window)
    requires PatternsOk(c) && Lined(c, lines) && TriggerAt(lines, w)
    ensures w.opener in ObjectEdits(lines) && Editable(lines, w.opener, ObjectEdits(lines)[w.opener])
  {
    TriggerInjected(lines, w);
    TriggerIsHorizontal(lines, w);
    ConstantEditable(c, lines, w.opener, "X3WsObjWinAdd");
  }

  lemma ObjectEditable(c: Patterns, lines: seq<Line>, k: nat)
    requires PatternsOk(c) && Lined(c, lines) && k in ObjectEdits(lines)
    ensures Editable(lines, k, ObjectEdits(lines)[k])
  {
    InjectedExactly(lines, k);
    if LandingAt(lines, k) {
      LandingEditable(c, lines, k);
    } else if exists w :: PairAt(lines, w) && (k == w.opener || k == w.closer) {
      var w :| PairAt(lines, w) && (k == w.opener || k == w.closer);
      PairEditable(c, lines, w);
    } else {
      var w :| TriggerAt(lines, w) && k == w.opener;
      TriggerEditable(c, lines, w);
    }
  }

  lemma EditEditable(c: Patterns, lines: seq<Line>, m: nat, k: nat, text: string)
    requires PatternsOk(c) && Lined(c, lines) && EditIn(lines, m, k, text)
    ensures Editable(lines, k, text)
  {
    if LeftAt(lines, m, k) && text == AssignedText(lines[k], "X3WsSpawnStreamLeft") {
      AssignedEditable(c, lines, k, "X3WsSpawnStreamLeft");
    } else {
      assert LiteralAt(lines, k).Some?;
      ConstantEditable(c, lines, k, "X3WsSpawnStreamRightAdd");
      ConstantEditable(c, lines, k, "X3WsSpawnStreamGridPad");
      ConstantEditable(c, lines, k, "X3WsSpawnStreamColumns");
    }
  }

  lemma StreamEditable(c: Patterns, lines: seq<Line>, k: nat)
    requires PatternsOk(c) && Lined(c, lines) && k in StreamEdits(lines)
    ensures Editable(lines, k, StreamEdits(lines)[k])
  {
    var text := StreamEdits(lines)[k];
    StreamEditsExactly(lines, k, text);
    var m: nat :| m < k && EditIn(lines, m, k, text);
    EditEditable(c, lines, m, k, text);
  }
}
