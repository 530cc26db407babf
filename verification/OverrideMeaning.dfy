/** What the injected lines say to the C compiler. A reader takes a marked line apart; what it reads is
    the helper that the source names for each place, applied to what the line it follows assigns. */
module OverrideMeaning {
  import opened Bytes
  import opened MarkedLines
  import opened WindowScan
  import opened Overrides
  import opened OverrideSites
  import opened OverrideStream
  import opened OverrideText
  import Text

  // ----- the reader

  /** `variable = helper(argument);`, behind a marker. */
  datatype Injected = Injected(marker: string, variable: string, helper: string, argument: string)

  /** What follows a fixed text. */
  function Behind(t: string, part: string): Option<string> {
    if part <= t then Some(t[|part|..]) else None
  }

  /** The identifier or number at the head of a text. */
  function WordOf(t: string): (w: string)
    ensures |w| <= |t|
  {
    if t != "" && IsWordChar(t[0]) then [t[0]] + WordOf(t[1..]) else ""
  }

  function ReadMarker(t: string): Option<(string, string)> {
    if Behind(t, "/*WS-OBJ-WIN*/").Some? then Some(("/*WS-OBJ-WIN*/", Behind(t, "/*WS-OBJ-WIN*/").value))
    else if Behind(t, "/*WS-SPAWN-STREAM*/").Some? then Some(("/*WS-SPAWN-STREAM*/", Behind(t, "/*WS-SPAWN-STREAM*/").value))
    else None
  }

  /** A word, and what is left behind it and a fixed text. */
  function ReadWord(t: string, part: string): Option<(string, string)> {
    var w := WordOf(t);
    var rest :- Behind(t[|w|..], part);
    Some((w, rest))
  }

  /** marker { extern uint16 HELPER(uint16); VARIABLE = HELPER(ARGUMENT); } */
  function ReadInjected(t: string): Option<Injected> {
    var (marker, a) :- ReadMarker(Text.SkipSpace(t));
    var b :- Behind(a, " { extern uint16 ");
    var (helper, d) :- ReadWord(b, "(uint16); ");
    var (variable, e) :- ReadWord(d, " = ");
    var (called, f) :- ReadWord(e, "(");
    var (argument, rest) :- ReadWord(f, "); }\n");
    if rest == "" && called == helper then Some(Injected(marker, variable, helper, argument)) else None
  }

  // ----- the reader undoes the printer

  lemma {:induction false} WordStops(w: string, rest: string)
    requires IsWord(w) && (rest == "" || !IsWordChar(rest[0]))
    ensures WordOf(w + rest) == w
  {
    if w == "" {
      assert w + rest == rest;
    } else {
      assert (w + rest)[1..] == w[1..] + rest;
      WordStops(w[1..], rest);
    }
  }

  lemma WordRead(w: string, part: string, rest: string)
    requires IsWord(w) && part != "" && !IsWordChar(part[0])
    ensures ReadWord(w + (part + rest), part) == Some((w, rest))
  {
    WordStops(w, part + rest);
    assert (w + (part + rest))[|w|..] == part + rest;
    assert (part + rest)[|part|..] == rest;
  }

  lemma PartRead(part: string, rest: string)
    ensures Behind(part + rest, part) == Some(rest)
  {
    assert (part + rest)[|part|..] == rest;
  }

  lemma {:induction false} BlanksSkipped(indent: string, rest: string)
    requires Blank(indent) && rest != "" && !Text.IsSpace(rest[0])
    ensures Text.SkipSpace(indent + rest) == rest
  {
    if indent == "" {
      assert indent + rest == rest;
    } else {
      assert (indent + rest)[1..] == indent[1..] + rest;
      BlanksSkipped(indent[1..], rest);
    }
  }

  /** The text behind the marker, right-nested as the reader meets it. */
  function Statement(variable: string, helper: string, argument: string): string {
    " { extern uint16 " + (helper + ("(uint16); " + (variable + (" = " + (helper + ("(" + (argument + ("); }\n" + ""))))))))
  }

  lemma CallIsStatement(variable: string, helper: string, argument: string)
    ensures Call(variable, helper, argument) + "\n" == Statement(variable, helper, argument)
  {
  }

  lemma StatementRead(t: string, marker: string, variable: string, helper: string, argument: string)
    requires IsWord(variable) && IsWord(helper) && IsWord(argument)
    requires ReadMarker(Text.SkipSpace(t)) == Some((marker, Statement(variable, helper, argument)))
    ensures ReadInjected(t) == Some(Injected(marker, variable, helper, argument))
  {
    var h := "); }\n" + "";
    var g := argument + h;
    var f := helper + ("(" + g);
    var e := variable + (" = " + f);
    var d := helper + ("(uint16); " + e);
    PartRead(" { extern uint16 ", d);
    WordRead(helper, "(uint16); ", e);
    WordRead(variable, " = ", f);
    WordRead(helper, "(", g);
    WordRead(argument, "); }\n", "");
  }

  lemma HelperIsWord(helper: string)
    requires helper in HELPERS
    ensures IsWord(helper)
  {
  }

  lemma ObjectMarkerRead(rest: string)
    ensures ReadMarker(MARKER + rest) == Some(("/*WS-OBJ-WIN*/", rest))
  {
    PartRead(MARKER, rest);
  }

  lemma StreamMarkerRead(rest: string)
    ensures ReadMarker(STREAM_MARKER + rest) == Some(("/*WS-SPAWN-STREAM*/", rest))
  {
    PartRead(STREAM_MARKER, rest);
    assert (STREAM_MARKER + rest)[5] == 'S' && "/*WS-OBJ-WIN*/"[5] == 'O';
  }

  lemma MarkedRead(t: string, indent: string, marker: string, variable: string, helper: string, argument: string)
    requires Blank(indent) && IsWord(variable) && helper in HELPERS && IsWord(argument)
    requires marker != "" && marker[0] == '/' && t == indent + (marker + Statement(variable, helper, argument))
    requires ReadMarker(marker + Statement(variable, helper, argument)) == Some((marker, Statement(variable, helper, argument)))
    ensures ReadInjected(t) == Some(Injected(marker, variable, helper, argument))
  {
    HelperIsWord(helper);
    BlanksSkipped(indent, marker + Statement(variable, helper, argument));
    StatementRead(t, marker, variable, helper, argument);
  }

  lemma Nested(indent: string, marker: string, call: string, s: string)
    requires call + "\n" == s
    ensures indent + marker + call + "\n" == indent + (marker + s)
  {
  }

  /** A line of the object-window pass reads as the assignment it was made for. */
  lemma SnippetRead(indent: string, variable: string, helper: string, argument: string)
    requires Blank(indent) && IsWord(variable) && helper in HELPERS && IsWord(argument)
    ensures ReadInjected(Snippet(indent, variable, helper, argument))
         == Some(Injected("/*WS-OBJ-WIN*/", variable, helper, argument))
  {
    CallIsStatement(variable, helper, argument);
    Nested(indent, MARKER, Call(variable, helper, argument), Statement(variable, helper, argument));
    ObjectMarkerRead(Statement(variable, helper, argument));
    MarkedRead(Snippet(indent, variable, helper, argument), indent, MARKER, variable, helper, argument);
  }

  lemma StreamSnippetRead(indent: string, variable: string, helper: string)
    requires Blank(indent) && IsWord(variable) && helper in HELPERS
    ensures ReadInjected(StreamSnippet(indent, variable, helper))
         == Some(Injected("/*WS-SPAWN-STREAM*/", variable, helper, variable))
  {
    CallIsStatement(variable, helper, variable);
    Nested(indent, STREAM_MARKER, Call(variable, helper, variable), Statement(variable, helper, variable));
    StreamMarkerRead(Statement(variable, helper, variable));
    MarkedRead(StreamSnippet(indent, variable, helper), indent, STREAM_MARKER, variable, helper, variable);
  }

  // ----- what is injected where

  /** The edit after line k sets the line's variable to `helper` of the constant that the line gave it. */
  predicate Wraps(lines: seq<Line>, edits: map<nat, string>, k: nat, helper: string) {
    && k < |lines| && lines[k].Code? && lines[k].constant.Some? && k in edits
    && ReadInjected(edits[k])
       == Some(Injected("/*WS-OBJ-WIN*/", lines[k].constant.value.name, helper, lines[k].constant.value.literal))
  }

  /** The edit after line k sets the line's variable to `helper` of itself. */
  predicate Adjusts(edits: map<nat, string>, k: nat, marker: string, variable: string, helper: string) {
    k in edits && ReadInjected(edits[k]) == Some(Injected(marker, variable, helper, variable))
  }

  lemma ConstantRead(c: Patterns, lines: seq<Line>, k: nat, helper: string)
    requires PatternsOk(c) && Lined(c, lines) && LiteralAt(lines, k).Some? && helper in HELPERS
    ensures ReadInjected(ConstantSnippet(lines, k, helper))
         == Some(Injected("/*WS-OBJ-WIN*/", lines[k].constant.value.name, helper, lines[k].constant.value.literal))
    ensures ReadInjected(ConstantText(lines[k], helper))
         == Some(Injected("/*WS-SPAWN-STREAM*/", lines[k].constant.value.name, helper, lines[k].constant.value.name))
  {
    LinePatterns(c, lines, k);
    var x := lines[k].constant.value;
    SnippetRead(x.indent, x.name, helper, x.literal);
    StreamSnippetRead(x.indent, x.name, helper);
  }

  lemma AssignedRead(c: Patterns, lines: seq<Line>, k: nat, helper: string)
    requires PatternsOk(c) && Lined(c, lines) && k < |lines| && lines[k].Code? && lines[k].assigns.Some? && helper in HELPERS
    ensures var a := lines[k].assigns.value;
            && ReadInjected(Snippet(a.indent, a.name, helper, a.name)) == Some(Injected("/*WS-OBJ-WIN*/", a.name, helper, a.name))
            && ReadInjected(AssignedText(lines[k], helper)) == Some(Injected("/*WS-SPAWN-STREAM*/", a.name, helper, a.name))
  {
    LinePatterns(c, lines, k);
    var a := lines[k].assigns.value;
    SnippetRead(a.indent, a.name, helper, a.name);
    StreamSnippetRead(a.indent, a.name, helper);
  }

  /** A pair: its add constant goes through the add helper, its limit constant through the limit
      helper, and each result into the variable that held the constant. */
  lemma PairMeaning(c: Patterns, lines: seq<Line>, w: Window)
    requires PatternsOk(c) && Lined(c, lines) && PairAt(lines, w)
    ensures Wraps(lines, ObjectEdits(lines), w.opener, "X3WsObjWinAdd")
    ensures Wraps(lines, ObjectEdits(lines), w.closer, "X3WsObjWinLimit")
  {
    PairInjected(lines, w);
    PairIsHorizontal(lines, w);
    ConstantRead(c, lines, w.opener, "X3WsObjWinAdd");
    ConstantRead(c, lines, w.closer, "X3WsObjWinLimit");
  }

  /** A trigger: its constant goes through the add helper. */
  lemma TriggerMeaning(c: Patterns, lines: seq<Line>, w: Window)
    requires PatternsOk(c) && Lined(c, lines) && TriggerAt(lines, w)
    ensures Wraps(lines, ObjectEdits(lines), w.opener, "X3WsObjWinAdd")
  {
    TriggerInjected(lines, w);
    TriggerIsHorizontal(lines, w);
    ConstantRead(c, lines, w.opener, "X3WsObjWinAdd");
  }

  /** A landing threshold: the variable that the camera's Y was read into goes through the landing
      helper. */
  lemma LandingMeaning(c: Patterns, lines: seq<Line>, k: nat)
    requires PatternsOk(c) && Lined(c, lines) && LandingAt(lines, k)
    ensures Adjusts(ObjectEdits(lines), k, "/*WS-OBJ-WIN*/", lines[k].assigns.value.name, "X3HunterLandingCameraY")
  {
    LandingInjected(lines, k);
    AssignedRead(c, lines, k, "X3HunterLandingCameraY");
  }

  /** The stream operands: each goes through its own helper. */
  lemma StreamMeaning(c: Patterns, lines: seq<Line>, m: nat, k: nat)
    requires PatternsOk(c) && Lined(c, lines)
    ensures LeftAt(lines, m, k) ==>
              Adjusts(StreamEdits(lines), k, "/*WS-SPAWN-STREAM*/", lines[k].assigns.value.name, "X3WsSpawnStreamLeft")
    ensures RightAt(lines, m, k) ==>
              Adjusts(StreamEdits(lines), k, "/*WS-SPAWN-STREAM*/", lines[k].constant.value.name, "X3WsSpawnStreamRightAdd")
    ensures PadAt(lines, m, k) ==>
              Adjusts(StreamEdits(lines), k, "/*WS-SPAWN-STREAM*/", lines[k].constant.value.name, "X3WsSpawnStreamGridPad")
    ensures ColumnsAt(lines, m, k) ==>
              Adjusts(StreamEdits(lines), k, "/*WS-SPAWN-STREAM*/", lines[k].constant.value.name, "X3WsSpawnStreamColumns")
  {
    if LeftAt(lines, m, k) {
      StreamAdjusts(c, lines, m, k, AssignedText(lines[k], "X3WsSpawnStreamLeft"));
      AssignedRead(c, lines, k, "X3WsSpawnStreamLeft");
    }
    if RightAt(lines, m, k) {
      StreamAdjusts(c, lines, m, k, ConstantText(lines[k], "X3WsSpawnStreamRightAdd"));
      ConstantRead(c, lines, k, "X3WsSpawnStreamRightAdd");
    }
    if PadAt(lines, m, k) {
      StreamAdjusts(c, lines, m, k, ConstantText(lines[k], "X3WsSpawnStreamGridPad"));
      ConstantRead(c, lines, k, "X3WsSpawnStreamGridPad");
    }
    if ColumnsAt(lines, m, k) {
      StreamAdjusts(c, lines, m, k, ConstantText(lines[k], "X3WsSpawnStreamColumns"));
      ConstantRead(c, lines, k, "X3WsSpawnStreamColumns");
    }
  }

  lemma StreamAdjusts(c: Patterns, lines: seq<Line>, m: nat, k: nat, text: string)
    requires EditIn(lines, m, k, text) && m < k
    ensures k in StreamEdits(lines) && StreamEdits(lines)[k] == text
  {
    StreamEditsExactly(lines, k, text);
    assert EditAt(lines, k, text);
  }
}
