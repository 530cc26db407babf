/** The object-window pass of tools/apply_overrides.py: its two line scans and what they inject. */
module Overrides {
  import opened Bytes
  import opened MarkedLines
  import opened WindowScan
  import Text

  const ADD_CONSTS: set<string> := {"0x20", "0x38", "0x40", "0x60", "0x80"}
  const LIMIT_CONSTS: set<string> := {"0x140", "0x170", "0x180", "0x1c0", "0x200"}
  const TRIGGER_ADDS: set<string> :=
    {"0x20", "0x40", "0x60", "0x80", "0xa0", "0xc0", "0x100", "0x110", "0x120", "0x140"}
  const CENTERED: string := "bank_02_DAE7"
  const LANDING_FUNCTIONS: set<string> := {"bank_07_9077", "bank_3C_C582"}

  const ADD_BUDGET: nat := 60
  const LIMIT_BUDGET: nat := 40
  const CENTERED_LIMIT_BUDGET: nat := 180
  const TRIGGER_BUDGET: nat := 40
  const COMPARE_BUDGET: nat := 30

  // ----- what lines say

  function LiteralAt(lines: seq<Line>, k: nat): Option<string> {
    if k < |lines| && lines[k].Code? && lines[k].constant.Some? then Some(lines[k].constant.value.literal) else None
  }

  predicate LiteralIn(lines: seq<Line>, k: nat, literals: set<string>) {
    LiteralAt(lines, k).Some? && LiteralAt(lines, k).value in literals
  }

  function HexValue(literal: string): nat {
    if |literal| > 2 && literal[..2] == "0x" && Text.AllDigits(16, literal[2..]) then Text.Number(16, literal[2..])
    else 0
  }

  predicate InFunction(lines: seq<Line>, k: nat, name: string) {
    k < |lines| && FunctionAt(lines, k) == Some(name)
  }

  /** The limit belongs to the add: 256 + 2 * add, or the one centered pair. */
  predicate Matches(lines: seq<Line>, add: nat, limit: nat) {
    && LiteralAt(lines, add).Some? && LiteralAt(lines, limit).Some?
    && var a, l := LiteralAt(lines, add).value, LiteralAt(lines, limit).value;
       || HexValue(l) == 0x100 + 2 * HexValue(a)
       || (InFunction(lines, limit, CENTERED) && a == "0x80" && l == "0x1c0")
  }

  /** A comparison with the object's X: a read of dp+5 with a subtraction within five lines. */
  predicate ComparesX(lines: seq<Line>, k: nat) {
    && k < |lines| && lines[k].Code? && lines[k].readsX
    && exists m :: k < m < k + 6 && m < |lines| && lines[m].Code? && lines[m].compareTemp
  }

  // ----- the two passes as window scans

  function PairRules(lines: seq<Line>): Rules {
    Rules(ADD_BUDGET,
          (k: nat) => LiteralIn(lines, k, ADD_CONSTS),
          (i: nat) => if InFunction(lines, i, CENTERED) then CENTERED_LIMIT_BUDGET else LIMIT_BUDGET,
          (i: nat, j: nat) => LiteralIn(lines, j, LIMIT_CONSTS) && Matches(lines, i, j))
  }

  /** The second pass opens only on lines the first pass left alone. */
  function TriggerRules(lines: seq<Line>, edits: map<nat, string>): Rules {
    Rules(TRIGGER_BUDGET,
          (k: nat) => LiteralIn(lines, k, TRIGGER_ADDS) && k !in edits,
          (i: nat) => COMPARE_BUDGET,
          (i: nat, j: nat) => ComparesX(lines, j))
  }

  // ----- injected lines

  const MARKER: string := "/*WS-OBJ-WIN*/"

  function Snippet(indent: string, name: string, helper: string, argument: string): string {
    indent + MARKER + Call(name, helper, argument) + "\n"
  }

  function ConstantSnippet(lines: seq<Line>, k: nat, helper: string): string {
    if k < |lines| && lines[k].Code? && lines[k].constant.Some? then
      var c := lines[k].constant.value;
      Snippet(c.indent, c.name, helper, c.literal)
    else ""
  }

  /** A camera-Y read in one of the two landing routines, assigned to a variable. */
  predicate LandingAt(lines: seq<Line>, k: nat) {
    && k < |lines| && lines[k].IsCameraY() && lines[k].assigns.Some?
    && FunctionAt(lines, k).Some? && FunctionAt(lines, k).value in LANDING_FUNCTIONS
  }

  function LandingSnippet(lines: seq<Line>, k: nat): string
    requires LandingAt(lines, k)
  {
    var a := lines[k].assigns.value;
    Snippet(a.indent, a.name, "X3HunterLandingCameraY", a.name)
  }

  function LandingEdits(lines: seq<Line>, n: nat): map<nat, string> {
    if n == 0 then map[]
    else
      var front := LandingEdits(lines, n - 1);
      if LandingAt(lines, n - 1) then front[n - 1 := LandingSnippet(lines, n - 1)] else front
  }

  function PairEdits(lines: seq<Line>, found: seq<Window>): map<nat, string> {
    if found == [] then map[]
    else
      var w := found[|found| - 1];
      PairEdits(lines, found[..|found| - 1])
        [w.opener := ConstantSnippet(lines, w.opener, "X3WsObjWinAdd")]
        [w.closer := ConstantSnippet(lines, w.closer, "X3WsObjWinLimit")]
  }

  function TriggerEdits(lines: seq<Line>, found: seq<Window>): map<nat, string> {
    if found == [] then map[]
    else
      var w := found[|found| - 1];
      TriggerEdits(lines, found[..|found| - 1])[w.opener := ConstantSnippet(lines, w.opener, "X3WsObjWinAdd")]
  }

  function FirstEdits(lines: seq<Line>): map<nat, string> {
    LandingEdits(lines, |lines|) + PairEdits(lines, Windows(lines, PairRules(lines)))
  }

  function Triggers(lines: seq<Line>): seq<Window> {
    Windows(lines, TriggerRules(lines, FirstEdits(lines)))
  }

  function ObjectEdits(lines: seq<Line>): map<nat, string> {
    FirstEdits(lines) + TriggerEdits(lines, Triggers(lines))
  }

  // ----- the loops of apply_obj_windows

  lemma PairRulesPositive(lines: seq<Line>)
    ensures Positive(PairRules(lines))
  {
  }

  /** The keys of completed pairs are their lines, before the current one. */
  lemma {:induction false} PairKeys(lines: seq<Line>, found: seq<Window>, k: nat)
    ensures k in PairEdits(lines, found) <==> exists w :: w in found && (k == w.opener || k == w.closer)
  {
    if found != [] {
      var front, w := found[..|found| - 1], found[|found| - 1];
      PairKeys(lines, front, k);
      assert forall v :: v in found <==> v in front || v == w;
    }
  }

  lemma PairKeysBelow(lines: seq<Line>, n: nat)
    requires n <= |lines|
    ensures n !in PairEdits(lines, ScanTo(lines, PairRules(lines), n).found)
  {
    PairRulesPositive(lines);
    ScanToOk(lines, PairRules(lines), n);
    PairKeys(lines, ScanTo(lines, PairRules(lines), n).found, n);
  }

  lemma PairStep(lines: seq<Line>, base: map<nat, string>, found: seq<Window>, w: Window)
    ensures base + PairEdits(lines, found + [w])
         == (base + PairEdits(lines, found))
              [w.opener := ConstantSnippet(lines, w.opener, "X3WsObjWinAdd")]
              [w.closer := ConstantSnippet(lines, w.closer, "X3WsObjWinLimit")]
  {
    assert (found + [w])[..|found|] == found;
  }

  lemma LandingStep(base: map<nat, string>, pairs: map<nat, string>, k: nat, text: string)
    requires k !in pairs
    ensures base[k := text] + pairs == (base + pairs)[k := text]
  {
  }

  /** A line of pass 1 that is no camera read, inside a function. */
  method AdvancePair(lines: seq<Line>, k: nat, fn: string, phase: Phase, edits: map<nat, string>, pairs: nat,
                     ghost s: Scan, ghost base: map<nat, string>)
    returns (next: Phase, edits': map<nat, string>, pairs': nat)
    requires k < |lines| && FunctionAt(lines, k) == Some(fn) && s.phase == phase
    requires pairs == |s.found| && edits == base + PairEdits(lines, s.found)
    ensures var q := Advance(PairRules(lines), s, k);
            next == q.phase && pairs' == |q.found| && edits' == base + PairEdits(lines, q.found)
  {
    next, edits', pairs' := phase, edits, pairs;
    match phase {
      case Idle =>
      case Armed(ttl, a) =>
        if ttl <= 1 {
          next := Idle;
        } else if LiteralIn(lines, k, ADD_CONSTS) {
          next := Opened(if fn == CENTERED then CENTERED_LIMIT_BUDGET else LIMIT_BUDGET, a, k);
        } else {
          next := Armed(ttl - 1, a);
        }
      case Opened(ttl, a, i) =>
        if ttl <= 1 {
          next := Idle;
        } else if LiteralIn(lines, k, LIMIT_CONSTS) && Matches(lines, i, k) {
          PairStep(lines, base, s.found, Window(a, i, k));
          edits' := edits[i := ConstantSnippet(lines, i, "X3WsObjWinAdd")]
                         [k := ConstantSnippet(lines, k, "X3WsObjWinLimit")];
          pairs' := pairs + 1;
          next := Idle;
        } else {
          next := Opened(ttl - 1, a, i);
        }
    }
  }

  /** Pass 1: horizontal pairs and landing thresholds. */
  method FindPairs(lines: seq<Line>) returns (edits: map<nat, string>, pairs: nat)
    ensures edits == FirstEdits(lines)
    ensures pairs == |Windows(lines, PairRules(lines))|
  {
    ghost var rules := PairRules(lines);
    var fn: Option<string> := None;
    var phase := Idle;
    edits, pairs := map[], 0;
    for k := 0 to |lines|
      invariant fn == ScanTo(lines, rules, k).inFunction && phase == ScanTo(lines, rules, k).phase
      invariant fn == if k == 0 then None else FunctionAt(lines, k - 1)
      invariant pairs == |ScanTo(lines, rules, k).found|
      invariant edits == LandingEdits(lines, k) + PairEdits(lines, ScanTo(lines, rules, k).found)
    {
      var line := lines[k];
      ghost var s := ScanTo(lines, rules, k);
      ghost var here := s.(inFunction := Enter(s.inFunction, line), phase := Disarmed(s.phase, line));
      fn := Enter(fn, line);
      phase := Disarmed(phase, line);
      if fn.Some? {
        if line.IsCameraX() {
          phase := Armed(ADD_BUDGET, k);
        } else if line.IsCameraY() {
          if fn.value in LANDING_FUNCTIONS && line.assigns.Some? {
            var a := line.assigns.value;
            PairKeysBelow(lines, k);
            LandingStep(LandingEdits(lines, k), PairEdits(lines, s.found), k, LandingSnippet(lines, k));
            edits := edits[k := Snippet(a.indent, a.name, "X3HunterLandingCameraY", a.name)];
          }
          phase := Idle;
        } else {
          phase, edits, pairs := AdvancePair(lines, k, fn.value, phase, edits, pairs, here, LandingEdits(lines, k));
        }
      }
    }
  }

  lemma TriggerStep(lines: seq<Line>, base: map<nat, string>, found: seq<Window>, w: Window)
    ensures base + TriggerEdits(lines, found + [w])
         == (base + TriggerEdits(lines, found))[w.opener := ConstantSnippet(lines, w.opener, "X3WsObjWinAdd")]
  {
    assert (found + [w])[..|found|] == found;
  }

  /** A line of pass 2 that is no camera read, inside a function. */
  method AdvanceTrigger(lines: seq<Line>, k: nat, phase: Phase, edits: map<nat, string>, ghost s: Scan,
                        ghost base: map<nat, string>)
    returns (next: Phase, edits': map<nat, string>)
    requires k < |lines| && s.phase == phase
    requires edits == base + TriggerEdits(lines, s.found)
    requires k in edits <==> k in base
    ensures var q := Advance(TriggerRules(lines, base), s, k);
            next == q.phase && edits' == base + TriggerEdits(lines, q.found)
  {
    next, edits' := phase, edits;
    match phase {
      case Idle =>
      case Armed(ttl, a) =>
        if ttl <= 1 {
          next := Idle;
        } else if LiteralIn(lines, k, TRIGGER_ADDS) && k !in edits {
          next := Opened(COMPARE_BUDGET, a, k);
        } else {
          next := Armed(ttl - 1, a);
        }
      case Opened(ttl, a, i) =>
        if ttl <= 1 {
          next := Idle;
        } else if ComparesX(lines, k) {
          TriggerStep(lines, base, s.found, Window(a, i, k));
          edits' := edits[i := ConstantSnippet(lines, i, "X3WsObjWinAdd")];
          next := Idle;
        } else {
          next := Opened(ttl - 1, a, i);
        }
    }
  }

  lemma TriggerRulesPositive(lines: seq<Line>, edits: map<nat, string>)
    ensures Positive(TriggerRules(lines, edits))
  {
  }

  lemma {:induction false} TriggerKeys(lines: seq<Line>, found: seq<Window>, k: nat)
    ensures k in TriggerEdits(lines, found) <==> exists w :: w in found && k == w.opener
  {
    if found != [] {
      var front, w := found[..|found| - 1], found[|found| - 1];
      TriggerKeys(lines, front, k);
      assert forall v :: v in found <==> v in front || v == w;
    }
  }

  lemma TriggerKeysBelow(lines: seq<Line>, base: map<nat, string>, n: nat)
    requires n <= |lines|
    ensures n !in TriggerEdits(lines, ScanTo(lines, TriggerRules(lines, base), n).found)
  {
    TriggerRulesPositive(lines, base);
    ScanToOk(lines, TriggerRules(lines, base), n);
    TriggerKeys(lines, ScanTo(lines, TriggerRules(lines, base), n).found, n);
  }

  /** Pass 2: camera triggers, on lines that pass 1 left alone. */
  method FindTriggers(lines: seq<Line>, base: map<nat, string>) returns (edits: map<nat, string>)
    ensures edits == base + TriggerEdits(lines, Windows(lines, TriggerRules(lines, base)))
  {
    ghost var rules := TriggerRules(lines, base);
    var fn: Option<string> := None;
    var phase := Idle;
    edits := base;
    for k := 0 to |lines|
      invariant fn == ScanTo(lines, rules, k).inFunction && phase == ScanTo(lines, rules, k).phase
      invariant edits == base + TriggerEdits(lines, ScanTo(lines, rules, k).found)
    {
      var line := lines[k];
      ghost var s := ScanTo(lines, rules, k);
      ghost var here := s.(inFunction := Enter(s.inFunction, line), phase := Disarmed(s.phase, line));
      fn := Enter(fn, line);
      phase := Disarmed(phase, line);
      if fn.Some? {
        if line.IsCameraX() {
          phase := Armed(TRIGGER_BUDGET, k);
        } else if line.IsCameraY() {
          phase := Idle;
        } else {
          TriggerKeysBelow(lines, base, k);
          phase, edits := AdvanceTrigger(lines, k, phase, edits, here, base);
        }
      }
    }
  }

  /** apply_obj_windows */
  method ApplyObjectWindows(lines: seq<Line>) returns (out: seq<Line>, count: nat, pairs: nat)
    ensures out == Inject(lines, ObjectEdits(lines))
    ensures count == |ObjectEdits(lines)| && pairs == |Windows(lines, PairRules(lines))|
  {
    var base: map<nat, string>;
    base, pairs := FindPairs(lines);
    var edits := FindTriggers(lines, base);
    out := InjectLines(lines, edits);
    count := |edits|;
  }
}
