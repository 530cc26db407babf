/** What the object-window pass of tools/apply_overrides.py injects, stated about the text alone:
    exactly the horizontal windows, their triggers and the landing thresholds. */
module OverrideSites {
  import opened Bytes
  import opened MarkedLines
  import opened WindowScan
  import opened Overrides

  /** A complete horizontal window: camera-X read, add constant, limit constant. */
  predicate PairAt(lines: seq<Line>, w: Window) {
    IsWindow(lines, PairRules(lines), w)
  }

  /** A camera trigger: camera-X read, add constant that is no pair's, comparison with object X. */
  predicate TriggerAt(lines: seq<Line>, w: Window) {
    IsWindow(lines, TriggerRules(lines, FirstEdits(lines)), w)
  }

  lemma {:induction false} LandingKeys(lines: seq<Line>, n: nat, k: nat)
    ensures k in LandingEdits(lines, n) <==> k < n && LandingAt(lines, k)
    ensures k in LandingEdits(lines, n) ==> LandingEdits(lines, n)[k] == LandingSnippet(lines, k)
  {
    if n > 0 {
      LandingKeys(lines, n - 1, k);
    }
  }

  /** Windows do not interleave: each lies wholly before the next. */
  lemma {:induction false} Ordered(lines: seq<Line>, rules: Rules, found: seq<Window>, n: nat, k: nat, l: nat)
    requires FoundOk(lines, rules, found, n) && k < l < |found|
    ensures found[k].closer < found[l].anchor
    decreases l
  {
    if k < l - 1 {
      Ordered(lines, rules, found, n, k, l - 1);
    }
  }

  /** The lines of the windows, in order, are all different. */
  predicate Sorted(found: seq<Window>) {
    && (forall k :: 0 <= k < |found| ==> found[k].opener < found[k].closer)
    && (forall k, l :: 0 <= k < l < |found| ==> found[k].closer < found[l].opener)
  }

  lemma FoundSorted(lines: seq<Line>, rules: Rules, found: seq<Window>, n: nat)
    requires FoundOk(lines, rules, found, n)
    ensures Sorted(found)
  {
    forall k, l | 0 <= k < l < |found|
      ensures found[k].closer < found[l].opener
    {
      Ordered(lines, rules, found, n, k, l);
      assert IsWindow(lines, rules, found[l]);
    }
  }

  /** The last window shares no line with the ones before it. */
  lemma LastApart(found: seq<Window>, v: Window)
    requires Sorted(found) && found != [] && v in found[..|found| - 1]
    ensures v.opener < v.closer < found[|found| - 1].opener < found[|found| - 1].closer
  {
    var l :| 0 <= l < |found| - 1 && found[l] == v;
  }

  lemma {:induction false} PairTexts(lines: seq<Line>, found: seq<Window>, w: Window)
    requires Sorted(found) && w in found
    ensures var edits := PairEdits(lines, found);
            && w.opener in edits && edits[w.opener] == ConstantSnippet(lines, w.opener, "X3WsObjWinAdd")
            && w.closer in edits && edits[w.closer] == ConstantSnippet(lines, w.closer, "X3WsObjWinLimit")
  {
    var front, last := found[..|found| - 1], found[|found| - 1];
    if w in front {
      LastApart(found, w);
      PairTexts(lines, front, w);
    } else {
      assert w == last;
    }
  }

  lemma PairsFound(lines: seq<Line>)
    ensures FoundOk(lines, PairRules(lines), Windows(lines, PairRules(lines)), |lines|)
    ensures forall w :: w in Windows(lines, PairRules(lines)) <==> PairAt(lines, w)
  {
    PairRulesPositive(lines);
    forall w: Window
      ensures w in Windows(lines, PairRules(lines)) <==> PairAt(lines, w)
    {
      FindsExactlyWindows(lines, PairRules(lines), w);
    }
    ScanToOk(lines, PairRules(lines), |lines|);
  }

  lemma TriggersFound(lines: seq<Line>)
    ensures FoundOk(lines, TriggerRules(lines, FirstEdits(lines)), Triggers(lines), |lines|)
    ensures forall w :: w in Triggers(lines) <==> TriggerAt(lines, w)
  {
    var rules := TriggerRules(lines, FirstEdits(lines));
    TriggerRulesPositive(lines, FirstEdits(lines));
    forall w: Window
      ensures w in Triggers(lines) <==> TriggerAt(lines, w)
    {
      FindsExactlyWindows(lines, rules, w);
    }
    ScanToOk(lines, rules, |lines|);
  }

  /** A line is injected after exactly when it is the add or the limit of a horizontal window, the
      add of a camera trigger, or a landing threshold; nothing else is ever touched. */
  lemma InjectedExactly(lines: seq<Line>, k: nat)
    ensures k in ObjectEdits(lines) <==>
              || LandingAt(lines, k)
              || (exists w :: PairAt(lines, w) && (k == w.opener || k == w.closer))
              || (exists w :: TriggerAt(lines, w) && k == w.opener)
  {
    PairsFound(lines);
    TriggersFound(lines);
    LandingKeys(lines, |lines|, k);
    PairKeys(lines, Windows(lines, PairRules(lines)), k);
    TriggerKeys(lines, Triggers(lines), k);
    if exists w :: PairAt(lines, w) && (k == w.opener || k == w.closer) {
      var w :| PairAt(lines, w) && (k == w.opener || k == w.closer);
      assert w in Windows(lines, PairRules(lines));
    }
    if exists w :: TriggerAt(lines, w) && k == w.opener {
      var w :| TriggerAt(lines, w) && k == w.opener;
      assert w in Triggers(lines);
    }
  }

  /** The text injected for a pair: its add goes through the add helper, its limit through the limit
      helper, each with its own variable and constant. */
  lemma PairInjected(lines: seq<Line>, w: Window)
    requires PairAt(lines, w)
    ensures w.opener in ObjectEdits(lines) && w.closer in ObjectEdits(lines)
    ensures ObjectEdits(lines)[w.opener] == ConstantSnippet(lines, w.opener, "X3WsObjWinAdd")
    ensures ObjectEdits(lines)[w.closer] == ConstantSnippet(lines, w.closer, "X3WsObjWinLimit")
  {
    var first := FirstEdits(lines);
    PairsFound(lines);
    TriggersFound(lines);
    FoundSorted(lines, PairRules(lines), Windows(lines, PairRules(lines)), |lines|);
    PairTexts(lines, Windows(lines, PairRules(lines)), w);
    TriggersAvoid(lines, w.opener);
    TriggersAvoid(lines, w.closer);
  }

  /** No trigger reuses a line of the first pass. */
  lemma TriggersAvoid(lines: seq<Line>, k: nat)
    requires k in FirstEdits(lines)
    ensures k !in TriggerEdits(lines, Triggers(lines))
  {
    TriggersFound(lines);
    TriggerKeys(lines, Triggers(lines), k);
  }

  lemma {:induction false} TriggerTexts(lines: seq<Line>, found: seq<Window>, w: Window)
    requires w in found
    ensures w.opener in TriggerEdits(lines, found)
    ensures TriggerEdits(lines, found)[w.opener] == ConstantSnippet(lines, w.opener, "X3WsObjWinAdd")
  {
    var front, last := found[..|found| - 1], found[|found| - 1];
    if w in front {
      TriggerTexts(lines, front, w);
    } else {
      assert w == last;
    }
  }

  /** The text injected for a trigger's add and for a landing threshold. */
  lemma TriggerInjected(lines: seq<Line>, w: Window)
    requires TriggerAt(lines, w)
    ensures w.opener in ObjectEdits(lines)
    ensures ObjectEdits(lines)[w.opener] == ConstantSnippet(lines, w.opener, "X3WsObjWinAdd")
  {
    TriggersFound(lines);
    TriggerTexts(lines, Triggers(lines), w);
  }

  lemma LandingInjected(lines: seq<Line>, k: nat)
    requires LandingAt(lines, k)
    ensures k in ObjectEdits(lines) && ObjectEdits(lines)[k] == LandingSnippet(lines, k)
  {
    LandingKeys(lines, |lines|, k);
    PairsFound(lines);
    PairKeys(lines, Windows(lines, PairRules(lines)), k);
    assert k in FirstEdits(lines);
    TriggersAvoid(lines, k);
  }

  /** Only horizontal windows. An injected add lies in a function, behind a camera-X read, with no
      camera-Y read, other camera-X read or function header between, at most 59 lines away (39 for
      a trigger); its limit or comparison follows, again with nothing of the kind between, within
      39 lines (179 in the centered routine, 29 for a trigger). */
  lemma PairIsHorizontal(lines: seq<Line>, w: Window)
    requires PairAt(lines, w)
    ensures lines[w.anchor].IsCameraX() && FunctionAt(lines, w.anchor).Some?
    ensures forall m :: w.anchor < m <= w.closer ==> lines[m].Plain() && FunctionAt(lines, m) == FunctionAt(lines, w.anchor)
    ensures w.opener - w.anchor <= 59
    ensures w.closer - w.opener <= if FunctionAt(lines, w.anchor) == Some(CENTERED) then 179 else 39
    ensures LiteralIn(lines, w.opener, ADD_CONSTS) && LiteralIn(lines, w.closer, LIMIT_CONSTS)
    ensures var add, limit := LiteralAt(lines, w.opener).value, LiteralAt(lines, w.closer).value;
            || HexValue(limit) == 0x100 + 2 * HexValue(add)
            || (FunctionAt(lines, w.anchor) == Some(CENTERED) && add == "0x80" && limit == "0x1c0")
  {
    SameFunction(lines, PairRules(lines), w);
  }

  /** A camera-X read in a function at a, and from there to line j nothing but plain lines. */
  predicate ReadUpTo(lines: seq<Line>, a: nat, j: nat) {
    && a < j < |lines| && lines[a].IsCameraX() && FunctionAt(lines, a).Some?
    && forall m :: a < m <= j ==> lines[m].Plain()
  }

  predicate Literally(lines: seq<Line>, k: nat, literals: set<string>) {
    k < |lines| && lines[k].Code? && lines[k].constant.Some? && lines[k].constant.value.literal in literals
  }

  /** The constants at i and j belong together: limit = $100 + 2 * add, or the one centered pair. */
  predicate Paired(lines: seq<Line>, i: nat, j: nat)
    requires Literally(lines, i, {"0x20", "0x38", "0x40", "0x60", "0x80"})
    requires j < |lines| && lines[j].Code? && lines[j].constant.Some?
  {
    var add, limit := lines[i].constant.value.literal, lines[j].constant.value.literal;
    HexValue(limit) == 0x100 + 2 * HexValue(add) || (FunctionAt(lines, j) == Some("bank_02_DAE7") && add == "0x80" && limit == "0x1c0")
  }

  /** The closing line of a pair that was opened at i. */
  predicate Limits(lines: seq<Line>, i: nat, j: nat)
    requires Literally(lines, i, {"0x20", "0x38", "0x40", "0x60", "0x80"})
  {
    Literally(lines, j, {"0x140", "0x170", "0x180", "0x1c0", "0x200"}) && Paired(lines, i, j)
  }

  /** A horizontal window, in the tool's own numbers: behind a camera-X read the first add constant,
      within 59 lines, and behind that the first limit that belongs to it, within 39 lines, or 179 in
      the centered routine. */
  predicate Horizontal(lines: seq<Line>, a: nat, i: nat, j: nat) {
    && i < j && ReadUpTo(lines, a, j) && a < i <= a + 59
    && Literally(lines, i, {"0x20", "0x38", "0x40", "0x60", "0x80"})
    && (forall m :: a < m < i ==> !Literally(lines, m, {"0x20", "0x38", "0x40", "0x60", "0x80"}))
    && j - i <= (if FunctionAt(lines, i) == Some("bank_02_DAE7") then 179 else 39)
    && Limits(lines, i, j)
    && forall m :: i < m < j ==> !Limits(lines, i, m)
  }

  lemma AddLiterals(lines: seq<Line>, k: nat)
    ensures LiteralIn(lines, k, ADD_CONSTS) <==> Literally(lines, k, {"0x20", "0x38", "0x40", "0x60", "0x80"})
  {
  }

  lemma LimitsClose(lines: seq<Line>, i: nat, j: nat)
    requires Literally(lines, i, {"0x20", "0x38", "0x40", "0x60", "0x80"})
    ensures PairRules(lines).closes(i, j) <==> Limits(lines, i, j)
  {
  }

  lemma PairIsDescribed(lines: seq<Line>, w: Window)
    requires PairAt(lines, w)
    ensures Horizontal(lines, w.anchor, w.opener, w.closer)
  {
    PairIsHorizontal(lines, w);
    AddLiterals(lines, w.opener);
    forall m | w.anchor < m < w.opener
      ensures !Literally(lines, m, {"0x20", "0x38", "0x40", "0x60", "0x80"})
    {
      assert !PairRules(lines).opens(m);
      AddLiterals(lines, m);
    }
    LimitsClose(lines, w.opener, w.closer);
    forall m | w.opener < m < w.closer
      ensures !Limits(lines, w.opener, m)
    {
      LimitsClose(lines, w.opener, m);
    }
  }

  lemma DescribedIsPair(lines: seq<Line>, a: nat, i: nat, j: nat)
    requires Horizontal(lines, a, i, j)
    ensures PairAt(lines, Window(a, i, j))
  {
    var rules := PairRules(lines);
    AddLiterals(lines, i);
    forall m | a < m < i
      ensures !rules.opens(m)
    {
      AddLiterals(lines, m);
    }
    assert OpensWindow(lines, rules, a, i);
    LimitsClose(lines, i, j);
    forall m | i < m < j
      ensures !rules.closes(i, m)
    {
      LimitsClose(lines, i, m);
    }
  }

  /** Exactly the horizontal windows are pairs, and both their lines are injected after. */
  lemma PairsExactly(lines: seq<Line>, a: nat, i: nat, j: nat)
    ensures PairAt(lines, Window(a, i, j)) <==> Horizontal(lines, a, i, j)
    ensures Horizontal(lines, a, i, j) ==> i in ObjectEdits(lines) && j in ObjectEdits(lines)
  {
    if PairAt(lines, Window(a, i, j)) {
      PairIsDescribed(lines, Window(a, i, j));
    }
    if Horizontal(lines, a, i, j) {
      DescribedIsPair(lines, a, i, j);
      PairInjected(lines, Window(a, i, j));
    }
  }

  /** A comparison with the object's X: a read of dp+$05, and a subtraction within five lines. */
  predicate Compares(lines: seq<Line>, k: nat) {
    && k < |lines| && lines[k].Code? && lines[k].readsX
    && exists m :: k + 1 <= m <= k + 5 && m < |lines| && lines[m].Code? && lines[m].compareTemp
  }

  /** A trigger constant on a line that the first pass left alone. */
  predicate FreeTrigger(lines: seq<Line>, k: nat) {
    && Literally(lines, k, {"0x20", "0x40", "0x60", "0x80", "0xa0", "0xc0", "0x100", "0x110", "0x120", "0x140"})
    && k !in FirstEdits(lines)
  }

  /** A camera trigger, likewise: within 39 lines, and compared within 29 more. */
  predicate Triggered(lines: seq<Line>, a: nat, i: nat, j: nat) {
    && i < j && ReadUpTo(lines, a, j) && a < i <= a + 39 && j <= i + 29
    && FreeTrigger(lines, i) && (forall m :: a < m < i ==> !FreeTrigger(lines, m))
    && Compares(lines, j) && (forall m :: i < m < j ==> !Compares(lines, m))
  }

  lemma TriggerOpens(lines: seq<Line>, i: nat, j: nat)
    ensures TriggerRules(lines, FirstEdits(lines)).opens(i) <==> FreeTrigger(lines, i)
    ensures TriggerRules(lines, FirstEdits(lines)).closes(i, j) <==> Compares(lines, j)
  {
  }

  /** Exactly those are triggers, and their constants are injected after. */
  lemma TriggersExactly(lines: seq<Line>, a: nat, i: nat, j: nat)
    ensures TriggerAt(lines, Window(a, i, j)) <==> Triggered(lines, a, i, j)
    ensures Triggered(lines, a, i, j) ==> i in ObjectEdits(lines)
  {
    var rules := TriggerRules(lines, FirstEdits(lines));
    forall m: nat, n: nat
      ensures rules.opens(m) <==> FreeTrigger(lines, m)
      ensures rules.closes(m, n) <==> Compares(lines, n)
    {
      TriggerOpens(lines, m, n);
    }
    if TriggerAt(lines, Window(a, i, j)) {
      TriggerIsHorizontal(lines, Window(a, i, j));
    }
    if Triggered(lines, a, i, j) {
      assert OpensWindow(lines, rules, a, i);
      TriggerInjected(lines, Window(a, i, j));
    }
  }

  lemma SameFunction(lines: seq<Line>, rules: Rules, w: Window)
    requires IsWindow(lines, rules, w)
    ensures forall m :: w.anchor < m <= w.closer ==> lines[m].Plain() && FunctionAt(lines, m) == FunctionAt(lines, w.anchor)
  {
    forall m | w.anchor < m <= w.closer
      ensures lines[m].Plain() && FunctionAt(lines, m) == FunctionAt(lines, w.anchor)
    {
      assert PlainBetween(lines, w.anchor, m + 1) by {
        forall p | w.anchor < p < m + 1 && p < |lines|
          ensures lines[p].Plain()
        {
        }
      }
      FunctionKept(lines, w.anchor, m);
    }
  }

  lemma TriggerIsHorizontal(lines: seq<Line>, w: Window)
    requires TriggerAt(lines, w)
    ensures lines[w.anchor].IsCameraX() && FunctionAt(lines, w.anchor).Some?
    ensures forall m :: w.anchor < m <= w.closer ==> lines[m].Plain() && FunctionAt(lines, m) == FunctionAt(lines, w.anchor)
    ensures w.opener - w.anchor <= 39 && w.closer - w.opener <= 29
    ensures LiteralIn(lines, w.opener, TRIGGER_ADDS) && ComparesX(lines, w.closer)
  {
    SameFunction(lines, TriggerRules(lines, FirstEdits(lines)), w);
  }

  /** Every limit has one partner: two windows that share a line are the same window. */
  lemma OnePartner(lines: seq<Line>, v: Window, w: Window)
    requires PairAt(lines, v) && PairAt(lines, w)
    requires v.closer == w.closer || v.opener == w.opener || v.closer == w.opener
    ensures v == w
  {
    var found := Windows(lines, PairRules(lines));
    PairsFound(lines);
    assert v in found && w in found;
    var k :| 0 <= k < |found| && found[k] == v;
    var l :| 0 <= l < |found| && found[l] == w;
    if k < l {
      Ordered(lines, PairRules(lines), found, |lines|, k, l);
    } else if l < k {
      Ordered(lines, PairRules(lines), found, |lines|, l, k);
    }
  }

  // ----- the census

  function Landings(lines: seq<Line>, n: nat): nat {
    if n == 0 then 0 else Landings(lines, n - 1) + (if LandingAt(lines, n - 1) then 1 else 0)
  }

  lemma {:induction false} LandingCount(lines: seq<Line>, n: nat)
    ensures |LandingEdits(lines, n)| == Landings(lines, n)
  {
    if n > 0 {
      LandingCount(lines, n - 1);
      LandingKeys(lines, n - 1, n - 1);
    }
  }

  lemma {:induction false} PairCount(lines: seq<Line>, found: seq<Window>)
    requires Sorted(found)
    ensures |PairEdits(lines, found)| == 2 * |found|
  {
    if found != [] {
      var front, w := found[..|found| - 1], found[|found| - 1];
      PairCount(lines, front);
      forall v | v in front
        ensures v.opener < v.closer < w.opener < w.closer
      {
        LastApart(found, v);
      }
      PairKeys(lines, front, w.opener);
      PairKeys(lines, front, w.closer);
      TwoAdded(PairEdits(lines, front), w.opener, ConstantSnippet(lines, w.opener, "X3WsObjWinAdd"),
               w.closer, ConstantSnippet(lines, w.closer, "X3WsObjWinLimit"));
    }
  }

  lemma TwoAdded<K, V>(m: map<K, V>, a: K, x: V, b: K, y: V)
    requires a !in m && b !in m && a != b
    ensures |m[a := x][b := y]| == |m| + 2
  {
    assert |m[a := x]| == |m| + 1;
  }

  lemma {:induction false} TriggerCount(lines: seq<Line>, found: seq<Window>)
    requires Sorted(found)
    ensures |TriggerEdits(lines, found)| == |found|
  {
    if found != [] {
      var front, w := found[..|found| - 1], found[|found| - 1];
      TriggerCount(lines, front);
      forall v | v in front
        ensures v.opener < w.opener
      {
        LastApart(found, v);
      }
      TriggerKeys(lines, front, w.opener);
    }
  }

  lemma DisjointUnion<K, V>(a: map<K, V>, b: map<K, V>)
    requires a.Keys !! b.Keys
    ensures |a + b| == |a| + |b|
  {
    assert (a + b).Keys == a.Keys + b.Keys;
    assert |(a + b).Keys| == |a.Keys| + |b.Keys|;
  }

  /** The census. The number of injected object sites is always two per pair, one per landing and
      one per trigger: no line is used twice, within a pass or across them. */
  lemma Census(lines: seq<Line>)
    ensures |ObjectEdits(lines)|
         == 2 * |Windows(lines, PairRules(lines))| + Landings(lines, |lines|) + |Triggers(lines)|
  {
    var landing, pairs := LandingEdits(lines, |lines|), PairEdits(lines, Windows(lines, PairRules(lines)));
    var triggers := TriggerEdits(lines, Triggers(lines));
    PairsFound(lines);
    TriggersFound(lines);
    LandingCount(lines, |lines|);
    FoundSorted(lines, PairRules(lines), Windows(lines, PairRules(lines)), |lines|);
    FoundSorted(lines, TriggerRules(lines, FirstEdits(lines)), Triggers(lines), |lines|);
    PairCount(lines, Windows(lines, PairRules(lines)));
    TriggerCount(lines, Triggers(lines));
    forall k | k in landing
      ensures k !in pairs
    {
      LandingKeys(lines, |lines|, k);
      PairKeys(lines, Windows(lines, PairRules(lines)), k);
    }
    DisjointUnion(landing, pairs);
    forall k | k in FirstEdits(lines)
      ensures k !in triggers
    {
      TriggersAvoid(lines, k);
    }
    DisjointUnion(FirstEdits(lines), triggers);
  }
}
