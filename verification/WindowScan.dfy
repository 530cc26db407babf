/** The two-stage line scan that both passes of apply_obj_windows perform: a camera-X read arms it,
    an opening line within a budget is remembered, a closing line within a second budget completes
    a window; function headers and camera reads disarm it. */
module WindowScan {
  import opened Bytes
  import opened MarkedLines

  /** Which lines open a window, which close one opened at a given line, and the budgets. */
  datatype Rules = Rules(budget: nat, opens: nat -> bool, follow: nat -> nat, closes: (nat, nat) -> bool)

  datatype Phase =
    | Idle
    | Armed(ttl: nat, anchor: nat)
    | Opened(ttl: nat, anchor: nat, opener: nat)

  datatype Window = Window(anchor: nat, opener: nat, closer: nat)

  datatype Scan = Scan(inFunction: Option<string>, phase: Phase, found: seq<Window>)

  /** The enclosing function after a line. */
  function Enter(fn: Option<string>, line: Line): Option<string> {
    if line.Marked? then fn
    else
      match line.header
      case FunctionHeader(name) => Some(name)
      case OtherHeader => None
      case NoHeader => fn
  }

  function FunctionAt(lines: seq<Line>, k: nat): Option<string>
    requires k < |lines|
  {
    Enter(if k == 0 then None else FunctionAt(lines, k - 1), lines[k])
  }

  function Disarmed(phase: Phase, line: Line): Phase {
    if line.Code? && line.header != NoHeader then Idle else phase
  }

  /** A line that is no camera read, while the scan is armed. */
  function Advance(rules: Rules, s: Scan, k: nat): Scan {
    match s.phase
    case Idle => s
    case Armed(ttl, a) =>
      if ttl <= 1 then s.(phase := Idle)
      else if rules.opens(k) then s.(phase := Opened(rules.follow(k), a, k))
      else s.(phase := Armed(ttl - 1, a))
    case Opened(ttl, a, i) =>
      if ttl <= 1 then s.(phase := Idle)
      else if rules.closes(i, k) then s.(phase := Idle, found := s.found + [Window(a, i, k)])
      else s.(phase := Opened(ttl - 1, a, i))
  }

  /** One line of the scan. */
  function Step(lines: seq<Line>, rules: Rules, s: Scan, k: nat): Scan
    requires k < |lines|
  {
    var line := lines[k];
    var here := s.(inFunction := Enter(s.inFunction, line), phase := Disarmed(s.phase, line));
    if here.inFunction == None then here
    else if line.IsCameraX() then here.(phase := Armed(rules.budget, k))
    else if line.IsCameraY() then here.(phase := Idle)
    else Advance(rules, here, k)
  }

  /** The scan of the first n lines. */
  function ScanTo(lines: seq<Line>, rules: Rules, n: nat): Scan
    requires n <= |lines|
  {
    if n == 0 then Scan(None, Idle, []) else Step(lines, rules, ScanTo(lines, rules, n - 1), n - 1)
  }

  function Windows(lines: seq<Line>, rules: Rules): seq<Window> {
    ScanTo(lines, rules, |lines|).found
  }

  // ----- what a window is

  predicate PlainBetween(lines: seq<Line>, a: nat, k: nat) {
    forall m :: a < m < k && m < |lines| ==> lines[m].Plain()
  }

  /** A camera-X read inside a function arms the scan at `a`, and nothing disarms it before line k. */
  predicate ArmedFrom(lines: seq<Line>, a: nat, k: nat) {
    && a < |lines| && a < k
    && lines[a].IsCameraX()
    && FunctionAt(lines, a).Some?
    && PlainBetween(lines, a, k)
  }

  /** Line i is the first opening line after the camera-X read at a, in budget. */
  predicate OpensWindow(lines: seq<Line>, rules: Rules, a: nat, i: nat) {
    && a < i < |lines|
    && ArmedFrom(lines, a, i + 1)
    && i - a < rules.budget
    && rules.opens(i)
    && forall m :: a < m < i ==> !rules.opens(m)
  }

  /** Line j is the first line that closes it, in budget. */
  predicate IsWindow(lines: seq<Line>, rules: Rules, w: Window) {
    && OpensWindow(lines, rules, w.anchor, w.opener)
    && w.opener < w.closer < |lines|
    && PlainBetween(lines, w.opener, w.closer + 1)
    && w.closer - w.opener < rules.follow(w.opener)
    && rules.closes(w.opener, w.closer)
    && forall m :: w.opener < m < w.closer ==> !rules.closes(w.opener, m)
  }

  // ----- the scan finds exactly the windows

  /** What the phase says about the lines before n. */
  predicate PhaseOk(lines: seq<Line>, rules: Rules, phase: Phase, n: nat) {
    match phase
    case Idle => true
    case Armed(ttl, a) =>
      && ArmedFrom(lines, a, n) && n - 1 - a < rules.budget && ttl == rules.budget - (n - 1 - a)
      && forall m :: a < m < n ==> !rules.opens(m)
    case Opened(ttl, a, i) =>
      && OpensWindow(lines, rules, a, i) && i < n && PlainBetween(lines, i, n)
      && n - 1 - i < rules.follow(i) && ttl == rules.follow(i) - (n - 1 - i)
      && forall m :: i < m < n ==> !rules.closes(i, m)
  }

  ghost predicate Positive(rules: Rules) {
    rules.budget > 0 && forall i: nat {:trigger rules.follow(i)} :: rules.follow(i) > 0
  }

  predicate FoundOk(lines: seq<Line>, rules: Rules, found: seq<Window>, n: nat) {
    && (forall k :: 0 <= k < |found| ==> IsWindow(lines, rules, found[k]) && found[k].closer < n)
    && (forall k :: 0 < k < |found| ==> found[k - 1].closer < found[k].anchor)
  }

  /** A phase still points at lines after every completed window. */
  predicate PhaseAfter(phase: Phase, found: seq<Window>) {
    phase != Idle && found != [] ==> found[|found| - 1].closer < phase.anchor
  }

  predicate ScanOk(lines: seq<Line>, rules: Rules, s: Scan, n: nat)
    requires n <= |lines|
  {
    && s.inFunction == (if n == 0 then None else FunctionAt(lines, n - 1))
    && PhaseOk(lines, rules, s.phase, n)
    && (s.phase != Idle ==> s.inFunction.Some?)
    && FoundOk(lines, rules, s.found, n)
    && PhaseAfter(s.phase, s.found)
  }

  lemma ArmedLonger(lines: seq<Line>, a: nat, n: nat)
    requires n < |lines| && ArmedFrom(lines, a, n) && lines[n].Plain()
    ensures ArmedFrom(lines, a, n + 1)
  {
  }

  lemma FoundLonger(lines: seq<Line>, rules: Rules, found: seq<Window>, n: nat)
    requires FoundOk(lines, rules, found, n)
    ensures FoundOk(lines, rules, found, n + 1)
  {
  }

  lemma FoundSnoc(lines: seq<Line>, rules: Rules, found: seq<Window>, w: Window)
    requires FoundOk(lines, rules, found, w.closer) && IsWindow(lines, rules, w)
    requires found != [] ==> found[|found| - 1].closer < w.anchor
    ensures FoundOk(lines, rules, found + [w], w.closer + 1)
  {
  }

  /** A plain line while armed: it opens a window, is one line more, or ends the budget. */
  lemma AdvanceArmed(lines: seq<Line>, rules: Rules, s: Scan, n: nat)
    requires n < |lines| && Positive(rules) && ScanOk(lines, rules, s, n) && s.phase.Armed?
    requires lines[n].Plain()
    ensures PhaseOk(lines, rules, Advance(rules, s, n).phase, n + 1)
    ensures Advance(rules, s, n) == s.(phase := Advance(rules, s, n).phase)
    ensures Advance(rules, s, n).phase != Idle ==> Advance(rules, s, n).phase.anchor == s.phase.anchor
  {
    ArmedLonger(lines, s.phase.anchor, n);
  }

  /** A plain line while open: it completes the window, is one line more, or ends the budget. */
  lemma AdvanceOpened(lines: seq<Line>, rules: Rules, s: Scan, n: nat)
    requires n < |lines| && Positive(rules) && ScanOk(lines, rules, s, n) && s.phase.Opened?
    requires lines[n].Plain()
    ensures PhaseOk(lines, rules, Advance(rules, s, n).phase, n + 1)
    ensures FoundOk(lines, rules, Advance(rules, s, n).found, n + 1)
    ensures PhaseAfter(Advance(rules, s, n).phase, Advance(rules, s, n).found)
    ensures Advance(rules, s, n).inFunction == s.inFunction
  {
    var w := Window(s.phase.anchor, s.phase.opener, n);
    FoundLonger(lines, rules, s.found, n);
    if s.phase.ttl > 1 && rules.closes(s.phase.opener, n) {
      assert IsWindow(lines, rules, w);
      FoundSnoc(lines, rules, s.found, w);
    }
  }

  lemma AdvanceOk(lines: seq<Line>, rules: Rules, s: Scan, n: nat)
    requires n < |lines| && Positive(rules) && ScanOk(lines, rules, s, n)
    requires lines[n].Plain() && s.inFunction.Some?
    ensures ScanOk(lines, rules, Advance(rules, s, n), n + 1)
  {
    assert FunctionAt(lines, n) == s.inFunction;
    FoundLonger(lines, rules, s.found, n);
    match s.phase {
      case Idle =>
      case Armed(_, _) => AdvanceArmed(lines, rules, s, n);
      case Opened(_, _, _) => AdvanceOpened(lines, rules, s, n);
    }
  }

  /** A camera-X read inside a function arms the scan afresh. */
  lemma ArmOk(lines: seq<Line>, rules: Rules, s: Scan, n: nat)
    requires n < |lines| && Positive(rules) && ScanOk(lines, rules, s, n)
    requires lines[n].IsCameraX() && FunctionAt(lines, n).Some?
    ensures ScanOk(lines, rules, Scan(FunctionAt(lines, n), Armed(rules.budget, n), s.found), n + 1)
  {
    FoundLonger(lines, rules, s.found, n);
    assert ArmedFrom(lines, n, n + 1);
  }

  lemma StepOk(lines: seq<Line>, rules: Rules, s: Scan, n: nat)
    requires n < |lines| && Positive(rules) && ScanOk(lines, rules, s, n)
    ensures ScanOk(lines, rules, Step(lines, rules, s, n), n + 1)
  {
    assert Enter(s.inFunction, lines[n]) == FunctionAt(lines, n);
    if FunctionAt(lines, n).Some? && lines[n].IsCameraX() {
      ArmOk(lines, rules, s, n);
    } else if FunctionAt(lines, n).Some? && lines[n].Plain() {
      AdvanceOk(lines, rules, s, n);
    } else {
      FoundLonger(lines, rules, s.found, n);
    }
  }

  lemma {:induction false} ScanToOk(lines: seq<Line>, rules: Rules, n: nat)
    requires n <= |lines| && Positive(rules)
    ensures ScanOk(lines, rules, ScanTo(lines, rules, n), n)
  {
    if n > 0 {
      ScanToOk(lines, rules, n - 1);
      StepOk(lines, rules, ScanTo(lines, rules, n - 1), n - 1);
    }
  }

  lemma {:induction false} FunctionKept(lines: seq<Line>, a: nat, k: nat)
    requires a <= k < |lines| && PlainBetween(lines, a, k + 1)
    ensures FunctionAt(lines, k) == FunctionAt(lines, a)
    decreases k
  {
    if a < k {
      FunctionKept(lines, a, k - 1);
      assert lines[k].Plain();
    }
  }

  /** From its camera read to its opening line, a window keeps the scan armed. */
  lemma {:induction false} TracksArmed(lines: seq<Line>, rules: Rules, a: nat, i: nat, n: nat)
    requires Positive(rules) && OpensWindow(lines, rules, a, i) && a < n <= i
    ensures ScanTo(lines, rules, n).phase == Armed(rules.budget - (n - 1 - a), a)
    ensures ScanTo(lines, rules, n).inFunction.Some?
    decreases n
  {
    ScanToOk(lines, rules, n - 1);
    if n - 1 > a {
      TracksArmed(lines, rules, a, i, n - 1);
      assert lines[n - 1].Plain() && !rules.opens(n - 1);
    }
  }

  /** From its opening line to its closing line, it keeps the scan open. */
  lemma {:induction false} TracksOpened(lines: seq<Line>, rules: Rules, w: Window, n: nat)
    requires Positive(rules) && IsWindow(lines, rules, w) && w.opener < n <= w.closer
    ensures ScanTo(lines, rules, n).phase == Opened(rules.follow(w.opener) - (n - 1 - w.opener), w.anchor, w.opener)
    ensures ScanTo(lines, rules, n).inFunction.Some?
    decreases n
  {
    assert lines[n - 1].Plain();
    if n - 1 > w.opener {
      TracksOpened(lines, rules, w, n - 1);
      assert !rules.closes(w.opener, n - 1);
    } else {
      TracksArmed(lines, rules, w.anchor, w.opener, w.opener);
    }
  }

  lemma {:induction false} FoundGrows(lines: seq<Line>, rules: Rules, m: nat, n: nat)
    requires m <= n <= |lines|
    ensures ScanTo(lines, rules, m).found <= ScanTo(lines, rules, n).found
    decreases n
  {
    if m < n {
      FoundGrows(lines, rules, m, n - 1);
    }
  }

  /** The scan finds every window and nothing else, in order, each after the one before it. */
  lemma FindsExactlyWindows(lines: seq<Line>, rules: Rules, w: Window)
    requires Positive(rules)
    ensures w in Windows(lines, rules) <==> IsWindow(lines, rules, w)
    ensures FoundOk(lines, rules, Windows(lines, rules), |lines|)
  {
    ScanToOk(lines, rules, |lines|);
    if IsWindow(lines, rules, w) {
      TracksOpened(lines, rules, w, w.closer);
      assert lines[w.closer].Plain();
      var after := ScanTo(lines, rules, w.closer + 1);
      assert after.found[|after.found| - 1] == w;
      FoundGrows(lines, rules, w.closer + 1, |lines|);
    }
  }
}
