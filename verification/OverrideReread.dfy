/** What becomes of injected lines when the file they were written to is read again. They come back
    as they were unless the file's last line has no newline and is itself injected after: then the
    snippet lands on that line, and the line with it becomes a marked one. */
module OverrideReread {
  import opened MarkedLines
  import opened Overrides
  import opened OverrideStream
  import opened PhysicalLines
  import opened OverrideText

  /** Both passes over clean lines. */
  function Reinjected(clean: seq<Line>): seq<Line> {
    var windows := Inject(clean, ObjectEdits(clean));
    Inject(windows, StreamEdits(windows))
  }

  /** Lines as they can stand in a file. */
  ghost predicate Filed(c: Patterns, lines: seq<Line>) {
    Lined(c, lines) && Physical(Texts(lines))
  }

  /** As before, and the last one has its newline too. */
  ghost predicate Whole(c: Patterns, lines: seq<Line>) {
    Lined(c, lines) && forall i :: 0 <= i < |lines| ==> Terminated(lines[i].text)
  }

  lemma WholeIsFiled(c: Patterns, lines: seq<Line>)
    requires Whole(c, lines)
    ensures Filed(c, lines) && Sealed(Texts(lines))
  {
  }

  lemma FiledFront(c: Patterns, lines: seq<Line>)
    requires Filed(c, lines) && lines != []
    ensures Whole(c, lines[..|lines| - 1])
    ensures Terminated(lines[|lines| - 1].text) ==> Whole(c, lines)
  {
    var n := |lines| - 1;
    assert forall i :: 0 <= i < n ==> Texts(lines)[..n][i] == lines[i].text;
  }

  lemma FiledSnoc(c: Patterns, front: seq<Line>, last: Line)
    requires Whole(c, front) && SingleLine(last.text) && last == Classify(c, last.text)
    ensures Filed(c, front + [last])
    ensures Terminated(last.text) ==> Whole(c, front + [last])
  {
    assert Texts(front + [last])[..|front|] == Texts(front);
  }

  lemma ReadFiled(c: Patterns, lines: seq<Line>)
    requires PatternsOk(c) && Filed(c, lines)
    ensures Read(c, Written(lines)) == lines
  {
    ReadWritten(c, lines);
  }

  lemma FileIsFiled(c: Patterns, file: string)
    requires PatternsOk(c)
    ensures Filed(c, Read(c, file)) && Written(Read(c, file)) == file
  {
    TextsOfRead(c, file);
    var texts := ReadLines(file);
    assert forall i :: 0 <= i < |texts| ==> i < |texts| - 1 ==> texts[i] == texts[..|texts| - 1][i];
  }

  // ----- stripping

  lemma {:induction false} StripWhole(c: Patterns, lines: seq<Line>)
    requires Whole(c, lines)
    ensures Whole(c, Strip(lines))
  {
    if lines != [] {
      StripWhole(c, lines[..|lines| - 1]);
    }
  }

  /** Stripping a file's lines leaves lines that can stand in a file. */
  lemma StripFiled(c: Patterns, lines: seq<Line>)
    requires Filed(c, lines)
    ensures Filed(c, Strip(lines)) && Clean(Strip(lines))
  {
    if lines != [] {
      var n := |lines| - 1;
      FiledFront(c, lines);
      StripWhole(c, lines[..n]);
      if lines[n].Code? {
        FiledSnoc(c, Strip(lines[..n]), lines[n]);
      } else {
        WholeIsFiled(c, Strip(lines));
      }
    }
  }

  // ----- injecting

  predicate AllInjectable(edits: map<nat, string>) {
    forall k :: k in edits ==> Injectable(edits[k])
  }

  lemma ObjectsInjectable(c: Patterns, lines: seq<Line>)
    requires PatternsOk(c) && Lined(c, lines)
    ensures AllInjectable(ObjectEdits(lines))
    ensures forall k :: k in ObjectEdits(lines) ==> Editable(lines, k, ObjectEdits(lines)[k])
  {
    forall k | k in ObjectEdits(lines)
      ensures Editable(lines, k, ObjectEdits(lines)[k])
    {
      ObjectEditable(c, lines, k);
    }
  }

  lemma StreamsInjectable(c: Patterns, lines: seq<Line>)
    requires PatternsOk(c) && Lined(c, lines)
    ensures AllInjectable(StreamEdits(lines))
    ensures forall k :: k in StreamEdits(lines) ==> Editable(lines, k, StreamEdits(lines)[k])
  {
    forall k | k in StreamEdits(lines)
      ensures Editable(lines, k, StreamEdits(lines)[k])
    {
      StreamEditable(c, lines, k);
    }
  }

  lemma {:induction false} InjectWhole(c: Patterns, lines: seq<Line>, edits: map<nat, string>)
    requires Whole(c, lines) && AllInjectable(edits)
    ensures Whole(c, Inject(lines, edits))
  {
    if lines != [] {
      InjectWhole(c, lines[..|lines| - 1], edits);
    }
  }

  lemma {:induction false} InjectLined(c: Patterns, lines: seq<Line>, edits: map<nat, string>)
    requires Lined(c, lines) && AllInjectable(edits)
    ensures Lined(c, Inject(lines, edits))
  {
    if lines != [] {
      InjectLined(c, lines[..|lines| - 1], edits);
    }
  }

  /** The line injected after line n, if any. */
  function Behind(edits: map<nat, string>, n: nat): seq<Line> {
    if n in edits then [Marked(edits[n])] else []
  }

  lemma InjectSnoc(lines: seq<Line>, line: Line, edits: map<nat, string>)
    ensures Inject(lines + [line], edits) == Inject(lines, edits) + [line] + Behind(edits, |lines|)
  {
    assert (lines + [line])[..|lines|] == lines;
  }

  // ----- when processed text survives a reread

  /** The last line has its newline, or neither pass injects after it. */
  predicate Safe(clean: seq<Line>) {
    clean == [] ||
      var n, windows := |clean| - 1, Inject(clean, ObjectEdits(clean));
      Terminated(clean[n].text) || (n !in ObjectEdits(clean) && |windows| - 1 !in StreamEdits(windows))
  }

  lemma ReinjectedWhole(c: Patterns, clean: seq<Line>)
    requires PatternsOk(c) && Whole(c, clean)
    ensures Whole(c, Reinjected(clean))
  {
    var windows := Inject(clean, ObjectEdits(clean));
    ObjectsInjectable(c, clean);
    InjectWhole(c, clean, ObjectEdits(clean));
    StreamsInjectable(c, windows);
    InjectWhole(c, windows, StreamEdits(windows));
  }

  /** In a safe file every injected line stands on a line of its own. */
  lemma SafeSurvives(c: Patterns, clean: seq<Line>)
    requires PatternsOk(c) && Filed(c, clean) && Safe(clean)
    ensures Filed(c, Reinjected(clean)) && Read(c, Written(Reinjected(clean))) == Reinjected(clean)
  {
    if clean != [] {
      FiledFront(c, clean);
    }
    if Whole(c, clean) {
      ReinjectedWhole(c, clean);
      WholeIsFiled(c, Reinjected(clean));
    } else {
      OpenEndFiled(c, clean);
    }
    ReadFiled(c, Reinjected(clean));
  }

  lemma OpenEndFiled(c: Patterns, clean: seq<Line>)
    requires PatternsOk(c) && Filed(c, clean) && clean != [] && Safe(clean)
    requires !Terminated(clean[|clean| - 1].text)
    ensures Filed(c, Reinjected(clean))
  {
    var n := |clean| - 1;
    var front, last := clean[..n], clean[n];
    var edits := ObjectEdits(clean);
    assert clean == front + [last];
    FiledFront(c, clean);
    ObjectsInjectable(c, clean);
    InjectWhole(c, front, edits);
    InjectSnoc(front, last, edits);
    var windows := Inject(front, edits);
    assert Inject(clean, edits) == windows + [last];
    FiledSnoc(c, windows, last);
    StreamsInjectable(c, windows + [last]);
    InjectWhole(c, windows, StreamEdits(windows + [last]));
    InjectSnoc(windows, last, StreamEdits(windows + [last]));
    FiledSnoc(c, Inject(windows, StreamEdits(windows + [last])), last);
  }

  predicate Snippets(lines: seq<Line>) {
    forall i :: 0 <= i < |lines| ==> lines[i].Marked? && Injectable(lines[i].text)
  }

  /** What two injections put behind line n, which the first one has moved to m. */
  function Pile(first: map<nat, string>, second: map<nat, string>, n: nat, m: nat): seq<Line> {
    Behind(second, m) + (if n in first then [Marked(first[n])] + Behind(second, m + 1) else [])
  }

  lemma InjectTwice(front: seq<Line>, last: Line, first: map<nat, string>, second: map<nat, string>)
    ensures Inject(Inject(front + [last], first), second)
         == Inject(Inject(front, first), second) + [last] + Pile(first, second, |front|, |Inject(front, first)|)
  {
    var windows, n := Inject(front, first), |front|;
    InjectSnoc(front, last, first);
    InjectSnoc(windows, last, second);
    if n in first {
      InjectSnoc(windows + [last], Marked(first[n]), second);
    } else {
      assert windows + [last] + [] == windows + [last];
    }
  }

  lemma PileSnippets(first: map<nat, string>, second: map<nat, string>, n: nat, m: nat)
    requires AllInjectable(first) && AllInjectable(second)
    ensures Snippets(Pile(first, second, n, m))
    ensures Pile(first, second, n, m) == [] <==> n !in first && m !in second
  {
  }

  /** What is injected after the last line, by both passes. */
  function Tail(clean: seq<Line>): seq<Line>
    requires clean != []
  {
    var n, edits := |clean| - 1, ObjectEdits(clean);
    Pile(edits, StreamEdits(Inject(clean, edits)), n, |Inject(clean[..n], edits)|)
  }

  function Before(clean: seq<Line>): seq<Line>
    requires clean != []
  {
    var n, edits := |clean| - 1, ObjectEdits(clean);
    Inject(Inject(clean[..n], edits), StreamEdits(Inject(clean, edits)))
  }

  lemma TailParts(clean: seq<Line>)
    requires clean != []
    ensures Reinjected(clean) == Before(clean) + [clean[|clean| - 1]] + Tail(clean)
  {
    var n, edits := |clean| - 1, ObjectEdits(clean);
    assert clean == clean[..n] + [clean[n]];
    InjectTwice(clean[..n], clean[n], edits, StreamEdits(Inject(clean, edits)));
  }

  lemma LastPlace(lines: seq<Line>, edits: map<nat, string>)
    requires lines != [] && |lines| - 1 !in edits
    ensures |Inject(lines, edits)| - 1 == |Inject(lines[..|lines| - 1], edits)|
  {
  }

  lemma TailSnippets(c: Patterns, clean: seq<Line>)
    requires PatternsOk(c) && Filed(c, clean) && clean != []
    ensures Snippets(Tail(clean))
    ensures Safe(clean) <==> Terminated(clean[|clean| - 1].text) || Tail(clean) == []
  {
    var n, edits := |clean| - 1, ObjectEdits(clean);
    var windows := Inject(clean, edits);
    ObjectsInjectable(c, clean);
    InjectLined(c, clean, edits);
    StreamsInjectable(c, windows);
    PileSnippets(edits, StreamEdits(windows), n, |Inject(clean[..n], edits)|);
    if n !in edits {
      LastPlace(clean, edits);
    }
  }

  lemma BeforeParts(c: Patterns, clean: seq<Line>)
    requires PatternsOk(c) && Filed(c, clean) && Clean(clean) && clean != []
    ensures Whole(c, Before(clean)) && Strip(Before(clean)) == clean[..|clean| - 1]
  {
    var n, edits := |clean| - 1, ObjectEdits(clean);
    var windows := Inject(clean, edits);
    FiledFront(c, clean);
    ObjectsInjectable(c, clean);
    InjectLined(c, clean, edits);
    StreamsInjectable(c, windows);
    InjectWhole(c, clean[..n], edits);
    InjectWhole(c, Inject(clean[..n], edits), StreamEdits(windows));
    StripInject(Inject(clean[..n], edits), StreamEdits(windows));
    StripInject(clean[..n], edits);
    StripClean(clean[..n]);
  }

  /** What an unsafe file reads as: its last line is gone into a marked one. */
  function Reread(clean: seq<Line>): seq<Line>
    requires clean != [] && Tail(clean) != []
  {
    Before(clean) + [Marked(clean[|clean| - 1].text + Tail(clean)[0].text)] + Tail(clean)[1..]
  }

  lemma SnippetsWhole(c: Patterns, lines: seq<Line>)
    requires Snippets(lines)
    ensures Whole(c, lines) && Sealed(Texts(lines))
  {
  }

  lemma {:induction false} StripSnippets(lines: seq<Line>, tail: seq<Line>)
    requires Snippets(tail)
    ensures Strip(lines + tail) == Strip(lines)
    decreases |tail|
  {
    if tail == [] {
      assert lines + tail == lines;
    } else {
      var n := |tail| - 1;
      assert lines + tail == lines + tail[..n] + [tail[n]];
      StripSnoc(lines + tail[..n], tail[n]);
      StripSnippets(lines, tail[..n]);
    }
  }

  lemma UnsafeReread(c: Patterns, clean: seq<Line>)
    requires PatternsOk(c) && Filed(c, clean) && Clean(clean) && !Safe(clean)
    ensures Tail(clean) != [] && Read(c, Written(Reinjected(clean))) == Reread(clean)
    ensures Strip(Reread(clean)) == clean[..|clean| - 1]
  {
    TailParts(clean);
    TailSnippets(c, clean);
    BeforeParts(c, clean);
    Swallows(c, Before(clean), clean[|clean| - 1], Tail(clean));
  }

  lemma Swallows(c: Patterns, before: seq<Line>, last: Line, tail: seq<Line>)
    requires PatternsOk(c) && Whole(c, before) && SingleLine(last.text) && !Terminated(last.text)
    requires Snippets(tail) && tail != []
    ensures var merged := before + [Marked(last.text + tail[0].text)] + tail[1..];
            Read(c, Written(before + [last] + tail)) == merged && Strip(merged) == Strip(before)
  {
    SwallowedText(c, before, last, tail[0], tail[1..]);
    assert before + [last] + tail == before + [last] + [tail[0]] + tail[1..];
    StripSnippets(before + [Marked(last.text + tail[0].text)], tail[1..]);
    StripSnoc(before, Marked(last.text + tail[0].text));
  }

  lemma SwallowedText(c: Patterns, before: seq<Line>, last: Line, next: Line, rest: seq<Line>)
    requires Whole(c, before) && SingleLine(last.text) && !Terminated(last.text)
    requires Injectable(next.text) && Snippets(rest)
    ensures Read(c, Written(before + [last] + [next] + rest)) == before + [Marked(last.text + next.text)] + rest
  {
    WholeIsFiled(c, before);
    SnippetsWhole(c, rest);
    TextsSwallow(before, last, next, rest);
    ReadSwallows(Texts(before), last.text, next.text, Texts(rest));
    MarkerStays(last.text, next.text);
    ReadAsClassified(c, Written(before + [last] + [next] + rest), before + [Marked(last.text + next.text)] + rest);
  }

  lemma TextsSwallow(before: seq<Line>, last: Line, next: Line, rest: seq<Line>)
    ensures Texts(before + [last] + [next] + rest) == Texts(before) + [last.text] + [next.text] + Texts(rest)
    ensures Texts(before + [Marked(last.text + next.text)] + rest) == Texts(before) + [last.text + next.text] + Texts(rest)
  {
  }

  lemma ReadAsClassified(c: Patterns, file: string, lines: seq<Line>)
    requires ReadLines(file) == Texts(lines) && Consistent(c, lines)
    ensures Read(c, file) == lines
  {
  }

  lemma MarkerStays(before: string, text: string)
    requires HasMarker(text)
    ensures HasMarker(before + text)
  {
    if Contains(text, MARKER) {
      ContainsLonger(before, text, MARKER);
    } else if Contains(text, STREAM_MARKER) {
      ContainsLonger(before, text, STREAM_MARKER);
    } else {
      ContainsLonger(before, text, DISPATCH_MARKER);
    }
  }

  // ----- the swallowed line is told from a snippet

  lemma {:induction false} MarkedInjected(lines: seq<Line>, edits: map<nat, string>, line: Line)
    requires AllInjectable(edits) && line.Marked? && line in Inject(lines, edits) && line !in lines
    ensures Injectable(line.text)
  {
    if lines != [] {
      var n := |lines| - 1;
      if line in Inject(lines[..n], edits) {
        assert line !in lines[..n];
        MarkedInjected(lines[..n], edits, line);
      }
    }
  }

  lemma MarkedReinjected(c: Patterns, clean: seq<Line>, line: Line)
    requires PatternsOk(c) && Lined(c, clean) && Clean(clean) && line.Marked? && line in Reinjected(clean)
    ensures Injectable(line.text)
  {
    var windows := Inject(clean, ObjectEdits(clean));
    ObjectsInjectable(c, clean);
    InjectLined(c, clean, ObjectEdits(clean));
    StreamsInjectable(c, windows);
    if line in windows {
      MarkedInjected(clean, ObjectEdits(clean), line);
    } else {
      MarkedInjected(windows, StreamEdits(windows), line);
    }
  }

  /** A line that is injected after assigns to a variable. */
  lemma LastAssigns(c: Patterns, clean: seq<Line>)
    requires PatternsOk(c) && Filed(c, clean) && !Safe(clean)
    ensures LeadsWith(clean[|clean| - 1].text, 'u')
  {
    var n, edits := |clean| - 1, ObjectEdits(clean);
    var windows := Inject(clean, edits);
    ObjectsInjectable(c, clean);
    InjectLined(c, clean, edits);
    StreamsInjectable(c, windows);
    if n !in edits {
      LastPlace(clean, edits);
      assert windows[|windows| - 1] == clean[n];
    }
  }

  lemma RereadIsNoInjection(c: Patterns, clean: seq<Line>, other: seq<Line>)
    requires PatternsOk(c) && Filed(c, clean) && Clean(clean) && !Safe(clean) && Lined(c, other) && Clean(other)
    ensures Tail(clean) != [] && Reread(clean) != Reinjected(other)
  {
    TailSnippets(c, clean);
    LastAssigns(c, clean);
    var last, next := clean[|clean| - 1], Tail(clean)[0];
    var line := Marked(last.text + next.text);
    assert Reread(clean)[|Before(clean)|] == line;
    if Reread(clean) == Reinjected(other) {
      MarkedReinjected(c, other, line);
      LeadsLonger(last.text, 'u', next.text);
      LeadsOnce(line.text, 'u', '/');
    }
  }
}
