/** Generated C code as tools/apply_overrides.py sees it: lines with the few shapes its patterns
    recognise, and lines carrying an injection marker. */
module MarkedLines {
  import opened Bytes

  datatype Header = NoHeader | FunctionHeader(name: string) | OtherHeader

  /** `uint16 _v1 = 0x40;` */
  datatype Constant = Constant(indent: string, name: string, literal: string)

  /** `uint16 _v1 = ...` */
  datatype Assigned = Assigned(indent: string, name: string)

  /** A line without a marker carries what each pattern finds in it; a marked line is only text. */
  datatype Line =
    | Code(text: string, header: Header, cameraX: bool, cameraY: bool, assigns: Option<Assigned>,
           constant: Option<Constant>, readsX: bool, compareTemp: bool, block: Option<string>)
    | Marked(text: string)
  {
    /** Nothing that disarms or re-arms a scan. */
    predicate Plain() {
      Code? ==> header == NoHeader && !cameraX && !cameraY
    }

    predicate IsCameraX() {
      Code? && cameraX
    }

    predicate IsCameraY() {
      Code? && cameraY && !cameraX
    }
  }

  /** The statement that an injected line holds behind its marker. */
  function Call(name: string, helper: string, argument: string): string {
    " { extern uint16 " + helper + "(uint16); " + name + " = " + helper + "(" + argument + "); }"
  }

  /** Removing every line that carries a marker. */
  function Strip(lines: seq<Line>): (kept: seq<Line>)
    ensures forall i :: 0 <= i < |kept| ==> kept[i].Code?
  {
    if lines == [] then []
    else
      var front, last := Strip(lines[..|lines| - 1]), lines[|lines| - 1];
      if last.Marked? then front else front + [last]
  }

  predicate Clean(lines: seq<Line>) {
    forall i :: 0 <= i < |lines| ==> lines[i].Code?
  }

  /** Each line, followed by its injected line if it has one. */
  function Inject(lines: seq<Line>, edits: map<nat, string>): seq<Line> {
    if lines == [] then []
    else
      var n := |lines| - 1;
      Inject(lines[..n], edits) + [lines[n]] + (if n in edits then [Marked(edits[n])] else [])
  }

  /** Where things are in the output: behind what the lines before it have become, line k itself, and
      directly behind that its injected line if it has one. */
  lemma {:induction false} InjectPlaces(lines: seq<Line>, edits: map<nat, string>, k: nat)
    requires k < |lines|
    ensures var at, out := |Inject(lines[..k], edits)|, Inject(lines, edits);
            && Inject(lines[..k], edits) + [lines[k]] <= out
            && at < |out| && out[at] == lines[k]
            && (k in edits ==> at + 1 < |out| && out[at + 1] == Marked(edits[k]))
            && at + (if k in edits then 2 else 1) == |Inject(lines[..k + 1], edits)| <= |out|
  {
    var n := |lines| - 1;
    if k < n {
      assert lines[..n][..k] == lines[..k] && lines[..n][..k + 1] == lines[..k + 1];
      InjectPlaces(lines[..n], edits, k);
    } else {
      assert lines[..k + 1] == lines;
    }
  }

  lemma StripSnoc(lines: seq<Line>, line: Line)
    ensures Strip(lines + [line]) == if line.Marked? then Strip(lines) else Strip(lines) + [line]
  {
    assert (lines + [line])[..|lines|] == lines;
  }

  /** Stripping undoes any injection, into clean or already marked text. */
  lemma {:induction false} StripInject(lines: seq<Line>, edits: map<nat, string>)
    ensures Strip(Inject(lines, edits)) == Strip(lines)
  {
    if lines != [] {
      var n := |lines| - 1;
      var front := Inject(lines[..n], edits);
      StripInject(lines[..n], edits);
      StripSnoc(front, lines[n]);
      if n in edits {
        StripSnoc(front + [lines[n]], Marked(edits[n]));
      } else {
        assert front + [lines[n]] + [] == front + [lines[n]];
      }
    }
  }

  lemma {:induction false} StripClean(lines: seq<Line>)
    requires Clean(lines)
    ensures Strip(lines) == lines
  {
    if lines != [] {
      StripClean(lines[..|lines| - 1]);
    }
  }

  /** The loop that builds the output list. */
  method InjectLines(lines: seq<Line>, edits: map<nat, string>) returns (out: seq<Line>)
    ensures out == Inject(lines, edits)
  {
    out := [];
    for i := 0 to |lines|
      invariant out == Inject(lines[..i], edits)
    {
      assert lines[..i + 1][..i] == lines[..i];
      out := out + [lines[i]];
      if i in edits {
        out := out + [Marked(edits[i])];
      } else {
        assert out + [] == out;
      }
    }
    assert lines[..|lines|] == lines;
  }
}
