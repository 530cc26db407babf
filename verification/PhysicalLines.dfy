/** Text files as Python reads and writes them: readlines() cuts behind every newline, writelines()
    only joins. Reading back what was written gives the same lines exactly when they were lines. */
module PhysicalLines {

  predicate Terminated(line: string) {
    line != "" && line[|line| - 1] == '\n'
  }

  /** Nothing behind a newline. */
  predicate SingleLine(line: string) {
    line != "" && forall j :: 0 <= j < |line| - 1 ==> line[j] != '\n'
  }

  /** readlines() */
  function ReadLines(file: string): (lines: seq<string>)
    ensures file != "" ==> lines != []
  {
    if file == "" then []
    else
      var front, c := ReadLines(file[..|file| - 1]), file[|file| - 1];
      if front == [] || Terminated(front[|front| - 1]) then front + [[c]]
      else front[..|front| - 1] + [front[|front| - 1] + [c]]
  }

  /** writelines() */
  function Join(lines: seq<string>): string {
    if lines == [] then "" else Join(lines[..|lines| - 1]) + lines[|lines| - 1]
  }

  predicate Sealed(lines: seq<string>) {
    forall i :: 0 <= i < |lines| ==> SingleLine(lines[i]) && Terminated(lines[i])
  }

  /** What readlines() can return: only the last line may lack its newline. */
  predicate Physical(lines: seq<string>) {
    lines != [] ==> Sealed(lines[..|lines| - 1]) && SingleLine(lines[|lines| - 1])
  }

  lemma JoinSnoc(lines: seq<string>, line: string)
    ensures Join(lines + [line]) == Join(lines) + line
  {
    assert (lines + [line])[..|lines|] == lines;
  }

  lemma SealedSnoc(lines: seq<string>, line: string)
    requires Sealed(lines) && SingleLine(line) && Terminated(line)
    ensures Sealed(lines + [line])
  {
  }

  /** A character behind complete lines starts a line. */
  lemma StartsLine(front: seq<string>, c: char)
    requires Sealed(front)
    ensures Physical(front + [[c]]) && Join(front + [[c]]) == Join(front) + [c]
  {
    assert (front + [[c]])[..|front|] == front;
    JoinSnoc(front, [c]);
  }

  /** Behind an incomplete line it belongs to that line. */
  lemma ExtendsLine(init: seq<string>, last: string, c: char)
    requires Sealed(init) && SingleLine(last) && !Terminated(last)
    ensures Physical(init + [last + [c]]) && Join(init + [last + [c]]) == Join(init + [last]) + [c]
  {
    assert (init + [last + [c]])[..|init|] == init;
    JoinSnoc(init, last);
    JoinSnoc(init, last + [c]);
    assert Join(init) + (last + [c]) == Join(init) + last + [c];
  }

  lemma {:induction false} ReadIsPhysical(file: string)
    ensures Physical(ReadLines(file)) && Join(ReadLines(file)) == file
  {
    if file != "" {
      var n := |file| - 1;
      var front, c := ReadLines(file[..n]), file[n];
      ReadIsPhysical(file[..n]);
      assert file == file[..n] + [c];
      if front == [] {
        StartsLine(front, c);
      } else {
        var init, last := front[..|front| - 1], front[|front| - 1];
        assert front == init + [last];
        if Terminated(last) {
          SealedSnoc(init, last);
          StartsLine(front, c);
        } else {
          ExtendsLine(init, last, c);
        }
      }
    }
  }

  /** One more character. */
  lemma ReadChar(file: string, c: char)
    ensures var front := ReadLines(file);
            ReadLines(file + [c])
            == if front == [] || Terminated(front[|front| - 1]) then front + [[c]]
               else front[..|front| - 1] + [front[|front| - 1] + [c]]
  {
    assert (file + [c])[..|file|] == file;
  }

  lemma ReadFirst(file: string, c: char)
    requires Sealed(ReadLines(file))
    ensures ReadLines(file + [c]) == ReadLines(file) + [[c]]
  {
    ReadChar(file, c);
  }

  lemma ReadExtends(file: string, lines: seq<string>, open: string, c: char)
    requires ReadLines(file) == lines + [open] && !Terminated(open)
    ensures ReadLines(file + [c]) == lines + [open + [c]]
  {
    ReadChar(file, c);
    assert (lines + [open])[..|lines|] == lines;
  }

  lemma ReadMore(file: string, open: string, c: char)
    requires ReadLines(file + open) == ReadLines(file) + [open] && !Terminated(open)
    ensures ReadLines(file + (open + [c])) == ReadLines(file) + [open + [c]]
  {
    ReadExtends(file + open, ReadLines(file), open, c);
    assert file + open + [c] == file + (open + [c]);
  }

  /** A line read behind complete lines. */
  lemma {:induction false} ReadSnoc(file: string, line: string)
    requires Sealed(ReadLines(file)) && SingleLine(line)
    ensures ReadLines(file + line) == ReadLines(file) + [line]
    decreases |line|
  {
    var init, c := line[..|line| - 1], line[|line| - 1];
    assert line == init + [c];
    if init == [] {
      ReadFirst(file, c);
      assert line == [c];
    } else {
      assert init[|init| - 1] == line[|init| - 1];
      ReadSnoc(file, init);
      ReadMore(file, init, c);
    }
  }

  lemma {:induction false} ReadSealed(lines: seq<string>)
    requires Sealed(lines)
    ensures ReadLines(Join(lines)) == lines
  {
    if lines != [] {
      var n := |lines| - 1;
      ReadSealed(lines[..n]);
      ReadSnoc(Join(lines[..n]), lines[n]);
      assert lines[..n] + [lines[n]] == lines;
    }
  }

  /** Writing lines and reading them back returns them exactly when they are physical lines. */
  lemma ReadJoin(lines: seq<string>)
    ensures ReadLines(Join(lines)) == lines <==> Physical(lines)
  {
    if Physical(lines) && lines != [] {
      var n := |lines| - 1;
      ReadSealed(lines[..n]);
      ReadSnoc(Join(lines[..n]), lines[n]);
      assert lines[..n] + [lines[n]] == lines;
    }
    ReadIsPhysical(Join(lines));
  }

  lemma {:induction false} JoinAppend(a: seq<string>, b: seq<string>)
    ensures Join(a + b) == Join(a) + Join(b)
    decreases |b|
  {
    if b == [] {
      assert a + b == a;
    } else {
      var n := |b| - 1;
      assert a + b == (a + b[..n]) + [b[n]];
      JoinSnoc(a + b[..n], b[n]);
      JoinAppend(a, b[..n]);
    }
  }

  /** A line without its newline swallows the line written behind it. */
  lemma ReadSwallows(before: seq<string>, open: string, next: string, rest: seq<string>)
    requires Sealed(before) && Sealed(rest) && SingleLine(open) && !Terminated(open)
    requires SingleLine(next) && Terminated(next)
    ensures ReadLines(Join(before + [open] + [next] + rest)) == before + [open + next] + rest
  {
    var merged := before + [open + next];
    assert SingleLine(open + next) && Terminated(open + next);
    assert Sealed(merged + rest);
    ReadSealed(merged + rest);
    JoinAppend(merged, rest);
    JoinAppend(before + [open] + [next], rest);
    JoinSnoc(before, open + next);
    JoinSnoc(before + [open], next);
    JoinSnoc(before, open);
    assert Join(before) + open + next == Join(before) + (open + next);
  }
}
