/** tools/apply_overrides.py, file by file: the strip / inject / restore / check cycle that a file
    goes through. */
module OverrideFiles {
  import opened MarkedLines
  import opened WindowScan
  import opened Overrides
  import opened OverrideSites
  import opened OverrideStream
  import opened OverrideText
  import opened OverrideReread

  // ----- lines

  /** What processing makes of a file's lines: both passes over what is left without markers. */
  function Processed(lines: seq<Line>): seq<Line> {
    Reinjected(Strip(lines))
  }

  function MarkedCount(lines: seq<Line>): nat {
    StripShorter(lines);
    |lines| - |Strip(lines)|
  }

  lemma {:induction false} StripShorter(lines: seq<Line>)
    ensures |Strip(lines)| <= |lines|
    ensures |Strip(lines)| == |lines| <==> Clean(lines)
  {
    if lines != [] {
      StripShorter(lines[..|lines| - 1]);
    }
  }

  /** Marked output, stripped, is the input: for a clean file nothing is lost and nothing left over. */
  lemma StripUndoesProcessing(lines: seq<Line>)
    ensures Strip(Processed(lines)) == Strip(lines)
    ensures Clean(lines) ==> Strip(Processed(lines)) == lines
  {
    var clean := Strip(lines);
    var windows := Inject(clean, ObjectEdits(clean));
    StripInject(windows, StreamEdits(windows));
    StripInject(clean, ObjectEdits(clean));
    StripClean(clean);
    if Clean(lines) {
      StripClean(lines);
    }
  }

  method StripLines(lines: seq<Line>) returns (kept: seq<Line>, dropped: nat)
    ensures kept == Strip(lines) && dropped == MarkedCount(lines)
  {
    kept, dropped := [], 0;
    for i := 0 to |lines|
      invariant kept == Strip(lines[..i]) && dropped == i - |kept|
    {
      assert lines[..i + 1][..i] == lines[..i];
      if lines[i].Marked? {
        dropped := dropped + 1;
      } else {
        kept := kept + [lines[i]];
      }
    }
    assert lines[..|lines|] == lines;
  }

  // ----- process_file

  datatype Outcome = Outcome(changed: nat, sites: nat, pairs: nat, stream: nat, stale: bool)

  datatype Command = Apply | Restore | Check | CheckRestore

  /** The code of a file: its lines without the marked ones. */
  function CodeOf(c: Patterns, file: string): seq<Line> {
    Strip(Read(c, file))
  }

  /** The file after one invocation of the tool. */
  function FileAfter(c: Patterns, file: string, command: Command): string {
    match command
    case Apply => Written(Processed(Read(c, file)))
    case Restore => Written(CodeOf(c, file))
    case Check => file
    case CheckRestore => file
  }

  /** The file has markers and is not what a clean reinjection gives. */
  predicate Stale(c: Patterns, file: string) {
    !Clean(Read(c, file)) && Read(c, file) != Processed(Read(c, file))
  }

  /** Whether one call injects. */
  predicate Injects(command: Command) {
    command == Apply || command == Check
  }

  /** What one call reports: markers removed, or what it injects beyond the markers that were there. */
  function Report(lines: seq<Line>, injecting: bool): Outcome {
    var markers := MarkedCount(lines);
    if !injecting then Outcome(markers, 0, 0, 0, false)
    else
      var clean := Strip(lines);
      var sites, stream := |ObjectEdits(clean)|, |StreamEdits(Inject(clean, ObjectEdits(clean)))|;
      Outcome(if sites + stream > markers then sites + stream - markers else 0,
              sites, |Windows(clean, PairRules(clean))|, stream, markers > 0 && lines != Processed(lines))
  }

  /** The injecting half of process_file, from the file's lines and those without a marker. */
  method InjectFile(file: string, lines: seq<Line>, clean: seq<Line>, oldMarkers: nat, write: bool)
    returns (after: string, outcome: Outcome)
    requires clean == Strip(lines) && file == Written(lines)
    ensures after == if write then Written(Reinjected(clean)) else file
    ensures outcome.sites == |ObjectEdits(clean)| && outcome.pairs == |Windows(clean, PairRules(clean))|
    ensures outcome.stream == |StreamEdits(Inject(clean, ObjectEdits(clean)))|
    ensures outcome.stale <==> oldMarkers > 0 && lines != Reinjected(clean)
    ensures outcome.changed == var added := outcome.sites + outcome.stream;
                               if added > oldMarkers then added - oldMarkers else 0
  {
    var windows, sites, pairs := ApplyObjectWindows(clean);
    var out, stream := ApplySpawnStream(windows);
    var same := lines == out;
    after := file;
    if !same && write {
      after := Written(out);
    }
    var added := sites + stream;
    outcome := Outcome(if added > oldMarkers then added - oldMarkers else 0, sites, pairs, stream,
                       oldMarkers > 0 && !same);
  }

  lemma ReportedSo(lines: seq<Line>, clean: seq<Line>, o: Outcome)
    requires clean == Strip(lines)
    requires o.sites == |ObjectEdits(clean)| && o.pairs == |Windows(clean, PairRules(clean))|
    requires o.stream == |StreamEdits(Inject(clean, ObjectEdits(clean)))|
    requires o.stale <==> MarkedCount(lines) > 0 && lines != Reinjected(clean)
    requires o.changed == var added := o.sites + o.stream;
                          if added > MarkedCount(lines) then added - MarkedCount(lines) else 0
    ensures o == Report(lines, true)
  {
  }

  /** The restoring half of process_file. */
  method RestoreFile(file: string, lines: seq<Line>, clean: seq<Line>, oldMarkers: nat, write: bool)
    returns (after: string, outcome: Outcome)
    requires clean == Strip(lines) && file == Written(lines) && oldMarkers == MarkedCount(lines)
    ensures after == if write then Written(clean) else file
    ensures outcome == Report(lines, false)
  {
    if oldMarkers == 0 {
      StripShorter(lines);
      StripClean(lines);
      return file, Outcome(0, 0, 0, 0, false);
    }
    after := file;
    if write {
      after := Written(clean);
    }
    outcome := Outcome(oldMarkers, 0, 0, 0, false);
  }

  /** process_file. A file is rewritten only when its content would change, never under --check;
      it is stale exactly when it has markers and is not what a clean reinjection gives. */
  method ProcessFile(c: Patterns, file: string, command: Command) returns (after: string, outcome: Outcome)
    requires PatternsOk(c)
    ensures after == FileAfter(c, file, command)
    ensures outcome == Report(Read(c, file), Injects(command))
  {
    var lines := Read(c, file);
    FileIsFiled(c, file);
    var clean, oldMarkers := StripLines(lines);
    if Injects(command) {
      after, outcome := InjectFile(file, lines, clean, oldMarkers, command == Apply);
      ReportedSo(lines, clean, outcome);
    } else {
      after, outcome := RestoreFile(file, lines, clean, oldMarkers, command == Restore);
    }
  }

  // ----- what the tool's promises come to

  lemma CodeIsFiled(c: Patterns, file: string)
    requires PatternsOk(c)
    ensures Filed(c, CodeOf(c, file)) && Clean(CodeOf(c, file))
  {
    FileIsFiled(c, file);
    StripFiled(c, Read(c, file));
  }

  /** Restoring leaves exactly the code, and a file without markers as it is. */
  lemma RestoredCode(c: Patterns, file: string)
    requires PatternsOk(c)
    ensures Read(c, FileAfter(c, file, Restore)) == CodeOf(c, file)
    ensures CodeOf(c, FileAfter(c, file, Restore)) == CodeOf(c, file)
    ensures Clean(Read(c, file)) ==> FileAfter(c, file, Restore) == file
  {
    CodeIsFiled(c, file);
    FileIsFiled(c, file);
    ReadFiled(c, CodeOf(c, file));
    StripClean(CodeOf(c, file));
    if Clean(Read(c, file)) {
      StripClean(Read(c, file));
    }
  }

  lemma AppliedSafe(c: Patterns, file: string)
    requires PatternsOk(c) && Safe(CodeOf(c, file))
    ensures CodeOf(c, FileAfter(c, file, Apply)) == CodeOf(c, file)
  {
    CodeIsFiled(c, file);
    SafeSurvives(c, CodeOf(c, file));
    StripUndoesProcessing(Read(c, file));
  }

  lemma AppliedUnsafe(c: Patterns, file: string)
    requires PatternsOk(c) && !Safe(CodeOf(c, file))
    ensures CodeOf(c, file) != []
    ensures CodeOf(c, FileAfter(c, file, Apply)) == CodeOf(c, file)[..|CodeOf(c, file)| - 1]
  {
    CodeIsFiled(c, file);
    UnsafeReread(c, CodeOf(c, file));
  }

  /** Applying keeps a file's code exactly when the file is safe: its last line ends in a newline, or
      nothing is injected after it. Otherwise the last line is lost to the next run. */
  lemma ApplyKeepsCode(c: Patterns, file: string)
    requires PatternsOk(c)
    ensures CodeOf(c, FileAfter(c, file, Apply)) == CodeOf(c, file) <==> Safe(CodeOf(c, file))
  {
    if Safe(CodeOf(c, file)) {
      AppliedSafe(c, file);
    } else {
      AppliedUnsafe(c, file);
    }
  }

  lemma FrontIsShorter(c: Patterns, lines: seq<Line>)
    requires Filed(c, lines) && lines != []
    ensures Written(lines[..|lines| - 1]) != Written(lines)
  {
    var n := |lines| - 1;
    assert Texts(lines)[..n] == Texts(lines[..n]);
    assert |Written(lines)| == |Written(lines[..n])| + |lines[n].text|;
  }

  /** Applying and then restoring gives what restoring alone would have exactly when it is safe. */
  lemma RestoreUndoesApply(c: Patterns, file: string)
    requires PatternsOk(c)
    ensures FileAfter(c, FileAfter(c, file, Apply), Restore) == FileAfter(c, file, Restore) <==> Safe(CodeOf(c, file))
  {
    if Safe(CodeOf(c, file)) {
      AppliedSafe(c, file);
    } else {
      AppliedUnsafe(c, file);
      CodeIsFiled(c, file);
      FrontIsShorter(c, CodeOf(c, file));
    }
  }

  /** Processing a processed file again, its markers current or stale, gives the same file exactly
      when it is safe. */
  lemma ApplyIsIdempotent(c: Patterns, file: string)
    requires PatternsOk(c)
    ensures FileAfter(c, FileAfter(c, file, Apply), Apply) == FileAfter(c, file, Apply) <==> Safe(CodeOf(c, file))
  {
    var clean, once := CodeOf(c, file), FileAfter(c, file, Apply);
    if Safe(clean) {
      AppliedSafe(c, file);
    } else {
      AppliedUnsafe(c, file);
      CodeIsFiled(c, file);
      var front := clean[..|clean| - 1];
      FiledFront(c, clean);
      WholeIsFiled(c, front);
      SafeSurvives(c, front);
      UnsafeReread(c, clean);
      RereadIsNoInjection(c, clean, front);
    }
  }

  function FileAfterAll(c: Patterns, file: string, commands: seq<Command>): string
    decreases |commands|
  {
    if commands == [] then file
    else FileAfter(c, FileAfterAll(c, file, commands[..|commands| - 1]), commands[|commands| - 1])
  }

  lemma RunKeepsCode(c: Patterns, file: string, command: Command)
    requires PatternsOk(c) && Safe(CodeOf(c, file))
    ensures CodeOf(c, FileAfter(c, file, command)) == CodeOf(c, file)
  {
    AppliedSafe(c, file);
    RestoredCode(c, file);
  }

  /** What a run writes depends on the code alone. */
  lemma SameCode(c: Patterns, file: string, other: string)
    requires CodeOf(c, file) == CodeOf(c, other)
    ensures FileAfter(c, file, Restore) == FileAfter(c, other, Restore)
    ensures FileAfter(c, file, Apply) == FileAfter(c, other, Apply)
  {
  }

  predicate KeepsCode(c: Patterns, file: string, commands: seq<Command>) {
    CodeOf(c, FileAfterAll(c, file, commands)) == CodeOf(c, file)
  }

  lemma {:induction false} SafeRuns(c: Patterns, file: string, commands: seq<Command>)
    requires PatternsOk(c) && Safe(CodeOf(c, file))
    ensures KeepsCode(c, file, commands)
    decreases |commands|
  {
    if commands != [] {
      SafeRuns(c, file, commands[..|commands| - 1]);
      RunKeepsCode(c, FileAfterAll(c, file, commands[..|commands| - 1]), commands[|commands| - 1]);
    }
  }

  lemma UnsafeRun(c: Patterns, file: string)
    requires PatternsOk(c) && !Safe(CodeOf(c, file))
    ensures !KeepsCode(c, file, [Apply])
  {
    ApplyKeepsCode(c, file);
    assert [Apply][..0] == [];
    assert FileAfterAll(c, file, []) == file;
  }

  /** Any number of runs. However a file is applied to, restored and checked, the code in it stays
      the code that was there, exactly when it is safe. */
  lemma RunsKeepCode(c: Patterns, file: string)
    requires PatternsOk(c)
    ensures (forall commands :: KeepsCode(c, file, commands)) <==> Safe(CodeOf(c, file))
  {
    if Safe(CodeOf(c, file)) {
      forall commands
        ensures KeepsCode(c, file, commands)
      {
        SafeRuns(c, file, commands);
      }
    } else {
      UnsafeRun(c, file);
    }
  }

  /** So on a safe file restoring recovers exactly the code, after any runs, and applying gives what
      one application to the original would have given. */
  lemma RunsRecover(c: Patterns, file: string, commands: seq<Command>)
    requires PatternsOk(c) && Safe(CodeOf(c, file))
    ensures FileAfter(c, FileAfterAll(c, file, commands), Restore) == FileAfter(c, file, Restore)
    ensures FileAfter(c, FileAfterAll(c, file, commands), Apply) == FileAfter(c, file, Apply)
  {
    SafeRuns(c, file, commands);
    SameCode(c, FileAfterAll(c, file, commands), file);
  }

  // ----- the build's check, over all files

  datatype Counts = Counts(sites: nat, pairs: nat, stream: nat, landings: nat, triggers: nat)

  const EXPECTED_SITES: nat := 32
  const EXPECTED_PAIRS: nat := 12
  const EXPECTED_STREAM_SITES: nat := 4

  /** What processing injects into one file. */
  function CountsOf(c: Patterns, file: string): Counts {
    var clean := CodeOf(c, file);
    Counts(|ObjectEdits(clean)|, |Windows(clean, PairRules(clean))|,
           |StreamEdits(Inject(clean, ObjectEdits(clean)))|, Landings(clean, |clean|), |Triggers(clean)|)
  }

  predicate Reports(o: Outcome, counts: Counts) {
    o.sites == counts.sites && o.pairs == counts.pairs && o.stream == counts.stream
  }

  function Total(counts: seq<Counts>): Counts {
    if counts == [] then Counts(0, 0, 0, 0, 0)
    else
      var a, b := Total(counts[..|counts| - 1]), counts[|counts| - 1];
      Counts(a.sites + b.sites, a.pairs + b.pairs, a.stream + b.stream, a.landings + b.landings, a.triggers + b.triggers)
  }

  /** All files of a build together. */
  function Tally(c: Patterns, files: seq<string>): Counts {
    Total(seq(|files|, i requires 0 <= i < |files| => CountsOf(c, files[i])))
  }

  predicate AsExpected(t: Counts) {
    t.sites == EXPECTED_SITES && t.pairs == EXPECTED_PAIRS && t.stream == EXPECTED_STREAM_SITES
  }

  predicate Balanced(t: Counts) {
    t.sites == 2 * t.pairs + t.landings + t.triggers
  }

  lemma {:induction false} TotalBalanced(counts: seq<Counts>)
    requires forall i :: 0 <= i < |counts| ==> Balanced(counts[i])
    ensures Balanced(Total(counts))
  {
    if counts != [] {
      TotalBalanced(counts[..|counts| - 1]);
    }
  }

  /** The census of a build: over all files together, sites are two per pair, one per landing and one
      per trigger. So 32 sites and 12 pairs leave 8 landings and triggers. */
  lemma BuildCensus(c: Patterns, files: seq<string>)
    ensures var t := Tally(c, files);
            && t.sites == 2 * t.pairs + t.landings + t.triggers
            && (AsExpected(t) ==> t.landings + t.triggers == 8)
  {
    var counts := seq(|files|, i requires 0 <= i < |files| => CountsOf(c, files[i]));
    forall i | 0 <= i < |files|
      ensures Balanced(counts[i])
    {
      Census(CodeOf(c, files[i]));
    }
    TotalBalanced(counts);
  }

  /** What one call makes of a file, and what it reports when it injects. */
  datatype Effect = Effect(after: string, counts: Counts, stale: bool)

  function EffectOf(c: Patterns, file: string, command: Command): Effect {
    Effect(FileAfter(c, file, command), CountsOf(c, file), Stale(c, file))
  }

  ghost predicate AreEffects(c: Patterns, files: seq<string>, command: Command, effects: seq<Effect>) {
    && |effects| == |files|
    && forall i {:trigger EffectOf(c, files[i], command)} ::
         0 <= i < |files| ==> effects[i] == EffectOf(c, files[i], command)
  }

  lemma Effects(c: Patterns, files: seq<string>, command: Command) returns (effects: seq<Effect>)
    ensures AreEffects(c, files, command, effects)
  {
    effects := seq(|files|, i requires 0 <= i < |files| => EffectOf(c, files[i], command));
  }

  function CountsIn(effects: seq<Effect>): (counts: seq<Counts>)
    ensures |counts| == |effects| && forall i :: 0 <= i < |effects| ==> counts[i] == effects[i].counts
  {
    seq(|effects|, i requires 0 <= i < |effects| => effects[i].counts)
  }

  lemma TotalSnoc(effects: seq<Effect>, i: nat)
    requires i < |effects|
    ensures var a, b := Total(CountsIn(effects[..i])), effects[i].counts;
            Total(CountsIn(effects[..i + 1]))
            == Counts(a.sites + b.sites, a.pairs + b.pairs, a.stream + b.stream, a.landings + b.landings, a.triggers + b.triggers)
  {
    assert CountsIn(effects[..i + 1])[..i] == CountsIn(effects[..i]);
  }

  /** What the exit code of main says about the files. */
  predicate Accepted(c: Patterns, files: seq<string>, command: Command) {
    && files != []
    && (Injects(command) ==> AsExpected(Tally(c, files)))
    && (command == Check ==> forall i :: 0 <= i < |files| ==> !Stale(c, files[i]))
  }

  predicate EffectsAccepted(command: Command, effects: seq<Effect>) {
    && effects != []
    && (Injects(command) ==> AsExpected(Total(CountsIn(effects))))
    && (command == Check ==> forall i :: 0 <= i < |effects| ==> !effects[i].stale)
  }

  lemma EffectsDecide(c: Patterns, files: seq<string>, command: Command, effects: seq<Effect>)
    requires AreEffects(c, files, command, effects)
    ensures Accepted(c, files, command) <==> EffectsAccepted(command, effects)
    ensures forall i :: 0 <= i < |files| ==> effects[i].after == FileAfter(c, files[i], command)
  {
    assert forall i :: 0 <= i < |files| ==> effects[i] == EffectOf(c, files[i], command);
    assert CountsIn(effects) == seq(|files|, i requires 0 <= i < |files| => CountsOf(c, files[i]));
  }

  lemma StaleReported(c: Patterns, file: string)
    ensures Reports(Report(Read(c, file), true), CountsOf(c, file))
    ensures Report(Read(c, file), true).stale == Stale(c, file)
  {
    StripShorter(Read(c, file));
  }

  /** One round of main's loop. */
  method ProcessNext(c: Patterns, files: seq<string>, i: nat, command: Command, ghost effects: seq<Effect>)
    returns (after: string, outcome: Outcome)
    requires PatternsOk(c) && AreEffects(c, files, command, effects) && i < |files|
    ensures after == effects[i].after
    ensures Injects(command) ==> Reports(outcome, effects[i].counts) && outcome.stale == effects[i].stale
  {
    assert effects[i] == EffectOf(c, files[i], command);
    after, outcome := ProcessFile(c, files[i], command);
    StaleReported(c, files[i]);
  }

  /** main: every file is processed, and then the totals and the staleness decide. */
  method ProcessFiles(c: Patterns, files: seq<string>, command: Command) returns (after: seq<string>, ok: bool)
    requires PatternsOk(c)
    ensures |after| == |files| && forall i :: 0 <= i < |files| ==> after[i] == FileAfter(c, files[i], command)
    ensures ok <==> Accepted(c, files, command)
  {
    ghost var effects := Effects(c, files, command);
    var sites: nat, pairs: nat, stream: nat, stale := 0, 0, 0, false;
    after := [];
    for i := 0 to |files|
      invariant |after| == i && forall k :: 0 <= k < i ==> after[k] == effects[k].after
      invariant Injects(command) ==> var t := Total(CountsIn(effects[..i])); t.sites == sites && t.pairs == pairs && t.stream == stream
      invariant Injects(command) ==> (stale <==> exists k :: 0 <= k < i && effects[k].stale)
    {
      var file, outcome := ProcessNext(c, files, i, command, effects);
      TotalSnoc(effects, i);
      after := after + [file];
      sites, pairs, stream := sites + outcome.sites, pairs + outcome.pairs, stream + outcome.stream;
      stale := stale || outcome.stale;
    }
    assert effects[..|files|] == effects;
    EffectsDecide(c, files, command, effects);
    if files == [] {
      return after, false;
    }
    if Injects(command) && (sites != EXPECTED_SITES || pairs != EXPECTED_PAIRS || stream != EXPECTED_STREAM_SITES) {
      return after, false;
    }
    ok := !(command == Check && stale);
  }
}
