/** The text of a diagnostic recording: its header, its three record shapes, how the recorder
    prints them and how the player scans them back (src/mmx_replay.c). */
module ReplayLog {
  import opened Bytes
  import opened Text

  // ----- settings that travel with each input

  datatype Settings = Settings(
    widescreen: bool, newRenderer: bool, noSpriteLimits: bool, timing: bool, width: int)

  function Flag(on: bool, weight: nat): nat {
    if on then weight else 0
  }

  /** policy(): one bit per setting, at positions 0, 2, 3 and 5. */
  function Policy(s: Settings): (flags: nat)
    ensures flags < 64
  {
    Flag(s.widescreen, 1) + Flag(s.newRenderer, 4) + Flag(s.noSpriteLimits, 8) + Flag(s.timing, 32)
  }

  predicate Bit(flags: nat, weight: nat)
    requires weight != 0
  {
    flags / weight % 2 == 1
  }

  /** flags & ~45 == 0: only bits 0, 2, 3 and 5 may be set. */
  predicate FlagsLegal(flags: nat) {
    flags < 64 && !Bit(flags, 2) && !Bit(flags, 16)
  }

  predicate WidthLegal(extraMax: nat, width: int) {
    256 <= width <= 256 + 2 * extraMax && width % 2 == 0
  }

  function Decode(flags: nat, width: int): Settings {
    Settings(Bit(flags, 1), Bit(flags, 4), Bit(flags, 8), Bit(flags, 32), width)
  }

  /** Which bit is which, in the word that is recorded and in the settings that are replayed. */
  lemma PolicyBits(s: Settings)
    ensures Policy(s) < 64 && Policy(s) / 2 % 2 == 0 && Policy(s) / 16 % 2 == 0
    ensures Policy(s) % 2 == 1 <==> s.widescreen
    ensures Policy(s) / 4 % 2 == 1 <==> s.newRenderer
    ensures Policy(s) / 8 % 2 == 1 <==> s.noSpriteLimits
    ensures Policy(s) / 32 % 2 == 1 <==> s.timing
  {
  }

  lemma DecodeBits(flags: nat, width: int)
    requires FlagsLegal(flags)
    ensures flags < 64 && flags / 2 % 2 == 0 && flags / 16 % 2 == 0
    ensures var s := Decode(flags, width);
            && s.width == width
            && (s.widescreen <==> flags % 2 == 1) && (s.newRenderer <==> flags / 4 % 2 == 1)
            && (s.noSpriteLimits <==> flags / 8 % 2 == 1) && (s.timing <==> flags / 32 % 2 == 1)
  {
  }

  /** Every flag word that policy() can build passes the mask and decodes to its settings. */
  lemma PolicyDecodes(s: Settings)
    ensures FlagsLegal(Policy(s)) && Decode(Policy(s), s.width) == s
  {
    var high := Flag(s.timing, 32);
    var mid := Flag(s.noSpriteLimits, 8) + high;
    assert mid / 2 % 2 == 0 && mid / 16 % 2 == 0;
  }

  /** Conversely the mask admits nothing else: a legal flag word is the policy of what it decodes to. */
  lemma LegalIsPolicy(flags: nat, width: int)
    requires FlagsLegal(flags)
    ensures Policy(Decode(flags, width)) == flags
  {
    assert flags == flags % 2 + 2 * (flags / 2 % 2) + 4 * (flags / 4 % 2) + 8 * (flags / 8 % 2)
                    + 16 * (flags / 16 % 2) + 32 * (flags / 32 % 2);
  }

  // ----- records

  datatype Line =
    | Checkpoint(offset: nat, size: nat, digest: nat)
    | Input(frame: nat, word: nat, flags: nat, width: int, peer: int)
    | Result(after: nat, wram: nat, cgram: nat, oam: nat, vram: nat)
    | Junk

  datatype Field = Field(base: nat, value: nat, pad: nat)

  function FieldText(f: Field): string
    requires IsBase(f.base)
  {
    if f.base == 10 then Dec(f.value) else Hex(f.value, f.pad)
  }

  predicate FieldsOk(fs: seq<Field>) {
    forall i :: 0 <= i < |fs| ==> IsBase(fs[i].base)
  }

  function Spell(fs: seq<Field>): string
    requires FieldsOk(fs)
  {
    if fs == [] then "" else " " + FieldText(fs[0]) + Spell(fs[1..])
  }

  /** The values a recorder can print: 32-bit unsigned numbers, and a C int that is not negative. */
  predicate Printable(line: Line) {
    match line
    case Checkpoint(o, s, d) => o < U32 && s < U32 && d < U32
    case Input(f, w, g, width, peer) =>
      f < U32 && w < U32 && g < U32 && 0 <= width < 0x8000_0000 && 0 <= peer < 0x8000_0000
    case Result(a, w, c, o, v) => a < U32 && w < U32 && c < U32 && o < U32 && v < U32
    case Junk => false
  }

  function Tag(line: Line): (c: char)
    ensures !IsSpace(c)
  {
    match line
    case Checkpoint(_, _, _) => 'S'
    case Input(_, _, _, _, _) => 'I'
    case Result(_, _, _, _, _) => 'H'
    case Junk => '?'
  }

  function LineFields(line: Line): (fs: seq<Field>)
    requires Printable(line)
    ensures FieldsOk(fs)
    ensures |fs| == if line.Checkpoint? then 3 else 5
  {
    match line
    case Checkpoint(o, s, d) => [Field(10, o, 0), Field(10, s, 0), Field(16, d, 8)]
    case Input(f, w, g, width, peer) =>
      [Field(10, f, 0), Field(16, w, 8), Field(16, g, 2), Field(10, width, 0), Field(10, peer, 0)]
    case Result(a, w, c, o, v) =>
      [Field(10, a, 0), Field(16, w, 8), Field(16, c, 8), Field(16, o, 8), Field(16, v, 8)]
  }

  function Print(line: Line): string
    requires Printable(line)
  {
    [Tag(line)] + Spell(LineFields(line))
  }

  /** A scanf format of integer conversions, given by their bases. */
  function ScanAll(bases: seq<nat>, t: string): Option<seq<int>>
    requires forall i :: 0 <= i < |bases| ==> IsBase(bases[i])
    ensures var r := ScanAll(bases, t); r.Some? ==> |r.value| == |bases|
  {
    if bases == [] then Some([])
    else
      var (v, rest) :- ScanNumber(bases[0], t);
      var vs :- ScanAll(bases[1..], rest);
      Some([v] + vs)
  }

  function ScanCheckpoint(t: string): Line {
    match ScanAll([10, 10, 16], t)
    case Some(v) => Checkpoint(ToUnsigned(v[0]), ToUnsigned(v[1]), ToUnsigned(v[2]))
    case None => Junk
  }

  function ScanInput(t: string): Line {
    match ScanAll([10, 16, 16, 10, 10], t)
    case Some(v) =>
      Input(ToUnsigned(v[0]), ToUnsigned(v[1]), ToUnsigned(v[2]), ToSigned(v[3]), ToSigned(v[4]))
    case None => Junk
  }

  function ScanResult(t: string): Line {
    match ScanAll([10, 16, 16, 16, 16], t)
    case Some(v) =>
      Result(ToUnsigned(v[0]), ToUnsigned(v[1]), ToUnsigned(v[2]), ToUnsigned(v[3]), ToUnsigned(v[4]))
    case None => Junk
  }

  /** What the player makes of one line: the first character selects the only format that can
      match, and a line that does not convert is junk to it. */
  function Classify(t: string): Line {
    if t == "" then Junk
    else if t[0] == 'S' then ScanCheckpoint(t[1..])
    else if t[0] == 'I' then ScanInput(t[1..])
    else if t[0] == 'H' then ScanResult(t[1..])
    else Junk
  }

  function Bases(fs: seq<Field>): (bs: seq<nat>)
    ensures |bs| == |fs|
  {
    seq(|fs|, i requires 0 <= i < |fs| => fs[i].base)
  }

  function Values(fs: seq<Field>): (vs: seq<int>)
    ensures |vs| == |fs|
  {
    seq(|fs|, i requires 0 <= i < |fs| => fs[i].value)
  }

  lemma {:induction false} ScanSpell(fs: seq<Field>)
    requires FieldsOk(fs)
    ensures EndsToken(Spell(fs))
    ensures ScanAll(Bases(fs), Spell(fs)) == Some(Values(fs))
  {
    if fs == [] {
      assert Values(fs) == [];
    } else {
      var f, rest := fs[0], Spell(fs[1..]);
      ScanSpell(fs[1..]);
      if f.base == 10 {
        ScanDec(f.value, rest);
      } else {
        ScanHex(f.value, f.pad, rest);
      }
      assert Bases(fs)[1..] == Bases(fs[1..]);
      assert [fs[0].value as int] + Values(fs[1..]) == Values(fs);
    }
  }

  lemma SpellCheckpoint(line: Line)
    requires Printable(line) && line.Checkpoint?
    ensures ScanCheckpoint(Spell(LineFields(line))) == line
  {
    ScanSpell(LineFields(line));
    assert Bases(LineFields(line)) == [10, 10, 16];
    assert Values(LineFields(line)) == [line.offset as int, line.size, line.digest];
  }

  lemma SpellInput(line: Line)
    requires Printable(line) && line.Input?
    ensures ScanInput(Spell(LineFields(line))) == line
  {
    ScanSpell(LineFields(line));
    assert Bases(LineFields(line)) == [10, 16, 16, 10, 10];
    assert Values(LineFields(line)) == [line.frame as int, line.word, line.flags, line.width, line.peer];
  }

  lemma SpellResult(line: Line)
    requires Printable(line) && line.Result?
    ensures ScanResult(Spell(LineFields(line))) == line
  {
    ScanSpell(LineFields(line));
    assert Bases(LineFields(line)) == [10, 16, 16, 16, 16];
    assert Values(LineFields(line)) == [line.after as int, line.wram, line.cgram, line.oam, line.vram];
  }

  /** Scanning a printed record returns the record, whatever its values. */
  lemma PrintClassify(line: Line)
    requires Printable(line)
    ensures Classify(Print(line)) == line
  {
    assert Print(line)[1..] == Spell(LineFields(line));
    match line {
      case Checkpoint(_, _, _) => SpellCheckpoint(line);
      case Input(_, _, _, _, _) => SpellInput(line);
      case Result(_, _, _, _, _) => SpellResult(line);
    }
  }

  /** The input record carries everything the player needs, for all frames and inputs, every flag
      word that policy() can build and every legal width: scanned back, it is the same record, it
      passes the player's mask and range checks, and it decodes to the settings it was built from. */
  lemma InputRoundTrip(extraMax: nat, frame: nat, word: nat, s: Settings)
    requires frame < U32 && word < U32 && WidthLegal(extraMax, s.width) && s.width < 0x8000_0000
    ensures Printable(Input(frame, word, Policy(s), s.width, 0))
    ensures var line := Classify(Print(Input(frame, word, Policy(s), s.width, 0)));
            && line == Input(frame, word, Policy(s), s.width, 0)
            && FlagsLegal(line.flags) && WidthLegal(extraMax, line.width)
            && Decode(line.flags, line.width) == s
  {
    PrintClassify(Input(frame, word, Policy(s), s.width, 0));
    PolicyDecodes(s);
  }

  lemma {:induction false} SplitSpell(fs: seq<Field>)
    requires FieldsOk(fs)
    ensures EndsToken(Spell(fs)) && |Fields(Spell(fs))| == |fs|
  {
    if fs != [] {
      var f := fs[0];
      SplitSpell(fs[1..]);
      if f.base == 10 {
        DecIsToken(f.value);
      } else {
        HexIsToken(f.value, f.pad);
      }
      FieldsCons(FieldText(f), Spell(fs[1..]));
    }
  }

  /** The inspection script's view of a printed record: its tag and its number of fields. */
  lemma SplitPrint(line: Line)
    requires Printable(line)
    ensures Fields(Print(line)) != [] && Fields(Print(line))[0] == [Tag(line)]
    ensures |Fields(Print(line))| == if line.Checkpoint? then 4 else 6
  {
    SplitSpell(LineFields(line));
    FieldsHead([Tag(line)], Spell(LineFields(line)));
  }

  lemma FieldLength(f: Field)
    requires IsBase(f.base) && f.value < U32 && f.pad <= 8
    ensures |FieldText(f)| <= 10
  {
    assert Power(10, 10) == 10_000_000_000 by {
      assert Power(10, 5) == 100_000;
      assert Power(10, 10) == 10 * (10 * (10 * (10 * (10 * Power(10, 5)))));
    }
    assert Power(16, 8) == U32 by {
      assert Power(16, 4) == 0x1_0000;
      assert Power(16, 8) == 16 * (16 * (16 * (16 * Power(16, 4))));
    }
    if f.base == 10 {
      NumeralLength(10, f.value, 10);
    } else {
      NumeralLength(16, f.value, 8);
    }
  }

  lemma {:induction false} SpellLength(fs: seq<Field>)
    requires FieldsOk(fs)
    requires forall i :: 0 <= i < |fs| ==> fs[i].value < U32 && fs[i].pad <= 8
    ensures |Spell(fs)| <= 11 * |fs|
  {
    if fs != [] {
      FieldLength(fs[0]);
      SpellLength(fs[1..]);
    }
  }

  /** A printed record with its newline and terminator fits both the 160-byte buffer it is
      formatted in and the 256-byte buffer it is read back with, so neither cuts it. */
  lemma PrintFits(line: Line)
    requires Printable(line)
    ensures |Print(line)| + 2 <= 160
  {
    SpellLength(LineFields(line));
  }

  // ----- header

  const MAGIC: string := "MMX3REPLAY"
  const MAGIC_LINE: string := "MMX3REPLAY 1"

  datatype Build = Build(version: string, revision: string, engine: string)

  predicate BuildPart(t: string) {
    IsToken(t) && |t| <= 79
  }

  predicate BuildOk(b: Build) {
    BuildPart(b.version) && BuildPart(b.revision) && BuildPart(b.engine)
  }

  function Header(b: Build, rom: nat, mods: nat): (lines: seq<string>)
    ensures |lines| == 4 && lines[0] == MAGIC_LINE
  {
    [ MAGIC_LINE,
      "BUILD" + " " + b.version + " " + b.revision + " " + b.engine,
      "ROM" + " " + Hex(rom, 8),
      "MODS" + " " + Dec(mods) ]
  }

  function Literal(word: string, t: string): Option<string> {
    if word <= t then Some(t[|word|..]) else None
  }

  /** %79s: blanks, then at most 79 non-blank characters. */
  function ScanWord(t: string): Option<string> {
    var a := SkipSpace(t);
    var n := TokenLength(a);
    if n == 0 then None else Some(a[if n < 79 then n else 79..])
  }

  function ScanLabelled(word: string, base: nat, t: string): Option<nat>
    requires IsBase(base)
  {
    var rest :- Literal(word, t);
    var (v, _) :- ScanNumber(base, rest);
    Some(ToUnsigned(v))
  }

  function ScanBuild(t: string): Option<string> {
    var a :- Literal("BUILD", t);
    var b :- ScanWord(a);
    var c :- ScanWord(b);
    ScanWord(c)
  }

  /** load_playback's header test, against the loaded ROM and the active mod selection. */
  predicate HeaderAccepted(lines: seq<string>, rom: nat, mods: nat) {
    && |lines| >= 4
    && ScanLabelled(MAGIC, 10, lines[0]) == Some(1)
    && ScanBuild(lines[1]).Some?
    && ScanLabelled("ROM", 16, lines[2]) == Some(rom)
    && ScanLabelled("MODS", 10, lines[3]) == Some(mods)
  }

  lemma WordScans(w: string, rest: string)
    requires BuildPart(w) && EndsToken(rest)
    ensures ScanWord(" " + w + rest) == Some(rest)
  {
    var t := " " + w + rest;
    var a := w + rest;
    assert t[1..] == a && a[0] == w[0];
    assert SkipSpace(a) == a;
    assert SkipSpace(t) == a;
    TokenRun(w, rest);
    assert a[|w|..] == rest;
  }

  lemma BuildScans(b: Build)
    requires BuildOk(b)
    ensures ScanBuild("BUILD" + " " + b.version + " " + b.revision + " " + b.engine) == Some("")
  {
    var l := "BUILD" + " " + b.version + " " + b.revision + " " + b.engine;
    var r2 := " " + b.engine + "";
    var r1 := " " + b.revision + r2;
    assert l == "BUILD" + (" " + b.version + r1);
    WordScans(b.version, r1);
    WordScans(b.revision, r2);
    WordScans(b.engine, "");
    assert l[5..] == " " + b.version + r1;
  }

  lemma LabelScans(word: string, base: nat, t: string, n: nat)
    requires IsBase(base) && n < U32
    requires ScanNumber(base, " " + t + "") == Some((n as int, ""))
    ensures ScanLabelled(word, base, word + " " + t) == Some(n)
  {
    var l := word + " " + t;
    assert l == word + (" " + t + "");
    assert l[|word|..] == " " + t + "";
  }

  /** A recording is accepted exactly when the ROM and the mod selection are the recorded ones. */
  lemma HeaderRoundTrip(b: Build, rom: nat, mods: nat, rom': nat, mods': nat, records: seq<string>)
    requires BuildOk(b) && rom < U32 && mods < U32
    ensures HeaderAccepted(Header(b, rom, mods) + records, rom', mods') <==> rom == rom' && mods == mods'
  {
    var h := Header(b, rom, mods);
    var lines := h + records;
    assert lines[0] == h[0] && lines[1] == h[1] && lines[2] == h[2] && lines[3] == h[3];
    ScanDec(1, "");
    assert Dec(1) == "1";
    assert MAGIC_LINE == MAGIC + " " + Dec(1);
    LabelScans(MAGIC, 10, Dec(1), 1);
    BuildScans(b);
    ScanHex(rom, 8, "");
    LabelScans("ROM", 16, Hex(rom, 8), rom);
    ScanDec(mods, "");
    LabelScans("MODS", 10, Dec(mods), mods);
  }

  // ----- records as they stand in a file

  /** Words, each behind a blank. */
  function Words(ws: seq<string>): string {
    if ws == [] then "" else " " + ws[0] + Words(ws[1..])
  }

  function FieldTexts(fs: seq<Field>): (ws: seq<string>)
    requires FieldsOk(fs)
    ensures |ws| == |fs| && forall i :: 0 <= i < |fs| ==> ws[i] == FieldText(fs[i])
  {
    seq(|fs|, i requires 0 <= i < |fs| => FieldText(fs[i]))
  }

  lemma {:induction false} SpellWords(fs: seq<Field>)
    requires FieldsOk(fs)
    ensures Spell(fs) == Words(FieldTexts(fs))
  {
    if fs != [] {
      SpellWords(fs[1..]);
      assert FieldTexts(fs)[1..] == FieldTexts(fs[1..]);
    }
  }

  /** The formats "S %u %u %08x", "I %u %08x %02x %d %d" and "H %u %08x %08x %08x %08x": which value
      stands where, in which base and width. */
  lemma PrintsAs(line: Line)
    requires Printable(line)
    ensures match line
            case Checkpoint(offset, size, digest) =>
              Print(line) == "S" + Words([Dec(offset), Dec(size), Hex(digest, 8)])
            case Input(frame, word, flags, width, peer) =>
              Print(line) == "I" + Words([Dec(frame), Hex(word, 8), Hex(flags, 2), Dec(width), Dec(peer)])
            case Result(after, wram, cgram, oam, vram) =>
              Print(line) == "H" + Words([Dec(after), Hex(wram, 8), Hex(cgram, 8), Hex(oam, 8), Hex(vram, 8)])
            case Junk => true
  {
    var fs := LineFields(line);
    SpellWords(fs);
    match line {
      case Checkpoint(offset, size, digest) =>
        assert FieldTexts(fs) == [Dec(offset), Dec(size), Hex(digest, 8)];
      case Input(frame, word, flags, width, peer) =>
        assert FieldTexts(fs) == [Dec(frame), Hex(word, 8), Hex(flags, 2), Dec(width), Dec(peer)];
      case Result(after, wram, cgram, oam, vram) =>
        assert FieldTexts(fs) == [Dec(after), Hex(wram, 8), Hex(cgram, 8), Hex(oam, 8), Hex(vram, 8)];
    }
  }
}
