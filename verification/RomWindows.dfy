/** From machine code to widened windows. Every window and trigger that stands in a ROM as code is in
    the scanner's table with the right scale, so that after any run of the patcher its operands hold
    what the helpers return, and its comparison accepts exactly the widened range. */
module RomWindows {
  import opened Bytes
  import opened Windows
  import opened RomScan
  import opened RomPatch
  import opened RomRestore

  // ----- the code

  datatype Form = Standard | Box | Centered

  /** Where the operands stand, from the position that the scan looks at. */
  function AddAt(form: Form, i: nat): nat {
    if form == Centered then i + 4 else i + 5
  }

  function LimitAt(form: Form, i: nat): nat {
    match form
    case Standard => i + 8
    case Box => i + 11
    case Centered => i + 14
  }

  function Low(w: Word): Byte {
    w % 0x100
  }

  function High(w: Word): Byte {
    w / 0x100
  }

  /** SBC $1E5D / CLC / ADC #add / CMP #limit, behind LDA $05 or LDA $05 / SEC; LDA $1E5D / SEC /
      SBC #add / STA $08 / CLC / ADC #limit / STA $06; LDA $1E5D / ADC #$0080 / SEC / SBC $05 / CLC /
      ADC #bias / CMP #$01C0. */
  predicate WindowCode(rom: seq<Byte>, form: Form, i: nat, add: Word, limit: Word) {
    match form
    case Standard =>
      && i >= 3 && (Matches(rom, i - 2, [0xA5, 0x05]) || Matches(rom, i - 3, [0xA5, 0x05, 0x38]))
      && Matches(rom, i, [0xED, 0x5D, 0x1E, 0x18, 0x69, Low(add), High(add), 0xC9, Low(limit), High(limit)])
      && add <= 0x140 && limit == 0x100 + 2 * add
    case Box =>
      && Matches(rom, i, [0xAD, 0x5D, 0x1E, 0x38, 0xE9, Low(add), High(add), 0x85, 0x08,
                          0x18, 0x69, Low(limit), High(limit), 0x85, 0x06])
      && add <= 0x140 && limit == 0x100 + 2 * add
    case Centered =>
      && i + 12 < |rom|
      && Matches(rom, i, [0xAD, 0x5D, 0x1E, 0x69, Low(add), High(add), 0x38, 0xE5, 0x05, 0x18, 0x69,
                          rom[i + 11], rom[i + 12], 0xC9, Low(limit), High(limit)])
      && add == 0x80 && limit == 0x1C0
  }

  predicate PatternAt(rom: seq<Byte>, form: Form, i: nat)
    requires Scanned(rom, i)
  {
    match form
    case Standard => StandardAt(rom, i)
    case Box => BoxAt(rom, i)
    case Centered => CenteredAt(rom, i)
  }

  lemma ObjectLoad(rom: seq<Byte>, i: nat)
    requires Scanned(rom, i) && (Matches(rom, i - 2, [0xA5, 0x05]) || Matches(rom, i - 3, [0xA5, 0x05, 0x38]))
    ensures (rom[i - 2] == 0xA5 && rom[i - 1] == 0x05) || (rom[i - 3] == 0xA5 && rom[i - 2] == 0x05 && rom[i - 1] == 0x38)
  {
    if Matches(rom, i - 2, [0xA5, 0x05]) {
      var code := rom[i - 2..i];
      assert rom[i - 2] == code[0] && rom[i - 1] == code[1];
    } else {
      var code := rom[i - 3..i];
      assert rom[i - 3] == code[0] && rom[i - 2] == code[1] && rom[i - 1] == code[2];
    }
  }

  lemma StandardIsPattern(rom: seq<Byte>, i: nat, add: Word, limit: Word)
    requires Scanned(rom, i) && WindowCode(rom, Standard, i, add, limit)
    ensures StandardAt(rom, i) && WordAt(rom, i + 5) == add && WordAt(rom, i + 8) == limit
  {
    var code := rom[i..i + 10];
    assert rom[i] == code[0] && rom[i + 1] == code[1] && rom[i + 2] == code[2] && rom[i + 3] == code[3];
    assert rom[i + 4] == code[4] && rom[i + 5] == code[5] && rom[i + 6] == code[6] && rom[i + 7] == code[7];
    assert rom[i + 8] == code[8] && rom[i + 9] == code[9];
    ObjectLoad(rom, i);
  }

  lemma BoxIsPattern(rom: seq<Byte>, i: nat, add: Word, limit: Word)
    requires Scanned(rom, i) && WindowCode(rom, Box, i, add, limit)
    ensures BoxAt(rom, i) && WordAt(rom, i + 5) == add && WordAt(rom, i + 11) == limit
  {
    var code := rom[i..i + 15];
    assert rom[i] == code[0] && rom[i + 1] == code[1] && rom[i + 2] == code[2] && rom[i + 3] == code[3];
    assert rom[i + 4] == code[4] && rom[i + 5] == code[5] && rom[i + 6] == code[6] && rom[i + 7] == code[7];
    assert rom[i + 8] == code[8] && rom[i + 9] == code[9] && rom[i + 10] == code[10] && rom[i + 11] == code[11];
    assert rom[i + 12] == code[12] && rom[i + 13] == code[13] && rom[i + 14] == code[14];
  }

  lemma CenteredIsPattern(rom: seq<Byte>, i: nat, add: Word, limit: Word)
    requires Scanned(rom, i) && WindowCode(rom, Centered, i, add, limit)
    ensures CenteredAt(rom, i) && WordAt(rom, i + 4) == add && WordAt(rom, i + 14) == limit
  {
    var code := rom[i..i + 16];
    assert rom[i] == code[0] && rom[i + 1] == code[1] && rom[i + 2] == code[2] && rom[i + 3] == code[3];
    assert rom[i + 4] == code[4] && rom[i + 5] == code[5] && rom[i + 6] == code[6] && rom[i + 7] == code[7];
    assert rom[i + 8] == code[8] && rom[i + 9] == code[9] && rom[i + 10] == code[10] && rom[i + 11] == code[11];
    assert rom[i + 12] == code[12] && rom[i + 13] == code[13] && rom[i + 14] == code[14] && rom[i + 15] == code[15];
  }

  lemma CodeIsPattern(rom: seq<Byte>, form: Form, i: nat, add: Word, limit: Word)
    requires Scanned(rom, i) && WindowCode(rom, form, i, add, limit)
    ensures PatternAt(rom, form, i) && WordAt(rom, AddAt(form, i)) == add && WordAt(rom, LimitAt(form, i)) == limit
  {
    match form {
      case Standard => StandardIsPattern(rom, i, add, limit);
      case Box => BoxIsPattern(rom, i, add, limit);
      case Centered => CenteredIsPattern(rom, i, add, limit);
    }
  }

  predicate CameraRead(rom: seq<Byte>, a: nat)
    requires a + 2 < |rom|
  {
    rom[a..a + 3] == [0xAD, 0x5D, 0x1E] || rom[a..a + 3] == [0xAD, 0x60, 0x1E]
  }

  /** LDA $1E5D, then within 48 bytes ADC #constant and within 33 more (56 in all) CMP $05, with no
      camera read between. */
  ghost predicate TriggerCode(rom: seq<Byte>, i: nat, j: nat)
    requires Scanned(rom, i)
  {
    && rom[i..i + 3] == [0xAD, 0x5D, 0x1E]
    && i + 3 <= j < i + 48 && rom[j] == 0x69
    && rom[j + 1] as int + 0x100 * rom[j + 2] as int
       in {0x20, 0x40, 0x60, 0x80, 0xA0, 0xC0, 0x100, 0x110, 0x120, 0x140}
    && (forall a :: i + 3 <= a <= j ==> !CameraRead(rom, a))
    && exists k: nat :: CompareCode(rom, i, j, k)
  }

  predicate CompareCode(rom: seq<Byte>, i: nat, j: nat, k: nat)
    requires Scanned(rom, i) && j < i + 48
  {
    && j + 3 <= k < j + 33 && k < i + 56 && rom[k] == 0xC5 && rom[k + 1] == 0x05
    && forall a :: j + 3 <= a <= k ==> !CameraRead(rom, a)
  }

  lemma ReadsAreAnchors(rom: seq<Byte>, a: nat)
    requires a + 2 < |rom|
    ensures CameraRead(rom, a) <==> AnchorAt(rom, a)
    ensures rom[a..a + 3] == [0xAD, 0x5D, 0x1E] <==> LoadsCameraX(rom, a)
  {
    var code := rom[a..a + 3];
    assert code[0] == rom[a] && code[1] == rom[a + 1] && code[2] == rom[a + 2];
  }

  lemma ComparesAreCode(rom: seq<Byte>, i: nat, j: nat, k: nat)
    requires Scanned(rom, i) && i + 3 <= j < i + 48
    ensures CompareCode(rom, i, j, k) <==> ComparedAt(rom, i, j, k)
  {
    forall a | j + 3 <= a <= k && k < i + 56
      ensures CameraRead(rom, a) <==> AnchorAt(rom, a)
    {
      ReadsAreAnchors(rom, a);
    }
  }

  /** The triggers that the scan looks for are the code that is described. */
  lemma TriggersAreCode(rom: seq<Byte>, i: nat, j: nat)
    requires Scanned(rom, i)
    ensures TriggersAt(rom, i, j) <==> TriggerCode(rom, i, j)
  {
    ReadsAreAnchors(rom, i);
    if i + 3 <= j < i + 48 {
      forall a | i + 3 <= a <= j
        ensures CameraRead(rom, a) <==> AnchorAt(rom, a)
      {
        ReadsAreAnchors(rom, a);
      }
      forall k: nat
        ensures CompareCode(rom, i, j, k) <==> ComparedAt(rom, i, j, k)
      {
        ComparesAreCode(rom, i, j, k);
      }
    }
  }

  // ----- the scale of an operand

  /** The limit of some window that the scan visits. */
  predicate LimitOperand(rom: seq<Byte>, o: nat) {
    || (o >= 8 && Scanned(rom, o - 8) && StandardAt(rom, o - 8))
    || (o >= 11 && Scanned(rom, o - 11) && BoxAt(rom, o - 11))
    || (o >= 14 && Scanned(rom, o - 14) && CenteredAt(rom, o - 14))
  }

  /** The add of a window is never a limit of another. */
  lemma AddIsNoLimit(rom: seq<Byte>, form: Form, i: nat)
    requires Scanned(rom, i) && PatternAt(rom, form, i)
    ensures !LimitOperand(rom, AddAt(form, i)) && LimitOperand(rom, LimitAt(form, i))
  {
  }

  /** A trigger constant can only be the limit of the box that starts with the same camera read. */
  lemma TriggerLimit(rom: seq<Byte>, i: nat, j: nat)
    requires Scanned(rom, i) && TriggersAt(rom, i, j)
    ensures LimitOperand(rom, j + 1) <==> BoxAt(rom, i) && j == i + 10
  {
    if LimitOperand(rom, j + 1) {
      var b := j + 1 - 11;
      assert BoxAt(rom, b) && AnchorAt(rom, b);
      if b < i {
        NoReadInBox(rom, b, i);
      }
    }
  }

  lemma NoReadInBox(rom: seq<Byte>, b: nat, i: nat)
    requires Scanned(rom, b) && BoxAt(rom, b) && Scanned(rom, i) && b < i <= b + 7
    ensures !LoadsCameraX(rom, i)
  {
  }

  function ScaleOf(rom: seq<Byte>, o: nat): nat {
    if LimitOperand(rom, o) then 2 else 1
  }

  /** What the table says of an operand is right. */
  predicate Right(rom: seq<Byte>, s: Site) {
    s.scale == ScaleOf(rom, s.operand)
  }

  predicate AllRight(rom: seq<Byte>, sites: seq<Site>) {
    forall k :: 0 <= k < |sites| ==> Right(rom, sites[k])
  }

  lemma {:induction false} AddedRight(rom: seq<Byte>, table: seq<Site>, sites: seq<Site>)
    requires AllRight(rom, table) && AllRight(rom, sites)
    ensures AllRight(rom, AddedAll(table, sites))
    decreases |sites|
  {
    if sites != [] {
      AddedRight(rom, Added(table, sites[0]), sites[1..]);
    }
  }

  lemma {:induction false} AddedJoin(table: seq<Site>, a: seq<Site>, b: seq<Site>)
    ensures AddedAll(table, a + b) == AddedAll(AddedAll(table, a), b)
    decreases |a|
  {
    if a == [] {
      assert a + b == b;
    } else {
      assert (a + b)[0] == a[0] && (a + b)[1..] == a[1..] + b;
      AddedJoin(Added(table, a[0]), a[1..], b);
    }
  }

  lemma PairRight(rom: seq<Byte>, form: Form, i: nat)
    requires Scanned(rom, i) && PatternAt(rom, form, i)
    ensures AllRight(rom, Pair(rom, AddAt(form, i), LimitAt(form, i)))
  {
    AddIsNoLimit(rom, form, i);
  }

  lemma PairsRight(rom: seq<Byte>, i: nat)
    requires Scanned(rom, i)
    ensures AllRight(rom, FoundPairs(rom, i))
  {
    if StandardAt(rom, i) {
      PairRight(rom, Standard, i);
    }
    if BoxAt(rom, i) {
      PairRight(rom, Box, i);
    }
    if CenteredAt(rom, i) {
      PairRight(rom, Centered, i);
    }
  }

  /** A box's own limit is in the table, or the table is full, before its trigger is looked at. */
  lemma BoxLimitFirst(rom: seq<Byte>, table: seq<Site>, i: nat)
    requires Scanned(rom, i) && TableOk(rom, table) && BoxAt(rom, i)
    ensures var after := AddedAll(table, FoundPairs(rom, i)); |after| >= SITE_MAX || Has(after, i + 11)
  {
    PairPlausible(rom, i);
    AddedAllOk(rom, table, FoundPairs(rom, i));
    assert Site(i + 11, WordAt(rom, i + 11), 2) in Pair(rom, i + 5, i + 11);
  }

  lemma FoundRight(rom: seq<Byte>, table: seq<Site>, i: nat)
    requires Scanned(rom, i) && TableOk(rom, table) && AllRight(rom, table)
    ensures AllRight(rom, AddedAll(table, Found(rom, i)))
  {
    var pairs, after := FoundPairs(rom, i), AddedAll(table, FoundPairs(rom, i));
    PairsRight(rom, i);
    AddedRight(rom, table, pairs);
    AddedJoin(table, pairs, Trigger(rom, i));
    TriggerMeans(rom, i);
    if Trigger(rom, i) != [] {
      var j: nat :| FirstTrigger(rom, i, j) && Trigger(rom, i) == [Site(j + 1, WordAt(rom, j + 1), 1)];
      TriggerRight(rom, table, after, i, j);
    }
  }

  lemma TriggerRight(rom: seq<Byte>, table: seq<Site>, after: seq<Site>, i: nat, j: nat)
    requires Scanned(rom, i) && TableOk(rom, table) && FirstTrigger(rom, i, j)
    requires after == AddedAll(table, FoundPairs(rom, i)) && AllRight(rom, after)
    ensures AllRight(rom, AddedAll(after, [Site(j + 1, WordAt(rom, j + 1), 1)]))
  {
    TriggerScale(rom, i, j);
    if BoxAt(rom, i) && j == i + 10 {
      BoxLimitFirst(rom, table, i);
    }
    OneAddedRight(rom, after, Site(j + 1, WordAt(rom, j + 1), 1));
  }

  /** A site that is right, or whose operand is already there, leaves the table right. */
  lemma OneAddedRight(rom: seq<Byte>, table: seq<Site>, s: Site)
    requires AllRight(rom, table) && (Right(rom, s) || Has(table, s.operand) || |table| >= SITE_MAX)
    ensures AllRight(rom, AddedAll(table, [s]))
  {
    assert [s][1..] == [];
    assert AddedAll(table, [s]) == AddedAll(Added(table, s), []);
  }

  lemma TriggerScale(rom: seq<Byte>, i: nat, j: nat)
    requires Scanned(rom, i) && FirstTrigger(rom, i, j)
    ensures ScaleOf(rom, j + 1) == if BoxAt(rom, i) && j == i + 10 then 2 else 1
  {
    TriggerLimit(rom, i, j);
  }

  lemma {:induction false} TableRight(rom: seq<Byte>, i: nat)
    ensures AllRight(rom, TableOf(Founds(rom, i))) && TableOk(rom, TableOf(Founds(rom, i)))
  {
    FoundsPlausible(rom, i);
    TableOfOk(rom, Founds(rom, i));
    if i > 3 {
      TableRight(rom, i - 1);
      TableOfSnoc(Founds(rom, i - 1), FoundAt(rom)(i - 1));
      if Scanned(rom, i - 1) {
        FoundRight(rom, TableOf(Founds(rom, i - 1)), i - 1);
      }
    }
  }

  /** Whatever a ROM contains, an operand in the scanner's table has scale 2 exactly when it is the
      limit of a window. */
  lemma ScalesAreRight(rom: seq<Byte>)
    ensures forall k :: 0 <= k < |Table(rom)| ==> Table(rom)[k].scale == ScaleOf(rom, Table(rom)[k].operand)
  {
    TableRight(rom, ScanEnd(rom));
  }

  // ----- nothing else is recorded

  /** The operand of a window or of a trigger. */
  ghost predicate Justified(rom: seq<Byte>, o: nat) {
    || (exists form, i: nat :: Scanned(rom, i) && PatternAt(rom, form, i) && (o == AddAt(form, i) || o == LimitAt(form, i)))
    || (exists i: nat, j: nat :: Scanned(rom, i) && FirstTrigger(rom, i, j) && o == j + 1)
  }

  ghost predicate AllJustified(rom: seq<Byte>, sites: seq<Site>) {
    forall k :: 0 <= k < |sites| ==> Justified(rom, sites[k].operand)
  }

  lemma PairJustified(rom: seq<Byte>, form: Form, i: nat)
    requires Scanned(rom, i) && PatternAt(rom, form, i)
    ensures AllJustified(rom, Pair(rom, AddAt(form, i), LimitAt(form, i)))
  {
  }

  lemma FoundJustified(rom: seq<Byte>, i: nat)
    requires Scanned(rom, i)
    ensures AllJustified(rom, Found(rom, i))
  {
    if StandardAt(rom, i) {
      PairJustified(rom, Standard, i);
    }
    if BoxAt(rom, i) {
      PairJustified(rom, Box, i);
    }
    if CenteredAt(rom, i) {
      PairJustified(rom, Centered, i);
    }
    TriggerMeans(rom, i);
  }

  lemma {:induction false} AddedJustified(rom: seq<Byte>, table: seq<Site>, sites: seq<Site>)
    requires AllJustified(rom, table) && AllJustified(rom, sites)
    ensures AllJustified(rom, AddedAll(table, sites))
    decreases |sites|
  {
    if sites != [] {
      AddedJustified(rom, Added(table, sites[0]), sites[1..]);
    }
  }

  lemma {:induction false} TableJustified(rom: seq<Byte>, i: nat)
    ensures AllJustified(rom, TableOf(Founds(rom, i)))
  {
    if i > 3 {
      TableJustified(rom, i - 1);
      TableOfSnoc(Founds(rom, i - 1), FoundAt(rom)(i - 1));
      if Scanned(rom, i - 1) {
        FoundJustified(rom, i - 1);
      }
      AddedJustified(rom, TableOf(Founds(rom, i - 1)), FoundAt(rom)(i - 1));
    }
  }

  /** Every recorded operand is one of a window or of a trigger. */
  lemma RecordedIsJustified(rom: seq<Byte>)
    ensures forall k :: 0 <= k < |Table(rom)| ==> Justified(rom, Table(rom)[k].operand)
  {
    TableJustified(rom, ScanEnd(rom));
  }

  // ----- windows of a scanned ROM

  lemma Recorded(rom: seq<Byte>, i: nat, s: Site) returns (k: nat)
    requires |Table(rom)| < SITE_MAX && 3 <= i < ScanEnd(rom) && s in Found(rom, i) && s.operand + 1 < |rom|
    ensures k < |Table(rom)| && Table(rom)[k] == Site(s.operand, WordAt(rom, s.operand), ScaleOf(rom, s.operand))
  {
    ScanGuarantees(rom);
    ScalesAreRight(rom);
    assert Has(Table(rom), s.operand);
    k :| 0 <= k < |Table(rom)| && Table(rom)[k].operand == s.operand;
    assert Plausible(rom, Table(rom)[k]);
  }

  /** The two operands of a window in the table. */
  lemma WindowRecorded(rom: seq<Byte>, form: Form, i: nat, add: Word, limit: Word) returns (a: nat, l: nat)
    requires |Table(rom)| < SITE_MAX && 3 <= i < ScanEnd(rom) && WindowCode(rom, form, i, add, limit)
    ensures a < |Table(rom)| && Table(rom)[a] == Site(AddAt(form, i), add, 1)
    ensures l < |Table(rom)| && Table(rom)[l] == Site(LimitAt(form, i), limit, 2)
  {
    CodeIsPattern(rom, form, i, add, limit);
    AddIsNoLimit(rom, form, i);
    PairIsFound(rom, form, i);
    var pair := Pair(rom, AddAt(form, i), LimitAt(form, i));
    a := Recorded(rom, i, pair[0]);
    l := Recorded(rom, i, pair[1]);
  }

  lemma PairIsFound(rom: seq<Byte>, form: Form, i: nat)
    requires Scanned(rom, i) && PatternAt(rom, form, i)
    ensures var pair := Pair(rom, AddAt(form, i), LimitAt(form, i)); pair[0] in Found(rom, i) && pair[1] in Found(rom, i)
  {
    var pair := Pair(rom, AddAt(form, i), LimitAt(form, i));
    assert pair[0] in pair && pair[1] in pair;
  }

  /** The ROM after a run, one frame, and entries to the activation routine during it. */
  function RomAfter(original: seq<Byte>, l: Layout, ops: seq<Op>, margin: nat, native: bool, natives: seq<bool>): (rom: seq<Byte>)
    requires Laid(l.sites, |original|)
    ensures |rom| == |original|
  {
    Run(l, Step(l, Run(l, Private(original, Unscanned), ops), Frame(margin, native)), Entries(margin, natives)).rom
  }

  predicate OffStream(body: nat, o: nat) {
    !InStream(body, o) && !InStream(body, o + 1)
  }

  /** A native controller that runs the activation routine sees the routine's operands unwidened. */
  function MarginAt(o: nat, native: bool, margin: nat): nat {
    if ROUTINE <= o < ROUTINE_END && native then 0 else margin
  }

  /** What a recorded operand holds in the patched ROM. */
  predicate Holds(r: seq<Byte>, s: Site, native: bool, margin: nat) {
    && s.operand + 1 < |r|
    && var m := MarginAt(s.operand, native, margin);
       WordAt(r, s.operand) == if s.scale == 1 then WinAdd(s.base, false, m) else WinLimit(s.base, false, m)
  }

  lemma SiteHolds(original: seq<Byte>, l: Layout, ops: seq<Op>, margin: nat, native: bool, natives: seq<bool>, k: nat, s: Site)
    requires Scans(l, original) && l.valid && k < |l.sites| && l.sites[k] == s && OffStream(l.body, s.operand)
    ensures Holds(RomAfter(original, l, ops, margin, native, natives), s, Latest(native, natives), margin)
  {
    FrameParity(l, original, ops, margin, native, natives, k);
  }

  /** A window's operands hold what the helpers return for them: the add plus one margin, the limit
      plus two. */
  predicate WindowHolds(r: seq<Byte>, form: Form, i: nat, add: Word, limit: Word, native: bool, margin: nat) {
    && LimitAt(form, i) + 1 < |r|
    && WordAt(r, AddAt(form, i)) == WinAdd(add, false, MarginAt(AddAt(form, i), native, margin))
    && WordAt(r, LimitAt(form, i)) == WinLimit(limit, false, MarginAt(LimitAt(form, i), native, margin))
  }

  /** Every window of every ROM. Where a window stands as code, then after any run, a frame at any
      margin and any entries during it, its add operand holds what the add helper returns for it and
      its limit operand what the limit helper returns. */
  lemma WindowWidens(original: seq<Byte>, body: nat, enabled: bool, form: Form, i: nat, add: Word, limit: Word,
                     ops: seq<Op>, margin: nat, native: bool, natives: seq<bool>)
    requires |Table(original)| == 24 && 3 <= i < ScanEnd(original)
    requires WindowCode(original, form, i, add, limit)
    requires OffStream(body, AddAt(form, i)) && OffStream(body, LimitAt(form, i))
    ensures WindowHolds(RomAfter(original, ScannedLayout(original, body, enabled), ops, margin, native, natives),
                        form, i, add, limit, Latest(native, natives), margin)
  {
    var l := ScannedLayout(original, body, enabled);
    var a, z := WindowRecorded(original, form, i, add, limit);
    SiteHolds(original, l, ops, margin, native, natives, a, Site(AddAt(form, i), add, 1));
    SiteHolds(original, l, ops, margin, native, natives, z, Site(LimitAt(form, i), limit, 2));
  }

  lemma TriggerIsFound(rom: seq<Byte>, i: nat, j: nat)
    requires Scanned(rom, i) && FirstTrigger(rom, i, j)
    ensures Site(j + 1, WordAt(rom, j + 1), 1) in Found(rom, i)
  {
    TriggerMeans(rom, i);
    assert Trigger(rom, i)[0] in Trigger(rom, i);
  }

  lemma TriggerRecorded(rom: seq<Byte>, i: nat, j: nat, base: Word, scale: nat) returns (k: nat)
    requires |Table(rom)| < SITE_MAX && 3 <= i < ScanEnd(rom) && FirstTrigger(rom, i, j)
    requires base == WordAt(rom, j + 1) && scale == ScaleOf(rom, j + 1)
    ensures k < |Table(rom)| && Table(rom)[k] == Site(j + 1, base, scale)
  {
    TriggerIsFound(rom, i, j);
    k := RecordedAs(rom, i, Site(j + 1, base, 1), scale);
  }

  lemma RecordedAs(rom: seq<Byte>, i: nat, s: Site, scale: nat) returns (k: nat)
    requires |Table(rom)| < SITE_MAX && 3 <= i < ScanEnd(rom) && s in Found(rom, i) && s.operand + 1 < |rom|
    requires s.base == WordAt(rom, s.operand) && scale == ScaleOf(rom, s.operand)
    ensures k < |Table(rom)| && Table(rom)[k] == s.(scale := scale)
  {
    k := Recorded(rom, i, s);
  }

  /** Every trigger likewise: its constant holds what the add helper returns, unless it is also the
      limit of the box that starts with the same camera read. */
  lemma TriggerWidens(original: seq<Byte>, body: nat, enabled: bool, i: nat, j: nat,
                      ops: seq<Op>, margin: nat, native: bool, natives: seq<bool>)
    requires |Table(original)| == 24 && 3 <= i < ScanEnd(original)
    requires FirstTrigger(original, i, j) && OffStream(body, j + 1)
    ensures Holds(RomAfter(original, ScannedLayout(original, body, enabled), ops, margin, native, natives),
                  Site(j + 1, WordAt(original, j + 1), if BoxAt(original, i) && j == i + 10 then 2 else 1),
                  Latest(native, natives), margin)
  {
    var base, scale := WordAt(original, j + 1), ScaleOf(original, j + 1);
    TriggerScale(original, i, j);
    var k := TriggerRecorded(original, i, j, base, scale);
    SiteHolds(original, ScannedLayout(original, body, enabled), ops, margin, native, natives, k, Site(j + 1, base, scale));
  }

  /** Entries to the activation routine by their objects: direct page and type. */
  function Controllers(entries: seq<(Word, Byte)>): (natives: seq<bool>)
    ensures |natives| == |entries|
    ensures forall i :: 0 <= i < |natives| ==> natives[i] == NativeController(entries[i].0, entries[i].1)
  {
    seq(|entries|, i requires 0 <= i < |entries| => NativeController(entries[i].0, entries[i].1))
  }

  lemma EntryHolds(original: seq<Byte>, l: Layout, ops: seq<Op>, margin: nat, native: bool, natives: seq<bool>, k: nat, s: Site)
    requires Scans(l, original) && l.valid && k < |l.sites| && l.sites[k] == s && InRoutine(s) && natives != []
    ensures Holds(RomAfter(original, l, ops, margin, native, natives), s, Latest(native, natives), margin)
  {
    FrameParity(l, original, ops, margin, native, natives, k);
  }

  /** An operand of the routine: native for a type 4 object in one of the 48 resident slots, widened by
      as many margins as it takes for any other. */
  predicate HoldsFor(r: seq<Byte>, s: Site, scale: nat, dp: Word, kind: Byte, margin: nat) {
    && s.operand + 1 < |r|
    && WordAt(r, s.operand)
       == if kind == 4 && exists slot: nat :: slot < 48 && dp == 0x1818 + 32 * slot then s.base
          else Wrap(s.base + scale * margin)
  }

  lemma ObjectHolds(r: seq<Byte>, s: Site, scale: nat, dp: Word, kind: Byte, margin: nat)
    requires InRoutine(s) && s.scale == scale && (scale == 1 || scale == 2)
    requires Holds(r, s, NativeController(dp, kind), margin)
    ensures HoldsFor(r, s, scale, dp, kind, margin)
  {
    NativeSlots(dp, kind);
  }

  /** Whatever object entered the activation routine last decides what its operands hold. This needs no
      word about the stream. */
  lemma RoutineByObject(original: seq<Byte>, body: nat, enabled: bool, ops: seq<Op>, margin: nat, native: bool,
                        entries: seq<(Word, Byte)>, k: nat)
    requires |Table(original)| == 24 && k < 24 && InRoutine(Table(original)[k]) && entries != []
    ensures var s, last := Table(original)[k], entries[|entries| - 1];
            HoldsFor(RomAfter(original, ScannedLayout(original, body, enabled), ops, margin, native, Controllers(entries)),
                     s, if LimitOperand(original, s.operand) then 2 else 1, last.0, last.1, margin)
  {
    var s, last, natives := Table(original)[k], entries[|entries| - 1], Controllers(entries);
    ScalesAreRight(original);
    EntryHolds(original, ScannedLayout(original, body, enabled), ops, margin, native, natives, k, s);
    ObjectHolds(RomAfter(original, ScannedLayout(original, body, enabled), ops, margin, native, natives),
                s, s.scale, last.0, last.1, margin);
  }

  // ----- what the patched code accepts

  /** The standard window code at i accepts exactly the objects within `reach` of the screen. */
  ghost predicate AcceptsNear(r: seq<Byte>, i: nat, reach: int) {
    && i + 9 < |r|
    && forall objectX: Word, camera: Word ::
         Accepts(objectX, camera, WordAt(r, i + 5), WordAt(r, i + 8)) <==> Near(Distance(objectX, camera), reach)
  }

  /** The patched standard window, read off the ROM, accepts exactly the objects within add + margin
      of the screen, as long as that is at most $7F00. */
  lemma PatchedStandard(original: seq<Byte>, body: nat, enabled: bool, i: nat, add: Word, limit: Word,
                        ops: seq<Op>, margin: nat, native: bool, natives: seq<bool>)
    requires |Table(original)| == 24 && 3 <= i < ScanEnd(original)
    requires WindowCode(original, Standard, i, add, limit)
    requires OffStream(body, i + 5) && OffStream(body, i + 8)
    requires !Latest(native, natives) || i + 8 < ROUTINE || ROUTINE_END <= i + 5
    ensures AcceptsNear(RomAfter(original, ScannedLayout(original, body, enabled), ops, margin, native, natives), i, add + margin)
       <==> add + margin <= WIDEST
  {
    WindowWidens(original, body, enabled, Standard, i, add, limit, ops, margin, native, natives);
    AcceptsIn(RomAfter(original, ScannedLayout(original, body, enabled), ops, margin, native, natives),
              i, add, limit, Latest(native, natives), margin);
  }

  lemma AcceptsIn(r: seq<Byte>, i: nat, add: Word, limit: Word, native: bool, margin: nat)
    requires WindowHolds(r, Standard, i, add, limit, native, margin) && add <= 0x140 && limit == 0x100 + 2 * add
    requires !native || i + 8 < ROUTINE || ROUTINE_END <= i + 5
    ensures AcceptsNear(r, i, add + margin) <==> add + margin <= WIDEST
  {
    AcceptsAs(add, margin, WordAt(r, i + 5), WordAt(r, i + 8));
  }

  lemma AcceptsAs(add: Word, margin: nat, a: Word, l: Word)
    requires a == WinAdd(add, false, margin) && l == WinLimit(Wrap(0x100 + 2 * add), false, margin)
    ensures (forall objectX: Word, camera: Word ::
               Accepts(objectX, camera, a, l) <==> Near(Distance(objectX, camera), add + margin))
            <==> add + margin <= WIDEST
  {
    assert forall objectX: Word, camera: Word :: Accepts(objectX, camera, a, l) == WidenedAccepts(objectX, camera, add, margin);
    SymmetricWidening(add, margin);
  }

  /** The edges that the box code at i stores for a camera: `reach` beyond either side of the screen. */
  predicate BoxEdges(r: seq<Byte>, i: nat, camera: Word, reach: int) {
    && i + 12 < |r|
    && Wrap(camera - WordAt(r, i + 5)) == Wrap(camera - reach)
    && Wrap(Wrap(camera - WordAt(r, i + 5)) as int + WordAt(r, i + 11)) == Wrap(camera + 0x100 + reach)
  }

  /** The patched bounding box stores edges that have both moved out by the margin. */
  lemma PatchedBox(original: seq<Byte>, body: nat, enabled: bool, i: nat, add: Word, limit: Word, camera: Word,
                   ops: seq<Op>, margin: nat, native: bool, natives: seq<bool>)
    requires |Table(original)| == 24 && 3 <= i < ScanEnd(original)
    requires WindowCode(original, Box, i, add, limit)
    requires OffStream(body, i + 5) && OffStream(body, i + 11)
    requires !Latest(native, natives) || i + 11 < ROUTINE || ROUTINE_END <= i + 5
    ensures BoxEdges(RomAfter(original, ScannedLayout(original, body, enabled), ops, margin, native, natives),
                     i, camera, add + margin)
  {
    WindowWidens(original, body, enabled, Box, i, add, limit, ops, margin, native, natives);
    EdgesIn(RomAfter(original, ScannedLayout(original, body, enabled), ops, margin, native, natives),
            i, camera, add, limit, Latest(native, natives), margin);
  }

  lemma EdgesIn(r: seq<Byte>, i: nat, camera: Word, add: Word, limit: Word, native: bool, margin: nat)
    requires WindowHolds(r, Box, i, add, limit, native, margin) && add <= 0x140 && limit == 0x100 + 2 * add
    requires !native || i + 11 < ROUTINE || ROUTINE_END <= i + 5
    ensures BoxEdges(r, i, camera, add + margin)
  {
    EdgesAs(camera, add, limit, margin, WordAt(r, i + 5), WordAt(r, i + 11));
  }

  lemma EdgesAs(camera: Word, add: Word, limit: Word, margin: nat, a: Word, l: Word)
    requires add <= 0x140 && limit == 0x100 + 2 * add
    requires a == WinAdd(add, false, margin) && l == WinLimit(limit, false, margin)
    ensures Wrap(camera - a) == Wrap(camera - (add + margin))
    ensures Wrap(Wrap(camera - a) as int + l) == Wrap(camera + 0x100 + add + margin)
  {
    assert limit == Wrap(0x100 + 2 * add);
    BoxWidening(camera, add, margin);
  }

  /** The patched distance form, with whatever bias stands in its code: both ends of its window of
      signed distances have moved out by the margin, as long as they stay in signed range. */
  lemma PatchedCentered(original: seq<Byte>, body: nat, enabled: bool, i: nat, add: Word, limit: Word, carry: bool,
                        ops: seq<Op>, margin: nat, native: bool, natives: seq<bool>)
    requires |Table(original)| == 24 && 3 <= i < ScanEnd(original)
    requires WindowCode(original, Centered, i, add, limit) && CENTERED_LIMIT + 2 * margin < U16
    requires OffStream(body, i + 4) && OffStream(body, i + 14)
    requires !Latest(native, natives) || i + 14 < ROUTINE || ROUTINE_END <= i + 4
    ensures var r := RomAfter(original, ScannedLayout(original, body, enabled), ops, margin, native, natives);
            var bias := WordAt(r, i + 11);
            var reach := CenteredReach(carry, bias);
            (forall objectX: Word, camera: Word ::
               CenteredAccepts(objectX, camera, carry, bias, WordAt(r, i + 4), WordAt(r, i + 14))
               <==> Within(Distance(camera, objectX), -(reach + margin), CENTERED_LIMIT - reach + margin))
            <==> reach + margin <= 0x8000 && CENTERED_LIMIT - reach + margin <= 0x8000
  {
    WindowWidens(original, body, enabled, Centered, i, add, limit, ops, margin, native, natives);
    var r := RomAfter(original, ScannedLayout(original, body, enabled), ops, margin, native, natives);
    CenteredWidening(carry, WordAt(r, i + 11), margin);
  }
}
