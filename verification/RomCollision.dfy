/** ROM images that the scanner accepts, with its 24 operands, and in which one operand lies on the
    spawn stream's right edge. On them the patcher keeps neither of its promises in full. */
module RomCollision {
  import opened Bytes
  import opened Windows
  import opened RomScan
  import opened RomPatch
  import opened RomRestore

  /** The ROM offset of $00:DE3A. */
  const BODY: nat := 0x5E3A
  const WINDOWS: nat := 11
  const WINDOW_SIZE: nat := 12

  /** Eleven window pairs behind the stream body, then one trigger, then room for the scan's reach. */
  const FIRST_WINDOW: nat := BODY + BODY_SIZE
  const TRIGGER: nat := FIRST_WINDOW + WINDOWS * WINDOW_SIZE
  const ROM_END: nat := TRIGGER + 8 + 64

  const RIGHT_EDGE: nat := BODY + RIGHT_OPERAND

  /** LDA $05 / SBC $1E5D / CLC / ADC #$0020 / CMP #$0140 */
  const WINDOW_CODE: seq<Byte> := [0xA5, 0x05, 0xED, 0x5D, 0x1E, 0x18, 0x69, 0x20, 0x00, 0xC9, 0x40, 0x01]
  /** LDA $1E5D / ADC #$0020 / CMP $05 */
  const TRIGGER_CODE: seq<Byte> := [0xAD, 0x5D, 0x1E, 0x69, 0x20, 0x00, 0xC5, 0x05]

  /** The stream body with `add` for its right edge and a comparison with the object's X behind it,
      which makes that edge a camera trigger as well. */
  function BodyByte(add: Word, d: nat): Byte {
    if d < 0x11 then ENTRY[d]
    else if 0x16 <= d < 0x27 then LEFT_STATE[d - 0x16]
    else if 0x36 <= d < 0x3B then RIGHT[d - 0x36]
    else if d == 0x3B then add % 0x100
    else if d == 0x3C then add / 0x100
    else if 0x3D <= d < 0x3F then RIGHT[d - 0x36]
    else if d == 0x3F then 0xC5
    else if d == 0x40 then 0x05
    else if 0x78 <= d < 0x86 then GRID[d - 0x78]
    else if 0xA2 <= d < 0xA7 then WALKER_MASK[d - 0xA2]
    else 0
  }

  function ByteAt(add: Word, p: nat): Byte {
    if p < BODY then 0
    else if p < FIRST_WINDOW then BodyByte(add, p - BODY)
    else if p < TRIGGER then WINDOW_CODE[(p - FIRST_WINDOW) % WINDOW_SIZE]
    else if p < TRIGGER + 8 then TRIGGER_CODE[p - TRIGGER]
    else 0
  }

  function Rom(add: Word): (rom: seq<Byte>)
    ensures |rom| == ROM_END
    ensures forall p :: 0 <= p < ROM_END ==> rom[p] == ByteAt(add, p)
  {
    seq(ROM_END, p requires 0 <= p < ROM_END => ByteAt(add, p))
  }

  // ----- what the scan finds

  /** Where a pattern can start. */
  predicate Starts(add: Word, p: nat) {
    ByteAt(add, p) in {0xAD, 0xED} && ByteAt(add, p + 1) == 0x5D
  }

  function WindowAt(k: nat): nat {
    FIRST_WINDOW + WINDOW_SIZE * k + 2
  }

  lemma FoundNowhereElse(rom: seq<Byte>, p: nat)
    requires Scanned(rom, p) && !(rom[p] in {0xAD, 0xED} && rom[p + 1] == 0x5D)
    ensures Found(rom, p) == []
  {
  }

  lemma BodyStarts(add: Word, d: nat)
    requires add in {0xC0, 0x100} && d + 1 < BODY_SIZE
    ensures BodyByte(add, d) in {0xAD, 0xED} && BodyByte(add, d + 1) == 0x5D ==> d in {0x16, 0x20, 0x36, 0x78}
  {
  }

  /** The places at which the scan records something. */
  predicate Special(p: nat) {
    || p == BODY + 0x36
    || (FIRST_WINDOW <= p < TRIGGER && (p - FIRST_WINDOW) % WINDOW_SIZE == 2)
    || p == TRIGGER
  }

  /** The only places at which a pattern can start. */
  lemma StartsAt(add: Word, p: nat)
    requires add in {0xC0, 0x100} && Starts(add, p)
    ensures Special(p) || p in {BODY + 0x16, BODY + 0x20, BODY + 0x78}
  {
    if BODY <= p < FIRST_WINDOW - 1 {
      BodyStarts(add, p - BODY);
    }
  }

  /** Loads of the camera's X in the stream body that no trigger constant follows in time. */
  lemma BodyLoads(add: Word, i: nat)
    requires add in {0xC0, 0x100} && i in {BODY + 0x16, BODY + 0x20, BODY + 0x78}
    ensures Found(Rom(add), i) == []
  {
    var rom := Rom(add);
    TriggerMeans(rom, i);
    if Trigger(rom, i) != [] {
      var j: nat :| FirstTrigger(rom, i, j);
      NoAddBehind(add, i, j);
    }
    NoBox(add, i);
  }

  lemma NoBox(add: Word, i: nat)
    requires add in {0xC0, 0x100} && i in {BODY + 0x16, BODY + 0x20, BODY + 0x78}
    ensures Found(Rom(add), i) == Trigger(Rom(add), i)
  {
    assert Rom(add)[i + 8] != 0x08 && Rom(add)[i + 3] != 0x69 && Rom(add)[i] == 0xAD;
  }

  lemma NoAddBehind(add: Word, i: nat, j: nat)
    requires add in {0xC0, 0x100} && i in {BODY + 0x16, BODY + 0x20, BODY + 0x78} && i + 3 <= j < i + 48
    requires forall a :: i + 3 <= a <= j ==> !AnchorAt(Rom(add), a)
    ensures Rom(add)[j] != 0x69
  {
    var rom := Rom(add);
    if i == BODY + 0x16 && j >= BODY + 0x20 {
      assert AnchorAt(rom, BODY + 0x20);
    } else if i == BODY + 0x20 && j >= BODY + 0x36 {
      assert AnchorAt(rom, BODY + 0x36);
    } else {
      assert rom[j] == ByteAt(add, j);
    }
  }

  /** The right edge is taken as a trigger. */
  lemma RightEdgeFound(add: Word)
    requires add in {0xC0, 0x100}
    ensures Found(Rom(add), BODY + 0x36) == [Site(RIGHT_EDGE, add, 1)]
  {
    var rom, i := Rom(add), BODY + 0x36;
    assert rom[i] == 0xAD && rom[i + 1] == 0x5D && rom[i + 2] == 0x1E && rom[i + 3] == 0x18 && rom[i + 4] == 0x69;
    assert WordAt(rom, i + 5) == add;
    assert rom[i + 7] == 0x85 && rom[i + 8] == 0x00 && rom[i + 9] == 0xC5 && rom[i + 10] == 0x05;
    assert ComparedFrom(rom, i, i + 4, i + 9);
    assert ComparedFrom(rom, i, i + 4, i + 7);
    assert TriggerFrom(rom, i, i + 4) == [Site(RIGHT_EDGE, add, 1)];
  }

  lemma LastTriggerFound(add: Word)
    ensures Found(Rom(add), TRIGGER) == [Site(TRIGGER + 4, 0x20, 1)]
  {
    var rom, i := Rom(add), TRIGGER;
    assert rom[i] == 0xAD && rom[i + 1] == 0x5D && rom[i + 2] == 0x1E && rom[i + 3] == 0x69;
    assert WordAt(rom, i + 4) == 0x20 && rom[i + 6] == 0xC5 && rom[i + 7] == 0x05;
    assert ComparedFrom(rom, i, i + 3, i + 6);
  }

  lemma StandardFound(rom: seq<Byte>, i: nat)
    requires Scanned(rom, i) && rom[i - 2..i + 10] == WINDOW_CODE
    ensures Found(rom, i) == [Site(i + 5, 0x20, 1), Site(i + 8, 0x140, 2)]
  {
    var code := rom[i - 2..i + 10];
    assert rom[i - 2] == code[0] && rom[i - 1] == code[1] && rom[i] == code[2] && rom[i + 1] == code[3];
    assert rom[i + 2] == code[4] && rom[i + 3] == code[5] && rom[i + 4] == code[6] && rom[i + 5] == code[7];
    assert rom[i + 6] == code[8] && rom[i + 7] == code[9] && rom[i + 8] == code[10] && rom[i + 9] == code[11];
  }

  lemma WindowByte(k: nat, p: nat, d: nat)
    requires k < WINDOWS && d < WINDOW_SIZE && p == WindowAt(k) - 2 + d
    ensures (p - FIRST_WINDOW) % WINDOW_SIZE == d && FIRST_WINDOW <= p < TRIGGER
  {
    assert p - FIRST_WINDOW == WINDOW_SIZE * k + d;
  }

  lemma WindowFound(add: Word, k: nat, rom: seq<Byte>, i: nat)
    requires k < WINDOWS && rom == Rom(add) && i == WindowAt(k)
    ensures Scanned(rom, i) && Found(rom, i) == [Site(i + 5, 0x20, 1), Site(i + 8, 0x140, 2)]
  {
    forall d: nat | d < WINDOW_SIZE
      ensures rom[i - 2..i + 10][d] == WINDOW_CODE[d]
    {
      WindowByte(k, i - 2 + d, d);
    }
    assert rom[i - 2..i + 10] == WINDOW_CODE;
    StandardFound(rom, i);
  }

  // ----- the table

  /** What the scan finds at each position, for all positions together. */
  ghost predicate Finds(add: Word, found: nat -> seq<Site>) {
    && (forall p: nat {:trigger Special(p)} :: 3 <= p < TRIGGER + 8 && !Special(p) ==> found(p) == [])
    && (forall k: nat {:trigger WindowSites(k)} :: k < WINDOWS ==> found(WindowAt(k)) == WindowSites(k))
    && found(BODY + 0x36) == [Site(RIGHT_EDGE, add, 1)]
    && found(TRIGGER) == [Site(TRIGGER + 4, 0x20, 1)]
  }

  function WindowSites(k: nat): (sites: seq<Site>)
    ensures |sites| == 2
  {
    [Site(WindowAt(k) + 5, 0x20, 1), Site(WindowAt(k) + 8, 0x140, 2)]
  }

  /** The table after the positions below i. */
  function TableTo(found: nat -> seq<Site>, i: nat): seq<Site> {
    TableOf(Tabulate(3, i, found))
  }

  lemma TableNext(found: nat -> seq<Site>, i: nat)
    requires 3 <= i
    ensures TableTo(found, i + 1) == AddedAll(TableTo(found, i), found(i))
  {
    TableOfSnoc(Tabulate(3, i, found), found(i));
  }

  lemma {:induction false} TableSkips(found: nat -> seq<Site>, i: nat, j: nat)
    requires 3 <= i <= j && (forall p: nat :: i <= p < j ==> found(p) == [])
    ensures TableTo(found, j) == TableTo(found, i)
    decreases j
  {
    if i < j {
      TableSkips(found, i, j - 1);
      TableNext(found, j - 1);
    }
  }

  /** The right edge and the operands of the first k windows. */
  function Expecting(add: Word, k: nat): seq<Site> {
    if k == 0 then [Site(RIGHT_EDGE, add, 1)] else Expecting(add, k - 1) + WindowSites(k - 1)
  }

  lemma {:induction false} ExpectingIn(add: Word, k: nat)
    ensures var sites := Expecting(add, k);
            && |sites| == 1 + 2 * k
            && sites[0] == Site(RIGHT_EDGE, add, 1)
            && forall n :: 1 <= n < |sites| ==> FIRST_WINDOW <= sites[n].operand < WindowAt(k)
  {
    if k > 0 {
      ExpectingIn(add, k - 1);
    }
  }

  lemma AddsOne(table: seq<Site>, a: Site)
    requires |table| < SITE_MAX && !Has(table, a.operand)
    ensures AddedAll(table, [a]) == table + [a]
  {
    assert AddedAll(table, [a]) == AddedAll(table + [a], []);
  }

  lemma AddsTwo(table: seq<Site>, a: Site, b: Site)
    requires |table| + 2 <= SITE_MAX && !Has(table, a.operand) && !Has(table, b.operand) && a.operand != b.operand
    ensures AddedAll(table, [a, b]) == table + [a, b]
  {
    assert [a, b][1..] == [b];
    assert AddedAll(table, [a, b]) == AddedAll(table + [a], [b]);
    AddsOne(table + [a], b);
    assert table + [a] + [b] == table + [a, b];
  }

  /** The scan has come to window k, with all the ones before it in the table. */
  predicate ScannedTo(add: Word, found: nat -> seq<Site>, k: nat) {
    TableTo(found, WindowAt(k) - 2) == Expecting(add, k)
  }

  lemma FirstWindow(add: Word, found: nat -> seq<Site>)
    requires Finds(add, found)
    ensures ScannedTo(add, found, 0)
  {
    TableOfBody(add, found);
  }

  lemma {:induction false} TableOfWindows(add: Word, found: nat -> seq<Site>, k: nat)
    requires Finds(add, found) && k <= WINDOWS
    ensures ScannedTo(add, found, k)
  {
    if k == 0 {
      FirstWindow(add, found);
    } else {
      var m := k - 1;
      TableOfWindows(add, found, m);
      WindowTable(add, found, m);
    }
  }

  /** A stretch in which the scan records nothing. */
  lemma FindsSkip(add: Word, found: nat -> seq<Site>, i: nat, j: nat)
    requires Finds(add, found) && 3 <= i <= j <= TRIGGER + 8
    requires forall p: nat :: i <= p < j ==> !Special(p)
    ensures TableTo(found, j) == TableTo(found, i)
  {
    forall p: nat | i <= p < j
      ensures found(p) == []
    {
      assert !Special(p);
    }
    TableSkips(found, i, j);
  }

  lemma TableOfBody(add: Word, found: nat -> seq<Site>)
    requires Finds(add, found)
    ensures TableTo(found, FIRST_WINDOW) == [Site(RIGHT_EDGE, add, 1)]
  {
    FindsSkip(add, found, 3, BODY + 0x36);
    TableNext(found, BODY + 0x36);
    AddsOne([], Site(RIGHT_EDGE, add, 1));
    FindsSkip(add, found, BODY + 0x37, FIRST_WINDOW);
  }

  lemma NotSpecial(k: nat, p: nat)
    requires k < WINDOWS && WindowAt(k) - 2 <= p < WindowAt(k) + 10 && p != WindowAt(k)
    ensures !Special(p)
  {
    var d := p - (WindowAt(k) - 2);
    assert p - FIRST_WINDOW == WINDOW_SIZE * k + d;
    assert (WINDOW_SIZE * k + d) % WINDOW_SIZE == d;
  }

  lemma AroundWindow(add: Word, found: nat -> seq<Site>, k: nat, p: nat)
    requires Finds(add, found) && k < WINDOWS && WindowAt(k) - 2 <= p < WindowAt(k) + 10 && p != WindowAt(k)
    ensures found(p) == []
  {
    NotSpecial(k, p);
  }

  lemma WindowStep(found: nat -> seq<Site>, at: nat, table: seq<Site>, sites: seq<Site>)
    requires at >= 5 && TableTo(found, at - 2) == table && found(at) == sites
    requires forall p: nat :: at - 2 <= p < at + 10 && p != at ==> found(p) == []
    requires |sites| == 2 && |table| + 2 <= SITE_MAX && sites[0].operand != sites[1].operand
    requires !Has(table, sites[0].operand) && !Has(table, sites[1].operand)
    ensures TableTo(found, at + 10) == table + sites
  {
    TableSkips(found, at - 2, at);
    TableNext(found, at);
    AddsTwo(table, sites[0], sites[1]);
    assert sites == [sites[0], sites[1]];
    TableSkips(found, at + 1, at + 10);
  }

  lemma WindowTable(add: Word, found: nat -> seq<Site>, k: nat)
    requires Finds(add, found) && k < WINDOWS && ScannedTo(add, found, k)
    ensures ScannedTo(add, found, k + 1)
  {
    forall p: nat | WindowAt(k) - 2 <= p < WindowAt(k) + 10 && p != WindowAt(k)
      ensures found(p) == []
    {
      AroundWindow(add, found, k, p);
    }
    NotYet(add, k);
    WindowStep(found, WindowAt(k), Expecting(add, k), WindowSites(k));
  }

  lemma NotYet(add: Word, k: nat)
    ensures var table := Expecting(add, k);
            |table| == 1 + 2 * k && !Has(table, WindowSites(k)[0].operand) && !Has(table, WindowSites(k)[1].operand)
  {
    ExpectingIn(add, k);
  }

  lemma TableOfFinds(add: Word, found: nat -> seq<Site>, end: nat)
    requires Finds(add, found) && end == TRIGGER + 8
    ensures TableTo(found, end) == Expecting(add, WINDOWS) + [Site(TRIGGER + 4, 0x20, 1)]
  {
    TableOfWindows(add, found, WINDOWS);
    TriggerTable(add, found, TRIGGER);
  }

  lemma TriggerTable(add: Word, found: nat -> seq<Site>, at: nat)
    requires Finds(add, found) && ScannedTo(add, found, WINDOWS) && at == TRIGGER
    ensures TableTo(found, at + 8) == Expecting(add, WINDOWS) + [Site(TRIGGER + 4, 0x20, 1)]
  {
    ExpectingIn(add, WINDOWS);
    TableNext(found, at);
    AddsOne(Expecting(add, WINDOWS), Site(TRIGGER + 4, 0x20, 1));
    FindsSkip(add, found, at + 1, at + 8);
  }

  lemma NothingFound(add: Word, p: nat)
    requires add in {0xC0, 0x100} && 3 <= p < TRIGGER + 8 && !Special(p)
    ensures FoundAt(Rom(add))(p) == []
  {
    if Starts(add, p) {
      StartsAt(add, p);
      BodyLoads(add, p);
    } else {
      FoundNowhereElse(Rom(add), p);
    }
  }

  lemma RomFinds(add: Word)
    requires add in {0xC0, 0x100}
    ensures Finds(add, FoundAt(Rom(add)))
  {
    forall p: nat | 3 <= p < TRIGGER + 8 && !Special(p)
      ensures FoundAt(Rom(add))(p) == []
    {
      NothingFound(add, p);
    }
    forall k: nat | k < WINDOWS
      ensures FoundAt(Rom(add))(WindowAt(k)) == WindowSites(k)
    {
      WindowFound(add, k, Rom(add), WindowAt(k));
    }
    RightEdgeFound(add);
    LastTriggerFound(add);
  }

  lemma TableByFound(rom: seq<Byte>, found: nat -> seq<Site>, end: nat)
    requires found == FoundAt(rom) && end == ScanEnd(rom)
    ensures Table(rom) == TableTo(found, end)
  {
  }

  /** The scanner accepts the image, and the stream's right edge is the first of its 24 operands. */
  lemma ScannedTable(add: Word)
    requires add in {0xC0, 0x100}
    ensures Table(Rom(add)) == Expecting(add, WINDOWS) + [Site(TRIGGER + 4, 0x20, 1)]
  {
    var rom, found, end := Rom(add), FoundAt(Rom(add)), ScanEnd(Rom(add));
    RomFinds(add);
    TableOfFinds(add, found, end);
    TableByFound(rom, found, end);
  }

  // ----- what fails on them

  /** The layout of the scanned image: nothing but its first operand lies on the stream body. */
  lemma LayoutOfRom(add: Word, enabled: bool)
    requires add in {0xC0, 0x100}
    ensures var l := ScannedLayout(Rom(add), BODY, enabled);
            && Scans(l, Rom(add)) && l.valid && |l.sites| == SITES_EXPECTED
            && l.sites[0] == Site(RIGHT_EDGE, add, 1)
            && forall k :: 1 <= k < |l.sites| ==> FIRST_WINDOW <= l.sites[k].operand
  {
    ScannedTable(add);
    ExpectingIn(add, WINDOWS);
  }

  /** Every signature byte but the right edge's operand is there, and only that one is an operand. */
  lemma SignatureOfPatched(add: Word, enabled: bool, margin: nat, native: bool)
    requires add in {0xC0, 0x100} && Wrap(add + margin) == 0x100
    ensures AdoptsAt(ScannedLayout(Rom(add), BODY, enabled), Rom(add), margin, native)
  {
    var rom, l := Rom(add), ScannedLayout(Rom(add), BODY, enabled);
    LayoutOfRom(add, enabled);
    var patched := FrameWindows(l, rom, margin, native);
    WindowsWord(l, rom, margin, native, 0);
    SameWord(patched, RIGHT_EDGE, 0x100);
    forall p: nat | BODY <= p < FIRST_WINDOW
      ensures patched[p] == ByteAt(0x100, p)
    {
      if p != RIGHT_EDGE && p != RIGHT_EDGE + 1 {
        WindowsKeep(l, rom, margin, native, p);
      }
    }
    BodySignature(patched);
  }

  lemma BodySignature(rom: seq<Byte>)
    requires |rom| >= FIRST_WINDOW && forall p: nat :: BODY <= p < FIRST_WINDOW ==> rom[p] == ByteAt(0x100, p)
    ensures Signature(rom, BODY)
  {
    assert rom[BODY..BODY + |ENTRY|] == ENTRY;
    assert rom[BODY + 0x16..BODY + 0x16 + |LEFT_STATE|] == LEFT_STATE;
    assert rom[BODY + 0x36..BODY + 0x36 + |RIGHT|] == RIGHT;
    assert rom[BODY + 0x78..BODY + 0x78 + |GRID|] == GRID;
    assert rom[BODY + 0xA2..BODY + 0xA2 + |WALKER_MASK|] == WALKER_MASK;
  }

  /** A ROM that the stream patcher wrongly adopts at its first frame is never restored. */
  lemma MistakenIsNotRestored(l: Layout, original: seq<Byte>, f: Op, ops: seq<Op>, native: bool)
    requires Scans(l, original) && f.Frame? && AdoptsAt(l, original, f.margin, f.native)
    requires !StreamOriginal(original, l.body)
    ensures !Restored(l, original, [f] + ops, native)
  {
    assert ([f] + ops + [Frame(0, native)])[0] == f;
    ZeroFrameRestores(l, original, [f] + ops, native);
  }

  /** With $00C0 for the right edge the image is not the stream's, but a first frame at margin 64
      makes it look so. The stream patcher adopts it, and a frame at margin 0 then leaves $0100
      where the scanned ROM had $00C0, whatever happened in between. */
  lemma CollisionIsNotRestored(enabled: bool, ops: seq<Op>, native: bool)
    ensures var original := Rom(0xC0);
            var l := ScannedLayout(original, BODY, enabled);
            l.valid && !Restored(l, original, [Frame(64, native)] + ops, native)
  {
    var original, l := Rom(0xC0), ScannedLayout(Rom(0xC0), BODY, enabled);
    LayoutOfRom(0xC0, enabled);
    SignatureOfPatched(0xC0, enabled, 64, native);
    NotOriginal(original);
    MistakenIsNotRestored(l, original, Frame(64, native), ops, native);
  }

  lemma NotOriginal(original: seq<Byte>)
    requires original == Rom(0xC0)
    ensures !StreamOriginal(original, BODY)
  {
    var p := RIGHT_EDGE + 1;
    assert original[p] == ByteAt(0xC0, p) == 0;
    assert InStream(BODY, p) && StreamByte(p - BODY) == 0x01;
  }

  /** Frame after frame, the guest's operand k and the helper's value are the same. */
  predicate Agree(l: Layout, original: seq<Byte>, first: Op, last: Op, k: nat)
    requires Laid(l.sites, |original|) && k < |l.sites| && last.Frame?
  {
    var q := Step(l, Run(l, Private(original, Unscanned), [first]), last);
    WordAt(q.rom, l.sites[k].operand) == Expected(l.sites[k], last.native, last.margin)
  }

  /** On an adopted ROM whose right edge is an operand, with the stream not opted in, the tiers
      disagree at every margin but 0. */
  lemma AdoptedDisagrees(l: Layout, original: seq<Byte>, first: Op, last: Op, k: nat)
    requires Scans(l, original) && l.valid && !l.enabled && last.Frame?
    requires first.Frame? && AdoptsAt(l, original, first.margin, first.native)
    requires k < |l.sites| && l.sites[k] == Site(l.body + RIGHT_OPERAND, 0x100, 1) && !InRoutine(l.sites[k])
    ensures Agree(l, original, first, last, k) <==> last.margin % U16 == 0
  {
    FirstOfTwo(l, original, first, last);
    FrameParity(l, original, [first], last.margin, last.native, [], k);
    RightOperandAgrees(l, l.sites[k], last.native, last.margin);
    var q := Step(l, Run(l, Private(original, Unscanned), [first]), last);
    assert Entries(last.margin, []) == [] && Run(l, q, []) == q;
  }

  /** With $0100 it is the stream's own code, adopted by a first frame at margin 0. With the stream
      not opted in, as by default, every later frame leaves $0100 in the right edge, where the
      generated code's helper returns $0100 widened by the margin. */
  lemma CollisionBreaksParity(native: bool, margin: nat)
    ensures var original := Rom(0x100);
            var l := ScannedLayout(original, BODY, false);
            && l.valid && |l.sites| > 0 && l.sites[0] == Site(RIGHT_EDGE, 0x100, 1)
            && (Agree(l, original, Frame(0, native), Frame(margin, native), 0) <==> margin % U16 == 0)
  {
    LayoutOfRom(0x100, false);
    SignatureOfPatched(0x100, false, 0, native);
    AdoptedDisagrees(ScannedLayout(Rom(0x100), BODY, false), Rom(0x100), Frame(0, native), Frame(margin, native), 0);
  }

  /** That image is a genuine one: it carries the stream's signature as it was scanned. */
  lemma GenuineStream()
    ensures Signature(Rom(0x100), BODY)
  {
    BodySignature(Rom(0x100));
  }
}
