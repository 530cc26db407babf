/** The byte-pattern scanner of src/x3_rtl.c: it finds the immediate operands of horizontal object
    windows in an arbitrary ROM image and keeps them in a bounded, duplicate-free table. */
module RomScan {
  import opened Bytes
  import opened Windows

  const SITE_MAX: nat := 64
  const SITES_EXPECTED: nat := 24

  /** A recorded operand: its ROM offset, the word it held, and how many margins widen it. */
  datatype Site = Site(operand: nat, base: Word, scale: nat)

  function WordAt(rom: seq<Byte>, p: nat): Word
    requires p + 1 < |rom|
  {
    rom[p] as int + 0x100 * rom[p + 1] as int
  }

  /** LDA $1E5D, the camera's X. */
  predicate LoadsCameraX(rom: seq<Byte>, p: nat)
    requires p + 2 < |rom|
  {
    rom[p] == 0xAD && rom[p + 1] == 0x5D && rom[p + 2] == 0x1E
  }

  /** A read of either camera coordinate. */
  predicate AnchorAt(rom: seq<Byte>, p: nat)
    requires p + 2 < |rom|
  {
    LoadsCameraX(rom, p) || (rom[p] == 0xAD && rom[p + 1] == 0x60 && rom[p + 2] == 0x1E)
  }

  predicate TriggerAdd(value: Word) {
    value in {0x20, 0x40, 0x60, 0x80, 0xA0, 0xC0, 0x100, 0x110, 0x120, 0x140}
  }

  predicate SymmetricPair(add: Word, limit: Word) {
    add <= 0x140 && limit == Wrap(0x100 + 2 * add)
  }

  /** The positions the scan visits leave room for every pattern. */
  predicate Scanned(rom: seq<Byte>, i: nat) {
    3 <= i && i + 64 < |rom|
  }

  /** SBC $1E5D / CLC / ADC #add / CMP #limit, after a load of the object's X. */
  predicate StandardAt(rom: seq<Byte>, i: nat)
    requires Scanned(rom, i)
  {
    && rom[i] == 0xED && rom[i + 1] == 0x5D && rom[i + 2] == 0x1E
    && rom[i + 3] == 0x18 && rom[i + 4] == 0x69 && rom[i + 7] == 0xC9
    && ((rom[i - 2] == 0xA5 && rom[i - 1] == 0x05)
        || (rom[i - 3] == 0xA5 && rom[i - 2] == 0x05 && rom[i - 1] == 0x38))
    && SymmetricPair(WordAt(rom, i + 5), WordAt(rom, i + 8))
  }

  /** The bounding-box form: SBC #add, then ADC #limit. */
  predicate BoxAt(rom: seq<Byte>, i: nat)
    requires Scanned(rom, i)
  {
    && LoadsCameraX(rom, i)
    && rom[i + 3] == 0x38 && rom[i + 4] == 0xE9 && rom[i + 7] == 0x85 && rom[i + 8] == 0x08
    && rom[i + 9] == 0x18 && rom[i + 10] == 0x69 && rom[i + 13] == 0x85 && rom[i + 14] == 0x06
    && SymmetricPair(WordAt(rom, i + 5), WordAt(rom, i + 11))
  }

  /** The distance form, with its one known pair of constants. */
  predicate CenteredAt(rom: seq<Byte>, i: nat)
    requires Scanned(rom, i)
  {
    && LoadsCameraX(rom, i)
    && rom[i + 3] == 0x69 && rom[i + 6] == 0x38 && rom[i + 7] == 0xE5 && rom[i + 8] == 0x05
    && rom[i + 9] == 0x18 && rom[i + 10] == 0x69 && rom[i + 13] == 0xC9
    && WordAt(rom, i + 4) == 0x80 && WordAt(rom, i + 14) == 0x1C0
  }

  /** CMP dp+$05 */
  predicate ComparesObjectX(rom: seq<Byte>, k: nat)
    requires k + 1 < |rom|
  {
    rom[k] == 0xC5 && rom[k + 1] == 0x05
  }

  /** Where the search for the comparison after an ADC at `j` ends. */
  function CompareEnd(i: nat, j: nat): nat {
    if j + 33 < i + 56 then j + 33 else i + 56
  }

  /** An ADC of a trigger constant within 48 bytes of the camera read, compared with the object's X
      soon after, with no camera read anywhere between. */
  ghost predicate TriggersAt(rom: seq<Byte>, i: nat, j: nat)
    requires Scanned(rom, i)
  {
    && LoadsCameraX(rom, i)
    && i + 3 <= j < i + 48
    && (forall a :: i + 3 <= a <= j ==> !AnchorAt(rom, a))
    && rom[j] == 0x69 && TriggerAdd(WordAt(rom, j + 1))
    && exists k: nat :: ComparedAt(rom, i, j, k)
  }

  predicate ComparedAt(rom: seq<Byte>, i: nat, j: nat, k: nat)
    requires Scanned(rom, i) && j < i + 48
  {
    && j + 3 <= k < CompareEnd(i, j)
    && ComparesObjectX(rom, k)
    && forall a :: j + 3 <= a <= k ==> !AnchorAt(rom, a)
  }

  /** The trigger that the scan takes at a camera read: the first one. */
  ghost predicate FirstTrigger(rom: seq<Byte>, i: nat, j: nat)
    requires Scanned(rom, i)
  {
    TriggersAt(rom, i, j) && forall j': nat :: j' < j ==> !TriggersAt(rom, i, j')
  }

  /** The inner loop: is the ADC at `j` compared with the object's X from `k` on? */
  predicate ComparedFrom(rom: seq<Byte>, i: nat, j: nat, k: nat)
    requires Scanned(rom, i) && j < i + 48
    decreases i + 56 - k
  {
    && k < CompareEnd(i, j)
    && !AnchorAt(rom, k)
    && (ComparesObjectX(rom, k) || ComparedFrom(rom, i, j, k + 1))
  }

  /** The outer loop, from `j` on: the first trigger, if there is one. */
  function TriggerFrom(rom: seq<Byte>, i: nat, j: nat): seq<Site>
    requires Scanned(rom, i)
    decreases i + 48 - j
  {
    if j >= i + 48 || AnchorAt(rom, j) then []
    else if rom[j] == 0x69 && TriggerAdd(WordAt(rom, j + 1)) && ComparedFrom(rom, i, j, j + 3) then
      [Site(j + 1, WordAt(rom, j + 1), 1)]
    else TriggerFrom(rom, i, j + 1)
  }

  function Trigger(rom: seq<Byte>, i: nat): seq<Site>
    requires Scanned(rom, i)
  {
    if LoadsCameraX(rom, i) then TriggerFrom(rom, i, i + 3) else []
  }

  lemma {:induction false} ComparedFromMeans(rom: seq<Byte>, i: nat, j: nat, k: nat)
    requires Scanned(rom, i) && i + 3 <= j < i + 48 && j + 3 <= k
    requires forall a :: j + 3 <= a < k && a < CompareEnd(i, j) ==> !AnchorAt(rom, a)
    requires forall k': nat :: k' < k ==> !ComparedAt(rom, i, j, k')
    ensures ComparedFrom(rom, i, j, k) <==> exists k': nat :: ComparedAt(rom, i, j, k')
    decreases i + 56 - k
  {
    if k < CompareEnd(i, j) {
      assert ComparesObjectX(rom, k) && !AnchorAt(rom, k) ==> ComparedAt(rom, i, j, k);
      if !AnchorAt(rom, k) && !ComparesObjectX(rom, k) {
        ComparedFromMeans(rom, i, j, k + 1);
      }
    }
  }

  lemma {:induction false} TriggerFromMeans(rom: seq<Byte>, i: nat, j: nat)
    requires Scanned(rom, i) && LoadsCameraX(rom, i) && i + 3 <= j
    requires forall a :: i + 3 <= a < j && a < i + 48 ==> !AnchorAt(rom, a)
    requires forall j': nat :: j' < j ==> !TriggersAt(rom, i, j')
    ensures TriggerFrom(rom, i, j) != [] ==>
              exists j': nat :: FirstTrigger(rom, i, j') && TriggerFrom(rom, i, j) == [Site(j' + 1, WordAt(rom, j' + 1), 1)]
    ensures TriggerFrom(rom, i, j) == [] ==> forall j': nat :: !TriggersAt(rom, i, j')
    decreases i + 48 - j
  {
    if j < i + 48 && !AnchorAt(rom, j) {
      ComparedFromMeans(rom, i, j, j + 3);
      if rom[j] == 0x69 && TriggerAdd(WordAt(rom, j + 1)) && ComparedFrom(rom, i, j, j + 3) {
        assert FirstTrigger(rom, i, j);
      } else {
        TriggerFromMeans(rom, i, j + 1);
      }
    }
  }

  /** The search records the first ADC that qualifies as a trigger, and nothing when none does. */
  lemma TriggerMeans(rom: seq<Byte>, i: nat)
    requires Scanned(rom, i)
    ensures Trigger(rom, i) != [] ==>
              exists j: nat :: FirstTrigger(rom, i, j) && Trigger(rom, i) == [Site(j + 1, WordAt(rom, j + 1), 1)]
    ensures Trigger(rom, i) == [] ==> forall j: nat :: !TriggersAt(rom, i, j)
  {
    if LoadsCameraX(rom, i) {
      TriggerFromMeans(rom, i, i + 3);
    }
  }

  function Pair(rom: seq<Byte>, add: nat, limit: nat): seq<Site>
    requires add + 1 < |rom| && limit + 1 < |rom|
  {
    [Site(add, WordAt(rom, add), 1), Site(limit, WordAt(rom, limit), 2)]
  }

  /** The operand pairs of the windows at one position. */
  function FoundPairs(rom: seq<Byte>, i: nat): seq<Site>
    requires Scanned(rom, i)
  {
    (if StandardAt(rom, i) then Pair(rom, i + 5, i + 8) else [])
    + (if BoxAt(rom, i) then Pair(rom, i + 5, i + 11) else [])
    + (if CenteredAt(rom, i) then Pair(rom, i + 4, i + 14) else [])
  }

  /** Everything the scan records at one position, in order. */
  function Found(rom: seq<Byte>, i: nat): seq<Site>
    requires Scanned(rom, i)
  {
    FoundPairs(rom, i) + Trigger(rom, i)
  }

  // ----- the table

  predicate Has(table: seq<Site>, operand: nat) {
    exists k :: 0 <= k < |table| && table[k].operand == operand
  }

  /** x3_ws_add_rom_imm: no duplicates, and nothing once the table is full. */
  function Added(table: seq<Site>, site: Site): seq<Site> {
    if Has(table, site.operand) || |table| >= SITE_MAX then table else table + [site]
  }

  function AddedAll(table: seq<Site>, sites: seq<Site>): seq<Site>
    decreases |sites|
  {
    if sites == [] then table else AddedAll(Added(table, sites[0]), sites[1..])
  }

  /** The table after recording, position by position, what was found there. */
  function TableOf(founds: seq<seq<Site>>): seq<Site> {
    if founds == [] then [] else AddedAll(TableOf(founds[..|founds| - 1]), founds[|founds| - 1])
  }

  lemma TableOfSnoc(founds: seq<seq<Site>>, found: seq<Site>)
    ensures TableOf(founds + [found]) == AddedAll(TableOf(founds), found)
  {
    assert (founds + [found])[..|founds|] == founds;
  }

  /** The values of f from `lo` up to `hi`. */
  function Tabulate<T>(lo: nat, hi: nat, f: nat -> T): (s: seq<T>)
    ensures |s| == if hi <= lo then 0 else hi - lo
  {
    if hi <= lo then [] else Tabulate(lo, hi - 1, f) + [f(hi - 1)]
  }

  lemma {:induction false} TabulateAt<T>(lo: nat, hi: nat, f: nat -> T, p: nat)
    requires lo <= p < hi
    ensures Tabulate(lo, hi, f)[p - lo] == f(p)
  {
    if p < hi - 1 {
      TabulateAt(lo, hi - 1, f, p);
    }
  }

  function FoundAt(rom: seq<Byte>): nat -> seq<Site> {
    (p: nat) => if Scanned(rom, p) then Found(rom, p) else []
  }

  /** What the scan finds at the positions from 3 up to `i`. */
  function Founds(rom: seq<Byte>, i: nat): (founds: seq<seq<Site>>) {
    Tabulate(3, i, FoundAt(rom))
  }

  /** The first position that the scan no longer visits. */
  function ScanEnd(rom: seq<Byte>): (n: nat)
    ensures n <= 3 || n + 63 < |rom|
  {
    if |rom| < 67 then 3 else |rom| - 64
  }

  function Table(rom: seq<Byte>): seq<Site> {
    TableOf(Founds(rom, ScanEnd(rom)))
  }

  // ----- what is recorded

  /** The opcode before an operand and the bytes of its word, for each way of being recorded. */
  predicate Plausible(rom: seq<Byte>, s: Site) {
    && 1 <= s.operand && s.operand + 2 < |rom|
    && s.base == WordAt(rom, s.operand)
    && (s.scale == 1 || s.scale == 2)
    && rom[s.operand - 1] in {0x69, 0xC9, 0xE9}
    && s.base < 0x400
    && (s.base % 0x100 in {0x69, 0xC9, 0xE9} ==> rom[s.operand + 2] in {0xC9, 0x85})
  }

  lemma PairPlausible(rom: seq<Byte>, i: nat)
    requires Scanned(rom, i)
    ensures StandardAt(rom, i) ==> forall s :: s in Pair(rom, i + 5, i + 8) ==> Plausible(rom, s)
    ensures BoxAt(rom, i) ==> forall s :: s in Pair(rom, i + 5, i + 11) ==> Plausible(rom, s)
    ensures CenteredAt(rom, i) ==> forall s :: s in Pair(rom, i + 4, i + 14) ==> Plausible(rom, s)
  {
  }

  lemma TriggerPlausible(rom: seq<Byte>, i: nat)
    requires Scanned(rom, i)
    ensures forall s :: s in Trigger(rom, i) ==> Plausible(rom, s)
  {
    TriggerMeans(rom, i);
  }

  /** Two recorded operands can share no byte: an operand byte that is also an opcode byte of a
      pattern forces a first operand whose next byte is an opcode again, and that byte would have
      to be the small high byte of the second operand's word. */
  lemma NoOverlap(rom: seq<Byte>, a: Site, b: Site)
    requires Plausible(rom, a) && Plausible(rom, b)
    ensures b.operand != a.operand + 1
  {
  }

  // ----- the table's guarantees

  /** What the table promises the patcher. */
  predicate TableOk(rom: seq<Byte>, table: seq<Site>) {
    && |table| <= SITE_MAX
    && (forall k :: 0 <= k < |table| ==> Plausible(rom, table[k]))
    && (forall k, l :: 0 <= k < l < |table| ==> table[k].operand != table[l].operand)
  }

  lemma AddedOk(rom: seq<Byte>, table: seq<Site>, site: Site)
    requires TableOk(rom, table) && Plausible(rom, site)
    ensures TableOk(rom, Added(table, site))
    ensures |Added(table, site)| < SITE_MAX ==> Has(Added(table, site), site.operand)
    ensures table <= Added(table, site)
  {
    var after := Added(table, site);
    if after != table {
      assert after[|table|].operand == site.operand;
    }
  }

  lemma {:induction false} AddedAllOk(rom: seq<Byte>, table: seq<Site>, sites: seq<Site>)
    requires TableOk(rom, table) && forall s :: s in sites ==> Plausible(rom, s)
    ensures TableOk(rom, AddedAll(table, sites))
    ensures table <= AddedAll(table, sites)
    ensures |AddedAll(table, sites)| < SITE_MAX ==> forall s :: s in sites ==> Has(AddedAll(table, sites), s.operand)
    decreases |sites|
  {
    if sites != [] {
      var next := Added(table, sites[0]);
      AddedOk(rom, table, sites[0]);
      AddedAllOk(rom, next, sites[1..]);
      var all := AddedAll(next, sites[1..]);
      if |all| < SITE_MAX {
        var k :| 0 <= k < |next| && next[k].operand == sites[0].operand;
        assert all[k].operand == sites[0].operand;
        forall s | s in sites
          ensures Has(all, s.operand)
        {
          assert s == sites[0] || s in sites[1..];
        }
      }
    }
  }

  lemma FoundPlausible(rom: seq<Byte>, i: nat)
    requires Scanned(rom, i)
    ensures forall s :: s in Found(rom, i) ==> Plausible(rom, s)
  {
    PairPlausible(rom, i);
    TriggerPlausible(rom, i);
  }

  predicate HasAll(table: seq<Site>, sites: seq<Site>) {
    forall s :: s in sites ==> Has(table, s.operand)
  }

  lemma HasAllLonger(table: seq<Site>, longer: seq<Site>, sites: seq<Site>)
    requires HasAll(table, sites) && table <= longer
    ensures HasAll(longer, sites)
  {
    forall s | s in sites
      ensures Has(longer, s.operand)
    {
      var k :| 0 <= k < |table| && table[k].operand == s.operand;
      assert longer[k].operand == s.operand;
    }
  }

  predicate AllPlausible(rom: seq<Byte>, sites: seq<Site>) {
    forall s :: s in sites ==> Plausible(rom, s)
  }

  predicate AllRecorded(table: seq<Site>, founds: seq<seq<Site>>) {
    forall p :: 0 <= p < |founds| ==> HasAll(table, founds[p])
  }

  lemma RecordedSnoc(table: seq<Site>, longer: seq<Site>, founds: seq<seq<Site>>, found: seq<Site>)
    requires AllRecorded(table, founds) && table <= longer && HasAll(longer, found)
    ensures AllRecorded(longer, founds + [found])
  {
    forall p | 0 <= p < |founds|
      ensures HasAll(longer, founds[p])
    {
      HasAllLonger(table, longer, founds[p]);
    }
  }

  lemma {:induction false} TableOfOk(rom: seq<Byte>, founds: seq<seq<Site>>)
    requires forall p :: 0 <= p < |founds| ==> AllPlausible(rom, founds[p])
    ensures TableOk(rom, TableOf(founds))
    ensures |TableOf(founds)| < SITE_MAX ==> AllRecorded(TableOf(founds), founds)
  {
    if founds != [] {
      var n := |founds| - 1;
      var front, last := founds[..n], founds[n];
      var before := TableOf(front);
      TableOfOk(rom, front);
      AddedAllOk(rom, before, last);
      assert founds == front + [last];
      if |AddedAll(before, last)| < SITE_MAX {
        RecordedSnoc(before, AddedAll(before, last), front, last);
      }
    }
  }

  lemma FoundAtPlausible(rom: seq<Byte>, p: nat)
    ensures AllPlausible(rom, FoundAt(rom)(p))
  {
    if Scanned(rom, p) {
      FoundPlausible(rom, p);
    }
  }

  lemma FoundsPlausible(rom: seq<Byte>, i: nat)
    ensures forall k :: 0 <= k < |Founds(rom, i)| ==> AllPlausible(rom, Founds(rom, i)[k])
  {
    forall k | 0 <= k < |Founds(rom, i)|
      ensures AllPlausible(rom, Founds(rom, i)[k])
    {
      var p := k + 3;
      TabulateAt(3, i, FoundAt(rom), p);
      FoundAtPlausible(rom, p);
    }
  }

  lemma OperandsApart(rom: seq<Byte>, table: seq<Site>)
    requires TableOk(rom, table)
    ensures forall k, l :: 0 <= k < |table| && 0 <= l < |table| && k != l ==>
              table[k].operand + 1 < table[l].operand || table[l].operand + 1 < table[k].operand
  {
    forall k, l | 0 <= k < |table| && 0 <= l < |table| && k != l
      ensures table[k].operand + 1 < table[l].operand || table[l].operand + 1 < table[k].operand
    {
      NoOverlap(rom, table[k], table[l]);
      NoOverlap(rom, table[l], table[k]);
    }
  }

  /** For every ROM image: at most 64 operands are kept, each once; no two share a byte; each base is
      the ROM word at its operand. Unless the table filled up, no pattern anywhere was missed. */
  lemma ScanGuarantees(rom: seq<Byte>)
    ensures var table := Table(rom);
            && TableOk(rom, table)
            && (forall k, l :: 0 <= k < |table| && 0 <= l < |table| && k != l ==>
                  table[k].operand + 1 < table[l].operand || table[l].operand + 1 < table[k].operand)
            && (|table| < SITE_MAX ==>
                  forall p: nat :: 3 <= p < ScanEnd(rom) ==> HasAll(table, Found(rom, p)))
  {
    var founds := Founds(rom, ScanEnd(rom));
    FoundsPlausible(rom, ScanEnd(rom));
    TableOfOk(rom, founds);
    OperandsApart(rom, Table(rom));
    if |Table(rom)| < SITE_MAX {
      forall p: nat | 3 <= p < ScanEnd(rom)
        ensures HasAll(Table(rom), Found(rom, p))
      {
        TabulateAt(3, ScanEnd(rom), FoundAt(rom), p);
        assert HasAll(Table(rom), founds[p - 3]);
      }
    }
  }

  // ----- the loops

  /** The two nested loops that look for a trigger after a camera read at `i`. */
  method FindTrigger(rom: seq<Byte>, i: nat) returns (sites: seq<Site>)
    requires Scanned(rom, i) && LoadsCameraX(rom, i)
    ensures sites == Trigger(rom, i)
  {
    var j := i + 3;
    while j < i + 48 && !AnchorAt(rom, j)
      invariant i + 3 <= j <= i + 48
      invariant Trigger(rom, i) == TriggerFrom(rom, i, j)
    {
      if rom[j] == 0x69 && TriggerAdd(WordAt(rom, j + 1)) {
        var k := j + 3;
        while k < CompareEnd(i, j) && !AnchorAt(rom, k)
          invariant j + 3 <= k
          invariant ComparedFrom(rom, i, j, j + 3) == ComparedFrom(rom, i, j, k)
        {
          if ComparesObjectX(rom, k) {
            return [Site(j + 1, WordAt(rom, j + 1), 1)];
          }
          k := k + 1;
        }
      }
      j := j + 1;
    }
    sites := [];
  }

  method AddSite(table: seq<Site>, site: Site) returns (after: seq<Site>)
    ensures after == Added(table, site)
  {
    var k := 0;
    while k < |table|
      invariant 0 <= k <= |table|
      invariant forall l :: 0 <= l < k ==> table[l].operand != site.operand
    {
      if table[k].operand == site.operand {
        return table;
      }
      k := k + 1;
    }
    if |table| >= SITE_MAX {
      return table;
    }
    after := table + [site];
  }

  method AddSites(table: seq<Site>, sites: seq<Site>) returns (after: seq<Site>)
    ensures after == AddedAll(table, sites)
  {
    after := table;
    var n := 0;
    while n < |sites|
      invariant 0 <= n <= |sites|
      invariant AddedAll(table, sites) == AddedAll(after, sites[n..])
    {
      after := AddSite(after, sites[n]);
      assert sites[n..][1..] == sites[n + 1..];
      n := n + 1;
    }
  }

  /** The body of the scan loop: the four pattern tests at one position. */
  method FindAt(rom: seq<Byte>, i: nat) returns (found: seq<Site>)
    requires Scanned(rom, i)
    ensures found == Found(rom, i)
  {
    var standard := if StandardAt(rom, i) then Pair(rom, i + 5, i + 8) else [];
    var box := if BoxAt(rom, i) then Pair(rom, i + 5, i + 11) else [];
    var centered := if CenteredAt(rom, i) then Pair(rom, i + 4, i + 14) else [];
    var triggers := [];
    if LoadsCameraX(rom, i) {
      triggers := FindTrigger(rom, i);
    }
    found := standard + box + centered + triggers;
  }

  /** One round of the scan loop. */
  method Visit(rom: seq<Byte>, i: nat, table: seq<Site>) returns (after: seq<Site>)
    requires Scanned(rom, i) && table == TableOf(Founds(rom, i))
    ensures after == TableOf(Founds(rom, i + 1))
  {
    var found := FindAt(rom, i);
    TableOfSnoc(Founds(rom, i), found);
    after := AddSites(table, found);
    assert FoundAt(rom)(i) == found;
  }

  /** x3_scan_ws_rom_imms. Every ROM access is in bounds. */
  method Scan(rom: seq<Byte>) returns (table: seq<Site>, valid: bool)
    ensures table == Table(rom)
    ensures valid <==> |table| == SITES_EXPECTED
  {
    table := [];
    var i := 3;
    while i + 64 < |rom|
      invariant 3 <= i <= ScanEnd(rom)
      invariant table == TableOf(Founds(rom, i))
    {
      table := Visit(rom, i, table);
      i := i + 1;
    }
    assert i == ScanEnd(rom);
    valid := |table| == SITES_EXPECTED;
  }
}
