/** The region pass of tools/diz_annotations.py: run-length compression of per-byte kinds that
    never crosses a 32 KiB bank, and the bank addresses of its regions. */
module Regions {
  import opened Bytes

  const BANK: nat := 0x8000

  // ----- addresses

  /** pc_for: the LoROM address of a file offset. */
  function PcFor(offset: nat): nat {
    offset / BANK * 0x1_0000 + BANK + offset % BANK
  }

  /** offset_for: the file offset behind an address, if it is a ROM address. */
  function OffsetFor(pc: nat, romSize: nat): Option<nat> {
    var bank, address := pc / 0x1_0000, pc % 0x1_0000;
    if bank == 0x7E || bank == 0x7F || address < 0x8000 then None
    else
      var offset := bank % 0x80 * BANK + address - 0x8000;
      if offset < romSize then Some(offset) else None
  }

  lemma PcParts(offset: nat)
    ensures PcFor(offset) / 0x1_0000 == offset / BANK
    ensures PcFor(offset) % 0x1_0000 == BANK + offset % BANK
  {
  }

  /** Addresses invert exactly below bank $7E: from there on an offset is a work-RAM bank or the
      mirror of a lower one. */
  lemma AddressesInvert(offset: nat, romSize: nat)
    requires offset < romSize
    ensures OffsetFor(PcFor(offset), romSize) == Some(offset) <==> offset < 0x7E * BANK
  {
    PcParts(offset);
    var bank := offset / BANK;
    assert offset == bank * BANK + offset % BANK;
    if bank >= 0x80 {
      assert bank % 0x80 != bank;
    }
  }

  // ----- regions

  /** The per-byte classes of the disassembly project; opcodes and operands are both code. */
  datatype Flag = Opcode | Operand | Data(name: string)

  function KindOf(f: Flag): string {
    match f
    case Opcode => "code"
    case Operand => "code"
    case Data(name) => name
  }

  /** A region starts at a file offset, which is printed as PcFor(start). */
  datatype Region = Region(start: nat, length: nat, kind: string)

  /** Regions that account for the bytes from `from` to `to`, one after the other. */
  predicate Contiguous(regions: seq<Region>, from: nat, to: nat) {
    if regions == [] then from == to
    else
      && regions[0].start == from && regions[0].length > 0
      && Contiguous(regions[1..], from + regions[0].length, to)
  }

  function Expand(regions: seq<Region>): seq<string> {
    if regions == [] then []
    else seq(regions[0].length, _ => regions[0].kind) + Expand(regions[1..])
  }

  predicate WithinBank(r: Region) {
    r.length > 0 && r.start / BANK == (r.start + r.length - 1) / BANK
  }

  /** No two neighbours in the same bank could have been one region. */
  predicate Maximal(regions: seq<Region>) {
    forall i :: 0 < i < |regions| ==>
      regions[i].start % BANK == 0 || regions[i].kind != regions[i - 1].kind
  }

  /** An exact compression of the kinds of the bytes from `from` to `to`. */
  predicate Covers(regions: seq<Region>, kinds: seq<string>, from: nat, to: nat)
    requires from <= to <= |kinds|
  {
    && Contiguous(regions, from, to)
    && Expand(regions) == kinds[from..to]
    && (forall i :: 0 <= i < |regions| ==> WithinBank(regions[i]))
    && Maximal(regions)
  }

  predicate Compresses(regions: seq<Region>, kinds: seq<string>) {
    Covers(regions, kinds, 0, |kinds|)
  }

  function Kinds(records: seq<Flag>): (kinds: seq<string>)
    ensures |kinds| == |records|
    ensures forall i :: 0 <= i < |kinds| ==> kinds[i] == KindOf(records[i])
  {
    seq(|records|, i requires 0 <= i < |records| => KindOf(records[i]))
  }

  lemma {:induction false} ContiguousSnoc(regions: seq<Region>, from: nat, to: nat, r: Region)
    requires Contiguous(regions, from, to) && r.start == to && r.length > 0
    ensures Contiguous(regions + [r], from, to + r.length)
    ensures Expand(regions + [r]) == Expand(regions) + seq(r.length, _ => r.kind)
  {
    if regions == [] {
      assert (regions + [r])[1..] == [];
      assert Expand([r]) == seq(r.length, _ => r.kind) + [];
    } else {
      assert (regions + [r])[1..] == regions[1..] + [r];
      ContiguousSnoc(regions[1..], from + regions[0].length, to, r);
    }
  }

  /** The bytes from `start` to `offset` can still be one region. */
  predicate Uniform(kinds: seq<string>, start: nat, offset: nat) {
    && start < offset <= |kinds|
    && (forall i :: start <= i < offset ==> kinds[i] == kinds[start])
    && start / BANK == (offset - 1) / BANK
  }

  /** A region may be appended when its start is a bank start or its kind a new one. */
  predicate Breaks(regions: seq<Region>, kinds: seq<string>, start: nat)
    requires start < |kinds|
  {
    regions == [] || start % BANK == 0 || kinds[start] != regions[|regions| - 1].kind
  }

  lemma CoverSnoc(regions: seq<Region>, kinds: seq<string>, start: nat, offset: nat)
    requires Uniform(kinds, start, offset) && Covers(regions, kinds, 0, start) && Breaks(regions, kinds, start)
    ensures Covers(regions + [Region(start, offset - start, kinds[start])], kinds, 0, offset)
  {
    var region := Region(start, offset - start, kinds[start]);
    ContiguousSnoc(regions, 0, start, region);
    assert kinds[0..offset] == kinds[0..start] + seq(offset - start, _ => kinds[start]);
  }

  /** The region loop of build_artifacts. */
  method BuildRegions(records: seq<Flag>) returns (regions: seq<Region>)
    ensures Compresses(regions, Kinds(records))
  {
    regions := [];
    ghost var kinds := Kinds(records);
    var start := 0;
    for offset := 1 to |records| + 1
      invariant start <= |records| && Covers(regions, kinds, 0, start)
      invariant start < |records| ==> Uniform(kinds, start, offset) && Breaks(regions, kinds, start)
      invariant start == |records| ==> offset == |records| + 1
    {
      var kind := KindOf(records[start]);
      if offset == |records| || KindOf(records[offset]) != kind || offset % BANK == 0 {
        CoverSnoc(regions, kinds, start, offset);
        regions := regions + [Region(start, offset - start, kind)];
        start := offset;
      }
    }
  }

  // ----- there is only one such compression

  lemma FirstRegion(regions: seq<Region>, kinds: seq<string>, from: nat)
    requires from < |kinds| && Covers(regions, kinds, from, |kinds|)
    ensures regions != [] && regions[0].start == from && from + regions[0].length <= |kinds|
    ensures forall i :: from <= i < from + regions[0].length ==> kinds[i] == regions[0].kind
    ensures Covers(regions[1..], kinds, from + regions[0].length, |kinds|)
  {
    var n := regions[0].length;
    var head, tail := seq(n, _ => regions[0].kind), Expand(regions[1..]);
    ContiguousBound(regions[1..], from + n, |kinds|);
    assert kinds[from..] == kinds[from..|kinds|] == head + tail;
    forall i | from <= i < from + n
      ensures kinds[i] == regions[0].kind
    {
      assert kinds[i] == kinds[from..][i - from] == head[i - from];
    }
    assert kinds[from + n..|kinds|] == kinds[from..][n..] == tail;
    forall i | 0 < i < |regions[1..]|
      ensures regions[1..][i].start % BANK == 0 || regions[1..][i].kind != regions[1..][i - 1].kind
    {
      assert regions[1..][i] == regions[i + 1] && regions[1..][i - 1] == regions[i];
    }
  }

  lemma {:induction false} ContiguousBound(regions: seq<Region>, from: nat, to: nat)
    requires Contiguous(regions, from, to)
    ensures from <= to
    ensures regions == [] <==> from == to
  {
    if regions != [] {
      ContiguousBound(regions[1..], from + regions[0].length, to);
    }
  }

  /** Where a first region ends, a bank starts or the kind changes. */
  lemma FirstRegionEnds(a: seq<Region>, kinds: seq<string>, from: nat)
    requires from < |kinds| && Covers(a, kinds, from, |kinds|) && from + a[0].length < |kinds|
    ensures var next := from + a[0].length; next % BANK == 0 || kinds[next] != a[0].kind
  {
    var next := from + a[0].length;
    FirstRegion(a, kinds, from);
    FirstRegion(a[1..], kinds, next);
    assert a[1] == a[1..][0];
  }

  /** Inside a first region no bank starts and the kind does not change. */
  lemma InsideFirstRegion(b: seq<Region>, kinds: seq<string>, from: nat, i: nat)
    requires from < |kinds| && Covers(b, kinds, from, |kinds|) && from < i < from + b[0].length
    ensures i < |kinds| && i % BANK != 0 && kinds[i] == b[0].kind
  {
    FirstRegion(b, kinds, from);
    assert WithinBank(b[0]);
  }

  /** A first region cannot be shorter than another one that starts at the same byte. */
  lemma FirstLengths(a: seq<Region>, b: seq<Region>, kinds: seq<string>, from: nat)
    requires from < |kinds| && Covers(a, kinds, from, |kinds|) && Covers(b, kinds, from, |kinds|)
    ensures a != [] && b != [] && b[0].length <= a[0].length && a[0].kind == b[0].kind
  {
    FirstRegion(a, kinds, from);
    FirstRegion(b, kinds, from);
    assert kinds[from] == a[0].kind == b[0].kind;
    var next := from + a[0].length;
    if next < from + b[0].length {
      InsideFirstRegion(b, kinds, from, next);
      FirstRegionEnds(a, kinds, from);
    }
  }

  lemma {:induction false} CoverUnique(a: seq<Region>, b: seq<Region>, kinds: seq<string>, from: nat)
    requires from <= |kinds| && Covers(a, kinds, from, |kinds|) && Covers(b, kinds, from, |kinds|)
    ensures a == b
    decreases |kinds| - from
  {
    ContiguousBound(a, from, |kinds|);
    ContiguousBound(b, from, |kinds|);
    if from < |kinds| {
      FirstLengths(a, b, kinds, from);
      FirstLengths(b, a, kinds, from);
      FirstRegion(a, kinds, from);
      FirstRegion(b, kinds, from);
      CoverUnique(a[1..], b[1..], kinds, from + a[0].length);
      assert a == [a[0]] + a[1..] && b == [b[0]] + b[1..];
    }
  }

  /** The compression is determined by the bytes: whatever covers them exactly, stays within banks
      and is maximal is what the region loop emits. */
  lemma CompressionUnique(a: seq<Region>, b: seq<Region>, kinds: seq<string>)
    requires Compresses(a, kinds) && Compresses(b, kinds)
    ensures a == b
  {
    CoverUnique(a, b, kinds, 0);
  }

  // ----- where regions start

  predicate StartsAt(regions: seq<Region>, o: nat) {
    exists i :: 0 <= i < |regions| && regions[i].start == o
  }

  lemma StartsInTail(regions: seq<Region>, o: nat)
    requires regions != [] && regions[0].start != o
    ensures StartsAt(regions, o) <==> StartsAt(regions[1..], o)
  {
    if StartsAt(regions, o) {
      var i :| 0 <= i < |regions| && regions[i].start == o;
      assert regions[1..][i - 1].start == o;
    }
    if StartsAt(regions[1..], o) {
      var i :| 0 <= i < |regions[1..]| && regions[1..][i].start == o;
      assert regions[i + 1].start == o;
    }
  }

  lemma {:induction false} NoneBefore(regions: seq<Region>, from: nat, to: nat, o: nat)
    requires Contiguous(regions, from, to) && o < from
    ensures !StartsAt(regions, o)
  {
    if regions != [] {
      NoneBefore(regions[1..], from + regions[0].length, to, o);
      StartsInTail(regions, o);
    }
  }

  lemma {:induction false} CoverStarts(regions: seq<Region>, kinds: seq<string>, from: nat, o: nat)
    requires from <= o < |kinds| && Covers(regions, kinds, from, |kinds|)
    ensures StartsAt(regions, o) <==> o == from || o % BANK == 0 || kinds[o] != kinds[o - 1]
    decreases |kinds| - from
  {
    FirstRegion(regions, kinds, from);
    var next := from + regions[0].length;
    if o == from {
      assert regions[0].start == o;
    } else {
      StartsInTail(regions, o);
      if o < next {
        InsideFirstRegion(regions, kinds, from, o);
        NoneBefore(regions[1..], next, |kinds|, o);
      } else {
        CoverStarts(regions[1..], kinds, next, o);
        if o == next {
          FirstRegionEnds(regions, kinds, from);
        }
      }
    }
  }

  /** A region starts at the first byte, at every bank, and where the kind changes, and nowhere else. */
  lemma RegionStarts(records: seq<Flag>, regions: seq<Region>, o: nat)
    requires Compresses(regions, Kinds(records)) && o < |records|
    ensures StartsAt(regions, o) <==> o % BANK == 0 || KindOf(records[o]) != KindOf(records[o - 1])
  {
    CoverStarts(regions, Kinds(records), 0, o);
  }

  /** Opcodes and their operands stay together: no region starts between two bytes of code inside a
      bank. */
  lemma CodeStaysTogether(records: seq<Flag>, regions: seq<Region>, o: nat)
    requires Compresses(regions, Kinds(records)) && 0 < o < |records| && o % 0x8000 != 0
    requires !records[o - 1].Data? && !records[o].Data?
    ensures !StartsAt(regions, o)
  {
    RegionStarts(records, regions, o);
  }

  /** And a region of named data is not joined to data of another name. */
  lemma DataStaysApart(records: seq<Flag>, regions: seq<Region>, o: nat)
    requires Compresses(regions, Kinds(records)) && 0 < o < |records|
    requires records[o - 1].Data? && records[o].Data? && records[o - 1].name != records[o].name
    ensures StartsAt(regions, o)
  {
    RegionStarts(records, regions, o);
  }
}
