/** The record stream of $00:DE3A: the columns that its sweep visits with the widened pad and count,
    and the agreement between the rewritten guest code and the helpers of the generated code. */
module SpawnStream {
  import opened Bytes
  import opened Windows
  import opened RomScan
  import opened RomPatch
  import opened RomRestore

  const COLUMN: nat := 32

  /** AND #$FFE0 */
  function Aligned(x: Word): (a: Word)
    ensures a % COLUMN == 0 && a <= x < a + COLUMN
  {
    x - x % COLUMN
  }

  /** The first column of the grid sweep: SEC / SBC #pad, aligned by the walker. */
  function SweepStart(camera: Word, pad: Word): Word {
    Aligned(Wrap(camera - pad))
  }

  /** World coordinate x lies in one of the swept columns, in 16-bit arithmetic. */
  predicate Swept(start: Word, columns: Word, x: Word) {
    Wrap(x - start) < COLUMN * columns
  }

  lemma RoundUp(margin: nat)
    ensures var up := (margin + 31) / 32 * 32; up % COLUMN == 0 && margin <= up < margin + COLUMN
  {
  }

  lemma WrapColumns(up: nat)
    requires up % COLUMN == 0
    ensures Wrap(up) % COLUMN == 0
  {
    assert up == up / U16 * U16 + Wrap(up);
  }

  /** The extra is a whole number of columns and reaches at least as far as the margin. */
  lemma ExtraIsColumns(enabled: bool, margin: nat)
    ensures StreamExtra(enabled, margin) % COLUMN == 0
    ensures enabled && margin <= U16 - COLUMN ==> margin <= StreamExtra(enabled, margin) < margin + COLUMN
  {
    RoundUp(margin);
    WrapColumns((margin + 31) / 32 * 32);
  }

  /** Coverage. With the widened pad and column count, whatever the camera, the sweep visits every
      coordinate from the widened left edge to the widened right edge, both included; with no extra
      it visits the native view. */
  lemma SweepCovers(camera: Word, extra: Word, d: int)
    requires extra % COLUMN == 0 && -(extra as int) <= d <= 0x100 + extra
    ensures Swept(SweepStart(camera, GridPad(0x20, extra)), Columns(0x0A, extra, extra), Wrap(camera + d))
  {
    var pad := GridPad(0x20, extra);
    var shift := Wrap(camera - pad);
    var start := Aligned(shift);
    var columns := Columns(0x0A, extra, extra);
    assert COLUMN * columns == pad + extra + 0x120 by {
      if extra != 0 {
        assert extra == COLUMN * (extra / COLUMN);
        assert columns == 9 + extra / 32 + extra / 32;
      }
    }
    var offset := shift - start + pad + d;
    assert 0 <= offset < pad + extra + 0x120;
    SweptOffset(camera, pad, shift, start, d, offset);
  }

  lemma SweptOffset(camera: Word, pad: Word, shift: Word, start: Word, d: int, offset: int)
    requires shift == Wrap(camera - pad) && offset == shift - start + pad + d && offset >= 0
    ensures Wrap(Wrap(camera + d) - start) <= offset
  {
    var wraps := (camera - pad - shift) / U16;
    assert camera - pad - shift == wraps * U16;
    assert camera + d - start == offset + wraps * U16;
    assert Wrap(Wrap(camera + d) - start) == Wrap(offset);
  }

  /** The count is not generous: with one column fewer, an aligned camera misses the right edge,
      as long as the widened view fits the 16-bit world. */
  lemma NoColumnToSpare(camera: Word, extra: Word)
    requires extra % COLUMN == 0 && extra != 0 && camera % COLUMN == 0 && 2 * extra + 0x100 < U16
    ensures !Swept(SweepStart(camera, extra), Columns(0x0A, extra, extra) - 1, Wrap(camera + 0x100 + extra))
  {
    assert SweepStart(camera, extra) == Wrap(camera - extra) by {
      AlignedMinusColumns(camera, extra);
    }
    WrapDifference(camera + 0x100 + extra, camera - extra);
    assert COLUMN * (Columns(0x0A, extra, extra) - 1) == 2 * extra + 0x100 by {
      assert extra == COLUMN * (extra / COLUMN);
    }
  }

  lemma WrapDifference(a: int, b: int)
    ensures Wrap(Wrap(a) - Wrap(b)) == Wrap(a - b)
  {
    assert a == a / U16 * U16 + Wrap(a) && b == b / U16 * U16 + Wrap(b);
  }

  /** The rewritten left arm: the already aligned camera minus the extra, by SBC #extra-1 with the
      carry as it happens to be. */
  function RewrittenLeft(camera: Word, extra: Word, carry: bool): Word
    requires extra != 0
  {
    Wrap(Aligned(camera) - (extra - 1) - (if carry then 0 else 1))
  }

  // ----- the helpers that generated code calls

  /** X3WsSpawnStreamLeft */
  function HelperLeft(camera: Word, enabled: bool, margin: nat): Word {
    Wrap(camera - StreamExtra(enabled, margin))
  }

  /** X3WsSpawnStreamRightAdd */
  function HelperRightAdd(base: Word, enabled: bool, margin: nat): Word {
    Wrap(base as int + StreamExtra(enabled, margin))
  }

  /** X3WsSpawnStreamGridPad */
  function HelperGridPad(base: Word, enabled: bool, margin: nat): Word {
    var extra := StreamExtra(enabled, margin);
    if extra != 0 then extra else base
  }

  /** X3WsSpawnStreamColumns */
  function HelperColumns(base: Word, enabled: bool, margin: nat): Word {
    var left, right := StreamExtra(enabled, margin), StreamExtra(enabled, margin);
    if left == 0 then base else Wrap(9 + left / 32 + right / 32)
  }

  lemma AlignedMinusColumns(x: int, columns: int)
    requires columns % COLUMN == 0
    ensures Aligned(Wrap(x - columns)) == Wrap(x - x % COLUMN - columns)
  {
    var w := Wrap(x - columns);
    var wraps := (x - columns) / U16;
    assert x - columns == wraps * U16 + w;
    assert w % COLUMN == x % COLUMN;
    assert x - x % COLUMN - columns == wraps * U16 + (w - w % COLUMN);
  }

  /** Both tiers start at the same column, whichever way the comparison before the arm left the
      carry. */
  lemma SameLeftColumn(camera: Word, extra: Word, carry: bool)
    requires extra != 0 && extra % COLUMN == 0
    ensures Aligned(RewrittenLeft(camera, extra, carry)) == Aligned(Wrap(camera - extra))
  {
    var aligned: int := Aligned(camera);
    var x := if carry then aligned + 1 else aligned;
    assert x % COLUMN == if carry then 1 else 0;
    AlignedMinusColumns(x, extra);
    AlignedMinusColumns(camera, extra);
    assert RewrittenLeft(camera, extra, carry) == Wrap(x - extra);
  }

  /** $00:DE3A, where the stream body is mapped. */
  const BODY_ADDRESS: nat := 0xDE3A

  /** What the guest's code at $00:DE5A does with the camera, instruction by instruction: the value it
      stores in $00, and the offset in the body at which it goes on. Native is LDA $1E5D / STA $00 /
      BRA; the other form that it can take is SBC #n, behind the aligned camera, NOP, and JMP to a
      STA $00 in the body. */
  function GuestArm(rom: seq<Byte>, body: nat, camera: Word, carry: bool): Option<(Word, nat)>
    requires body + BODY_SIZE <= |rom|
  {
    var at := body + 0x20;
    if rom[at..at + 7] == [0xAD, 0x5D, 0x1E, 0x85, 0x00, 0x80, 0x18] then Some((camera, 0x20 + 7 + 0x18))
    else if rom[at] == 0xE9 && rom[at + 3] == 0xEA && rom[at + 4] == 0x4C then
      var target := WordAt(rom, at + 5);
      if BODY_ADDRESS <= target && target + 1 < BODY_ADDRESS + BODY_SIZE
         && rom[body + target - BODY_ADDRESS] == 0x85 && rom[body + target - BODY_ADDRESS + 1] == 0x00 then
        Some((Wrap(Aligned(camera) - WordAt(rom, at + 1) - (if carry then 0 else 1)), target - BODY_ADDRESS + 2))
      else None
    else None
  }

  /** Where STA $00 stands, behind the right arm. */
  const STORE: nat := 0x3D

  predicate StoreAt(rom: seq<Byte>, body: nat)
    requires body + BODY_SIZE <= |rom|
  {
    rom[body + STORE] == 0x85 && rom[body + STORE + 1] == 0x00
  }

  lemma NativeArmRuns(r: seq<Byte>, body: nat, camera: Word, carry: bool)
    requires body + BODY_SIZE <= |r| && r[body + 0x20..body + 0x27] == LeftArm(0)
    ensures GuestArm(r, body, camera, carry) == Some((camera, 0x3F))
  {
  }

  lemma PatchedArmRuns(r: seq<Byte>, body: nat, extra: Word, camera: Word, carry: bool)
    requires body + BODY_SIZE <= |r| && extra != 0 && r[body + 0x20..body + 0x27] == LeftArm(extra) && StoreAt(r, body)
    ensures GuestArm(r, body, camera, carry) == Some((RewrittenLeft(camera, extra, carry), 0x3F))
  {
    var at, code := body + 0x20, r[body + 0x20..body + 0x27];
    assert r[at] == code[0] && r[at + 1] == code[1] && r[at + 2] == code[2] && r[at + 3] == code[3];
    assert r[at + 4] == code[4] && r[at + 5] == code[5] && r[at + 6] == code[6];
    assert WordAt(r, at + 1) == extra - 1 && WordAt(r, at + 5) == BODY_ADDRESS + STORE;
    assert code[0] != 0xAD;
  }

  /** The patched arm stores the camera less the extra, as the carry has it, and joins the native code
      behind its STA $00. */
  lemma PatchedArm(rom: seq<Byte>, body: nat, extra: Word, camera: Word, carry: bool)
    requires body + BODY_SIZE <= |rom| && StoreAt(rom, body)
    ensures GuestArm(PatchStream(rom, body, extra, extra), body, camera, carry)
         == Some((if extra == 0 then camera else RewrittenLeft(camera, extra, carry), 0x3F))
  {
    var r := PatchStream(rom, body, extra, extra);
    ArmBytes(rom, body, extra);
    if extra == 0 {
      NativeArmRuns(r, body, camera, carry);
    } else {
      PatchedArmRuns(r, body, extra, camera, carry);
    }
  }

  lemma ArmBytes(rom: seq<Byte>, body: nat, extra: Word)
    requires body + BODY_SIZE <= |rom|
    ensures var r := PatchStream(rom, body, extra, extra);
            && r[body + 0x20..body + 0x27] == LeftArm(extra)
            && r[body + STORE] == rom[body + STORE] && r[body + STORE + 1] == rom[body + STORE + 1]
  {
    var r := PatchStream(rom, body, extra, extra);
    forall d | 0 <= d < 7
      ensures r[body + 0x20..body + 0x27][d] == LeftArm(extra)[d]
    {
      PatchStreamByte(rom, body, extra, body + 0x20 + d);
    }
    PatchStreamByte(rom, body, extra, body + STORE);
    PatchStreamByte(rom, body, extra, body + STORE + 1);
  }

  // ----- no window operand lies on the store

  /** Bytes before and at a place of the signature, in an adopted ROM. */
  lemma SignatureStore(rom: seq<Byte>, body: nat)
    requires Signature(rom, body)
    ensures rom[body + 0x3B] == 0x00 && rom[body + 0x3C] == 0x01 && StoreAt(rom, body)
  {
    var code := rom[body + 0x36..body + 0x36 + |RIGHT|];
    assert code == RIGHT;
    assert rom[body + 0x3B] == code[5] && rom[body + 0x3C] == code[6];
    assert rom[body + 0x3D] == code[7] && rom[body + 0x3E] == code[8];
  }

  /** An operand whose opcode byte no operand covers has its opcode in every patched ROM. */
  lemma OpcodeStays(original: seq<Byte>, l: Layout, margin: nat, native: bool, k: nat)
    requires Scans(l, original) && TableOk(original, l.sites) && k < |l.sites|
    ensures FrameWindows(l, original, margin, native)[l.sites[k].operand - 1] in {0x69, 0xC9, 0xE9}
  {
    var o := l.sites[k].operand;
    assert Plausible(original, l.sites[k]);
    if Touched(l.sites, o - 1) {
      var n :| 0 <= n < |l.sites| && (l.sites[n].operand == o - 1 || l.sites[n].operand + 1 == o - 1);
      assert l.sites[n].operand + 1 == o - 1;
      assert Plausible(original, l.sites[n]) && l.sites[n].base == WordAt(original, o - 2) < 0x400;
    } else {
      WindowsKeep(l, original, margin, native, o - 1);
    }
  }

  lemma NothingOnStore(original: seq<Byte>, l: Layout, margin: nat, native: bool)
    requires Scans(l, original) && TableOk(original, l.sites) && AdoptsAt(l, original, margin, native)
    ensures !Touched(l.sites, l.body + STORE) && !Touched(l.sites, l.body + STORE + 1)
    ensures StoreAt(original, l.body)
  {
    var rom := FrameWindows(l, original, margin, native);
    SignatureStore(rom, l.body);
    forall k | 0 <= k < |l.sites|
      ensures l.sites[k].operand !in {l.body + STORE - 1, l.body + STORE, l.body + STORE + 1}
    {
      OpcodeStays(original, l, margin, native, k);
    }
    WindowsKeep(l, original, margin, native, l.body + STORE);
    WindowsKeep(l, original, margin, native, l.body + STORE + 1);
  }

  /** The operands that the guest's native code has, before any patch. */
  const NATIVE_RIGHT: Word := 0x100
  const NATIVE_PAD: Word := 0x20
  const NATIVE_COLUMNS: Word := 0x0A

  /** The guest's three operands and its left arm do what the helpers do for the native operands. */
  predicate StreamTiersAgree(rom: seq<Byte>, body: nat, enabled: bool, margin: nat, camera: Word, carry: bool)
    requires body + BODY_SIZE <= |rom|
  {
    && WordAt(rom, body + RIGHT_OPERAND) == HelperRightAdd(NATIVE_RIGHT, enabled, margin)
    && WordAt(rom, body + GRID_OPERAND) == HelperGridPad(NATIVE_PAD, enabled, margin)
    && WordAt(rom, body + COLUMNS_OPERAND) == HelperColumns(NATIVE_COLUMNS, enabled, margin)
    && var arm := GuestArm(rom, body, camera, carry);
       && arm.Some? && arm.value.1 == 0x3F
       && Aligned(arm.value.0) == Aligned(HelperLeft(camera, enabled, margin))
  }

  lemma PatchedAgrees(rom: seq<Byte>, body: nat, enabled: bool, margin: nat, camera: Word, carry: bool)
    requires body + BODY_SIZE <= |rom| && StoreAt(rom, body)
    ensures var extra := StreamExtra(enabled, margin);
            StreamTiersAgree(PatchStream(rom, body, extra, extra), body, enabled, margin, camera, carry)
  {
    var extra := StreamExtra(enabled, margin);
    OperandsOfPatch(rom, body, extra);
    PatchedArm(rom, body, extra, camera, carry);
    AgreeByParts(PatchStream(rom, body, extra, extra), body, enabled, margin, extra, camera, carry);
  }

  lemma AgreeByParts(r: seq<Byte>, body: nat, enabled: bool, margin: nat, extra: Word, camera: Word, carry: bool)
    requires body + BODY_SIZE <= |r| && extra == StreamExtra(enabled, margin)
    requires WordAt(r, body + RIGHT_OPERAND) == Wrap(0x100 + extra)
    requires WordAt(r, body + GRID_OPERAND) == GridPad(0x20, extra)
    requires WordAt(r, body + COLUMNS_OPERAND) == Columns(0x0A, extra, extra)
    requires GuestArm(r, body, camera, carry)
          == Some((if extra == 0 then camera else RewrittenLeft(camera, extra, carry), 0x3F))
    ensures StreamTiersAgree(r, body, enabled, margin, camera, carry)
  {
    HelperValues(enabled, margin);
    StoredColumn(enabled, margin, camera, carry);
  }

  lemma HelperValues(enabled: bool, margin: nat)
    ensures var extra := StreamExtra(enabled, margin);
            && HelperRightAdd(NATIVE_RIGHT, enabled, margin) == Wrap(0x100 + extra)
            && HelperGridPad(NATIVE_PAD, enabled, margin) == GridPad(0x20, extra)
            && HelperColumns(NATIVE_COLUMNS, enabled, margin) == Columns(0x0A, extra, extra)
  {
  }

  lemma StoredColumn(enabled: bool, margin: nat, camera: Word, carry: bool)
    ensures var extra := StreamExtra(enabled, margin);
            Aligned(if extra == 0 then camera else RewrittenLeft(camera, extra, carry)) == Aligned(HelperLeft(camera, enabled, margin))
  {
    var extra := StreamExtra(enabled, margin);
    ExtraIsColumns(enabled, margin);
    if extra != 0 {
      SameLeftColumn(camera, extra, carry);
    }
  }

  /** The store survives every run of an adopted ROM. */
  lemma StoreStays(l: Layout, original: seq<Byte>, ops: seq<Op>, f: Op)
    requires Scans(l, original) && TableOk(original, l.sites) && f.Frame? && Adopts(l, original, ops + [f])
    ensures var q := Run(l, Private(original, Unscanned), ops);
            var rom := FrameWindows(l, q.rom, f.margin, f.native);
            l.body + BODY_SIZE <= |rom| && StoreAt(rom, l.body)
  {
    var start := Private(original, Unscanned);
    var q, first := Run(l, start, ops), FirstFrame(ops + [f]).value;
    NothingOnStore(original, l, first.margin, first.native);
    RunKeeps(l, original, start, ops);
    WindowsKeep(l, q.rom, f.margin, f.native, l.body + STORE);
    WindowsKeep(l, q.rom, f.margin, f.native, l.body + STORE + 1);
    assert Foreign(l, q.stream, l.body + STORE) && Foreign(l, q.stream, l.body + STORE + 1);
  }

  lemma ScannedIsOk(original: seq<Byte>, body: nat, enabled: bool)
    ensures TableOk(original, ScannedLayout(original, body, enabled).sites)
  {
    ScanGuarantees(original);
  }

  /** Stream parity. After every frame of an adopted ROM, whatever its margin, the three operands of
      the guest code are what the generated code's helpers return for the native ones; and its left
      arm, executed as it then stands in the ROM, stores a value in the column that the helper's value
      lies in, and joins the native code at the same instruction, for every camera and either carry. */
  lemma StreamParity(original: seq<Byte>, body: nat, enabled: bool, ops: seq<Op>, f: Op, camera: Word, carry: bool)
    requires f.Frame? && Adopts(ScannedLayout(original, body, enabled), original, ops + [f])
    ensures var l := ScannedLayout(original, body, enabled);
            var r := Step(l, Run(l, Private(original, Unscanned), ops), f).rom;
            && body + BODY_SIZE <= |r|
            && StreamTiersAgree(r, body, enabled, f.margin, camera, carry)
  {
    var l := ScannedLayout(original, body, enabled);
    ScannedIsOk(original, body, enabled);
    StreamParityOf(l, original, ops, f, camera, carry);
  }

  lemma StreamParityOf(l: Layout, original: seq<Byte>, ops: seq<Op>, f: Op, camera: Word, carry: bool)
    requires Scans(l, original) && TableOk(original, l.sites) && f.Frame? && Adopts(l, original, ops + [f])
    ensures var r := Step(l, Run(l, Private(original, Unscanned), ops), f).rom;
            && l.body + BODY_SIZE <= |r|
            && StreamTiersAgree(r, l.body, l.enabled, f.margin, camera, carry)
  {
    var q := Run(l, Private(original, Unscanned), ops);
    LastFrameAdopts(l, original, ops, f);
    StoreStays(l, original, ops, f);
    PatchedAgrees(FrameWindows(l, q.rom, f.margin, f.native), l.body, l.enabled, f.margin, camera, carry);
  }

  lemma OperandsOfPatch(rom: seq<Byte>, body: nat, extra: Word)
    requires body + BODY_SIZE <= |rom|
    ensures var r := PatchStream(rom, body, extra, extra);
            && WordAt(r, body + RIGHT_OPERAND) == Wrap(0x100 + extra)
            && WordAt(r, body + GRID_OPERAND) == GridPad(0x20, extra)
            && WordAt(r, body + COLUMNS_OPERAND) == Columns(0x0A, extra, extra)
  {
  }
}
