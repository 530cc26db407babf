/** The Cx4 sprite-coordinate tracker of src/x3_rtl.c: a bitmap and an array that remember, per
    sprite slot, the full X coordinate behind the low byte the coprocessor last wrote. */
module OamTracker {
  import opened Bytes

  const SLOTS: nat := 128
  const RAM_END: nat := 512
  const X_STORE: nat := 0x0280E6

  /** One observed coprocessor RAM write: the instruction, the address, which byte of the value. */
  datatype Write = Write(instruction: nat, address: Word, byte: nat, value: nat)

  /** A byte of the bitmap, bit 0 first. */
  type Bits = b: seq<bool> | |b| == 8 witness [false, false, false, false, false, false, false, false]

  datatype State = State(x: seq<int>, valid: seq<Bits>)

  predicate StateOk(s: State) {
    |s.x| == SLOTS && |s.valid| == SLOTS / 8
  }

  // ----- the bitmap

  predicate Test(valid: seq<Bits>, slot: nat)
    requires slot / 8 < |valid|
  {
    valid[slot / 8][slot % 8]
  }

  function Put(valid: seq<Bits>, slot: nat, on: bool): (r: seq<Bits>)
    requires slot / 8 < |valid|
    ensures |r| == |valid|
  {
    valid[slot / 8 := valid[slot / 8][slot % 8 := on]]
  }

  /** Changing one slot's bit leaves the other 127 alone. */
  lemma OneBit(valid: seq<Bits>, slot: nat, on: bool, other: nat)
    requires slot / 8 < |valid| && other / 8 < |valid|
    ensures Test(Put(valid, slot, on), other) == if other == slot then on else Test(valid, other)
  {
    if slot / 8 == other / 8 && slot % 8 == other % 8 {
      assert slot == 8 * (slot / 8) + slot % 8 && other == 8 * (other / 8) + other % 8;
    }
  }

  // ----- one write

  /** Whether the write concerns the X position of a slot at all. */
  predicate Concerns(w: Write, slot: nat) {
    w.address == 4 * slot
  }

  /** The microcode's own store of a screen X, whose full value is known. */
  predicate Captures(w: Write) {
    w.instruction == X_STORE && w.byte == 0
  }

  function Signed16(value: nat): (x: int)
    ensures -0x8000 <= x < 0x8000 && (x - value) % U16 == 0
  {
    var low := value % U16;
    if low >= 0x8000 then low - U16 else low
  }

  /** x3_cx4_ram_written */
  function Apply(s: State, w: Write): (r: State)
    requires StateOk(s)
    ensures StateOk(r)
  {
    if w.address >= RAM_END || w.address % 4 != 0 then s
    else
      var slot := w.address / 4;
      var cleared := Put(s.valid, slot, false);
      if Captures(w) then State(s.x[slot := Signed16(w.value)], Put(cleared, slot, true)) else s.(valid := cleared)
  }

  function Run(s: State, writes: seq<Write>): (r: State)
    requires StateOk(s)
    ensures StateOk(r)
  {
    if writes == [] then s else Apply(Run(s, writes[..|writes| - 1]), writes[|writes| - 1])
  }

  // ----- last-write semantics

  /** The last write to a slot's X address. */
  function LastWrite(writes: seq<Write>, slot: nat): Option<Write> {
    if writes == [] then None
    else if Concerns(writes[|writes| - 1], slot) then Some(writes[|writes| - 1])
    else LastWrite(writes[..|writes| - 1], slot)
  }

  lemma ApplySlot(s: State, w: Write, slot: nat)
    requires StateOk(s) && slot < SLOTS
    ensures var r := Apply(s, w);
            if Concerns(w, slot) then
              (Test(r.valid, slot) <==> Captures(w)) && (Captures(w) ==> r.x[slot] == Signed16(w.value))
            else (Test(r.valid, slot) <==> Test(s.valid, slot)) && r.x[slot] == s.x[slot]
  {
    if w.address < RAM_END && w.address % 4 == 0 {
      var written := w.address / 4;
      OneBit(s.valid, written, false, slot);
      OneBit(Put(s.valid, written, false), written, true, slot);
    }
  }

  /** The bitmap and the array refine "the last write to this slot". After any sequence of writes a
      slot is marked exactly when the last write to its X address was the microcode's X store, and it
      then holds that write's value as a signed 16-bit number; a slot never written is as it was. */
  lemma {:induction false} LastWriteWins(s: State, writes: seq<Write>, slot: nat)
    requires StateOk(s) && slot < SLOTS
    ensures var r := Run(s, writes);
            match LastWrite(writes, slot)
            case None => (Test(r.valid, slot) <==> Test(s.valid, slot)) && r.x[slot] == s.x[slot]
            case Some(w) => (Test(r.valid, slot) <==> Captures(w))
                            && (Captures(w) ==> r.x[slot] == Signed16(w.value))
    decreases |writes|
  {
    if writes != [] {
      var n := |writes| - 1;
      LastWriteWins(s, writes[..n], slot);
      ApplySlot(Run(s, writes[..n]), writes[n], slot);
    }
  }

  // ----- publishing on upload

  /** x3_oam_xy_uploaded: the full X to attach to an uploaded sprite word, if any. `window` tells
      whether the source address lies in the coprocessor's RAM window. */
  function Published(s: State, supported: bool, window: bool, yAddress: Word, oamWord: Word): Option<int>
    requires StateOk(s)
  {
    var offset := yAddress % 0x1000;
    if !supported || !window || offset >= RAM_END || offset % 4 != 1 then None
    else
      var slot := offset / 4;
      if !Test(s.valid, slot) then None
      else if oamWord % 0x100 == s.x[slot] % 0x100 then Some(s.x[slot])
      else None
  }

  /** What is published is never invented: it is the coordinate the microcode last stored for the
      uploaded slot, and its low byte is the byte that was uploaded. Conversely a supported upload
      from a slot whose last write was such a store, with the same low byte, is published. */
  lemma PublishedIsLastStore(s: State, writes: seq<Write>, supported: bool, window: bool, yAddress: Word, oamWord: Word)
    requires StateOk(s) && forall slot :: 0 <= slot < SLOTS ==> !Test(s.valid, slot)
    ensures var p := Published(Run(s, writes), supported, window, yAddress, oamWord);
            var offset := yAddress % 0x1000;
            var last := LastWrite(writes, offset / 4);
            p.Some? <==>
              && supported && window && offset < RAM_END && offset % 4 == 1
              && last.Some? && Captures(last.value) && last.value.value % 0x100 == oamWord % 0x100
    ensures var p := Published(Run(s, writes), supported, window, yAddress, oamWord);
            p.Some? ==> p.value == Signed16(LastWrite(writes, yAddress % 0x1000 / 4).value.value)
                        && p.value % 0x100 == oamWord % 0x100
  {
    var offset := yAddress % 0x1000;
    if offset < RAM_END {
      var slot := offset / 4;
      LastWriteWins(s, writes, slot);
      assert !Test(s.valid, slot);
      match LastWrite(writes, slot) {
        case Some(w) => LowByte(w.value);
        case None =>
      }
    }
  }

  lemma LowByte(value: nat)
    ensures Signed16(value) % 0x100 == value % 0x100
  {
    var low := value % U16;
    assert value == value / U16 * U16 + low;
    assert value % 0x100 == low % 0x100;
    assert (low - U16) % 0x100 == low % 0x100;
  }

  /** The observers as the coprocessor and the DMA unit drive them. */
  class Tracker {
    const x: array<int>
    const valid: array<Bits>

    ghost predicate Valid()
      reads this
    {
      x.Length == SLOTS && valid.Length == SLOTS / 8
    }

    ghost function Contents(): State
      reads this, x, valid
    {
      State(x[..], valid[..])
    }

    constructor ()
      ensures Valid() && fresh(x) && fresh(valid)
      ensures forall slot :: 0 <= slot < SLOTS ==> !Test(Contents().valid, slot)
    {
      x := new int[SLOTS](_ => 0);
      valid := new Bits[SLOTS / 8](_ => [false, false, false, false, false, false, false, false]);
    }

    method RamWritten(w: Write)
      requires Valid()
      modifies x, valid
      ensures Contents() == Apply(old(Contents()), w)
    {
      if w.address >= RAM_END || w.address % 4 != 0 {
        return;
      }
      var slot := w.address / 4;
      valid[slot / 8] := valid[slot / 8][slot % 8 := false];
      if w.instruction == X_STORE && w.byte == 0 {
        x[slot] := Signed16(w.value);
        valid[slot / 8] := valid[slot / 8][slot % 8 := true];
      }
    }

    method XyUploaded(supported: bool, window: bool, yAddress: Word, oamWord: Word) returns (full: Option<int>)
      requires Valid()
      ensures full == Published(Contents(), supported, window, yAddress, oamWord)
    {
      if !supported || !window {
        return None;
      }
      var offset := yAddress % 0x1000;
      if offset >= RAM_END || offset % 4 != 1 {
        return None;
      }
      var slot := offset / 4;
      if !valid[slot / 8][slot % 8] {
        return None;
      }
      if oamWord % 0x100 == x[slot] % 0x100 {
        full := Some(x[slot]);
      } else {
        full := None;
      }
    }
  }
}
