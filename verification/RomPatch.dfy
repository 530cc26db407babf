/** Rewriting of the private ROM copy (src/x3_rtl.c): the per-frame patch of all recorded operands,
    the opcode hook of the activation routine, and the spawn-stream rewrite that shares the ROM. */
module RomPatch {
  import opened Bytes
  import opened Windows
  import opened RomScan

  /** ROM offsets of the shared activation routine, $02:D58A up to $02:D611. */
  const ROUTINE: nat := 0x1558A
  const ROUTINE_END: nat := 0x15611

  predicate InRoutine(s: Site) {
    ROUTINE <= s.operand < ROUTINE_END
  }

  function Poke(rom: seq<Byte>, at: nat, value: Word): (r: seq<Byte>)
    requires at + 1 < |rom|
    ensures |r| == |rom| && WordAt(r, at) == value
  {
    rom[at := value % 0x100][at + 1 := value / 0x100]
  }

  function Widened(s: Site, margin: nat): Word {
    Wrap(s.base + s.scale * margin)
  }

  /** Sites that fit the ROM and share no byte. */
  predicate Laid(sites: seq<Site>, size: nat) {
    && (forall k :: 0 <= k < |sites| ==> sites[k].operand + 1 < size)
    && (forall k, l :: 0 <= k < |sites| && 0 <= l < |sites| && k != l ==>
          sites[k].operand + 1 < sites[l].operand || sites[l].operand + 1 < sites[k].operand)
  }

  /** Writing the operands of all sites, or of those in the routine only. */
  function PokeSites(rom: seq<Byte>, sites: seq<Site>, margin: nat, routineOnly: bool): (r: seq<Byte>)
    requires Laid(sites, |rom|)
    ensures |r| == |rom|
  {
    if sites == [] then rom
    else
      var n := |sites| - 1;
      var before := PokeSites(rom, sites[..n], margin, routineOnly);
      if routineOnly && !InRoutine(sites[n]) then before
      else Poke(before, sites[n].operand, Widened(sites[n], margin))
  }

  predicate Touched(sites: seq<Site>, p: nat) {
    exists k :: 0 <= k < |sites| && (sites[k].operand == p || sites[k].operand + 1 == p)
  }

  lemma UntouchedFront(sites: seq<Site>, p: nat)
    requires sites != [] && !Touched(sites, p)
    ensures !Touched(sites[..|sites| - 1], p)
    ensures sites[|sites| - 1].operand != p && sites[|sites| - 1].operand + 1 != p
  {
    assert forall k :: 0 <= k < |sites| - 1 ==> sites[..|sites| - 1][k] == sites[k];
  }

  /** A byte of one site is no byte of the sites before it. */
  lemma OwnByte(sites: seq<Site>, size: nat, p: nat)
    requires Laid(sites, size) && sites != []
    requires p == sites[|sites| - 1].operand || p == sites[|sites| - 1].operand + 1
    ensures !Touched(sites[..|sites| - 1], p)
  {
    assert forall k :: 0 <= k < |sites| - 1 ==> sites[..|sites| - 1][k] == sites[k];
  }

  /** The write loops keep every byte that belongs to no operand. */
  lemma {:induction false} PokeUntouched(rom: seq<Byte>, sites: seq<Site>, margin: nat, routineOnly: bool, p: nat)
    requires Laid(sites, |rom|) && p < |rom| && !Touched(sites, p)
    ensures PokeSites(rom, sites, margin, routineOnly)[p] == rom[p]
  {
    if sites != [] {
      UntouchedFront(sites, p);
      PokeUntouched(rom, sites[..|sites| - 1], margin, routineOnly, p);
    }
  }

  lemma PokeElsewhere(rom: seq<Byte>, at: nat, value: Word, p: nat)
    requires at + 1 < |rom| && p + 1 < |rom| && (p + 1 < at || at + 1 < p)
    ensures WordAt(Poke(rom, at, value), p) == WordAt(rom, p)
  {
  }

  /** Each operand the loops write holds its widened word, each one they skip its old word. */
  lemma {:induction false} PokeWord(rom: seq<Byte>, sites: seq<Site>, margin: nat, routineOnly: bool, k: nat)
    requires Laid(sites, |rom|) && k < |sites|
    ensures WordAt(PokeSites(rom, sites, margin, routineOnly), sites[k].operand)
         == if routineOnly && !InRoutine(sites[k]) then WordAt(rom, sites[k].operand) else Widened(sites[k], margin)
  {
    var n := |sites| - 1;
    var front, last := sites[..n], sites[n];
    var before := PokeSites(rom, front, margin, routineOnly);
    if k < n {
      assert sites[k] == front[k];
      PokeWord(rom, front, margin, routineOnly, k);
      PokeElsewhere(before, last.operand, Widened(last, margin), sites[k].operand);
    } else {
      OwnByte(sites, |rom|, last.operand);
      OwnByte(sites, |rom|, last.operand + 1);
      PokeUntouched(rom, front, margin, routineOnly, last.operand);
      PokeUntouched(rom, front, margin, routineOnly, last.operand + 1);
    }
  }

  // ----- object windows: frame patch and hook

  /** One frame: all operands for the margin, then the routine's for the running object. */
  function PatchWindows(rom: seq<Byte>, sites: seq<Site>, margin: nat, native: bool): seq<Byte>
    requires Laid(sites, |rom|)
  {
    PokeSites(PokeSites(rom, sites, margin, false), sites, if native then 0 else margin, true)
  }

  /** x3_ws_activation_hook */
  function Hook(rom: seq<Byte>, sites: seq<Site>, margin: nat, native: bool): seq<Byte>
    requires Laid(sites, |rom|)
  {
    PokeSites(rom, sites, if native then 0 else margin, true)
  }

  /** What the generated code's helper returns for an operand of this scale. */
  function Helper(s: Site, native: bool, margin: nat): Word {
    if s.scale == 1 then WinAdd(s.base, native, margin) else WinLimit(s.base, native, margin)
  }

  predicate Scaled(sites: seq<Site>) {
    forall k :: 0 <= k < |sites| ==> sites[k].scale == 1 || sites[k].scale == 2
  }

  /** Tier parity. After the frame patch, and again after every entry to the activation routine,
      the operands of the routine are what the generated helpers return for the running object:
      native for a type-04 controller, widened otherwise. Every operand outside the routine holds
      its widened word, and the hook leaves it alone. */
  lemma TierParity(rom: seq<Byte>, sites: seq<Site>, margin: nat, native: bool, k: nat)
    requires Laid(sites, |rom|) && Scaled(sites) && k < |sites|
    ensures var s := sites[k];
            && WordAt(PatchWindows(rom, sites, margin, native), s.operand)
               == (if InRoutine(s) then Helper(s, native, margin) else Helper(s, false, margin))
            && WordAt(Hook(rom, sites, margin, native), s.operand)
               == (if InRoutine(s) then Helper(s, native, margin) else WordAt(rom, s.operand))
  {
    var patched := PokeSites(rom, sites, margin, false);
    PokeWord(rom, sites, margin, false, k);
    PokeWord(patched, sites, if native then 0 else margin, true, k);
    PokeWord(rom, sites, if native then 0 else margin, true, k);
  }

  // ----- the spawn stream

  const BODY_SIZE: nat := 0xA7
  const LEFT_ARM: nat := 0x20
  const RIGHT_OPERAND: nat := 0x3B
  const GRID_OPERAND: nat := 0x7D
  const COLUMNS_OPERAND: nat := 0x82

  const ENTRY: seq<Byte> :=
    [0x8B, 0x0B, 0x08, 0xC2, 0x30, 0xA9, 0x00, 0x00, 0x5B, 0xAD, 0x7A, 0x1E, 0xCD, 0x5D, 0x1E, 0x30, 0x16]
  const LEFT_STATE: seq<Byte> :=
    [0xAD, 0x5D, 0x1E, 0x29, 0xE0, 0xFF, 0xC5, 0x00, 0xF0, 0x30, 0xAD, 0x5D, 0x1E, 0x85, 0x00, 0x80, 0x18]
  const RIGHT: seq<Byte> := [0xAD, 0x5D, 0x1E, 0x18, 0x69, 0x00, 0x01, 0x85, 0x00]
  const GRID: seq<Byte> := [0xAD, 0x5D, 0x1E, 0x38, 0xE9, 0x20, 0x00, 0x85, 0x00, 0xA9, 0x0A, 0x00, 0x85, 0x06]
  const WALKER_MASK: seq<Byte> := [0xA5, 0x00, 0x29, 0xE0, 0xFF]

  const LEFT_ORIGINAL: seq<Byte> := [0xAD, 0x5D, 0x1E, 0x85, 0x00, 0x80, 0x18]

  predicate Matches(rom: seq<Byte>, at: nat, bytes: seq<Byte>) {
    at + |bytes| <= |rom| && rom[at..at + |bytes|] == bytes
  }

  /** The signature test of x3_scan_ws_spawn_stream; `body` is the ROM offset of $00:DE3A. */
  predicate Signature(rom: seq<Byte>, body: nat) {
    && body + BODY_SIZE <= |rom|
    && Matches(rom, body, ENTRY)
    && Matches(rom, body + 0x16, LEFT_STATE)
    && Matches(rom, body + 0x36, RIGHT)
    && Matches(rom, body + 0x78, GRID)
    && Matches(rom, body + 0xA2, WALKER_MASK)
  }

  /** x3_ws_spawn_stream_left_extra and its right twin: the margin rounded up to whole columns, in
      16 bits, or nothing while the stream is not opted in. */
  function StreamExtra(enabled: bool, margin: nat): Word {
    if enabled && margin != 0 then Wrap((margin + 31) / 32 * 32) else 0
  }

  function Columns(base: Word, left: Word, right: Word): Word {
    if left == 0 then base else Wrap(9 + left / 32 + right / 32)
  }

  function GridPad(base: Word, left: Word): Word {
    if left == 0 then base else left
  }

  /** The bytes written over `LDA $1E5D / STA $00 / BRA`: unchanged, or SBC #left-1 / NOP / JMP $DE77. */
  function LeftArm(left: Word): (bytes: seq<Byte>)
    ensures |bytes| == 7
  {
    if left == 0 then LEFT_ORIGINAL
    else [0xE9, (left - 1) % 0x100, (left - 1) / 0x100, 0xEA, 0x4C, 0x77, 0xDE]
  }

  function PokeBytes(rom: seq<Byte>, at: nat, bytes: seq<Byte>): (r: seq<Byte>)
    requires at + |bytes| <= |rom|
    ensures |r| == |rom|
    ensures forall p :: 0 <= p < |rom| ==> r[p] == if at <= p < at + |bytes| then bytes[p - at] else rom[p]
  {
    rom[..at] + bytes + rom[at + |bytes|..]
  }

  /** The three operands of the stream body. */
  function PokeOperands(rom: seq<Byte>, body: nat, right: Word, pad: Word, columns: Word): (r: seq<Byte>)
    requires body + BODY_SIZE <= |rom|
    ensures |r| == |rom|
  {
    Poke(Poke(Poke(rom, body + RIGHT_OPERAND, right), body + GRID_OPERAND, pad), body + COLUMNS_OPERAND, columns)
  }

  /** x3_patch_ws_interp_spawn_stream, once the signature has matched. */
  function PatchStream(rom: seq<Byte>, body: nat, left: Word, right: Word): (r: seq<Byte>)
    requires body + BODY_SIZE <= |rom|
    ensures |r| == |rom|
  {
    var rewritten := PokeBytes(rom, body + LEFT_ARM, LeftArm(left));
    PokeOperands(rewritten, body, Wrap(0x100 + right), GridPad(0x20, left), Columns(0x0A, left, right))
  }

  /** The four places the stream patch writes. */
  predicate InStream(body: nat, p: nat) {
    || body + LEFT_ARM <= p < body + LEFT_ARM + 7
    || body + RIGHT_OPERAND <= p < body + RIGHT_OPERAND + 2
    || body + GRID_OPERAND <= p < body + GRID_OPERAND + 2
    || body + COLUMNS_OPERAND <= p < body + COLUMNS_OPERAND + 2
  }

  /** The original contents of those places. */
  function StreamByte(p: nat): Byte {
    if LEFT_ARM <= p < LEFT_ARM + 7 then LEFT_ORIGINAL[p - LEFT_ARM]
    else if p == RIGHT_OPERAND + 1 then 0x01
    else if p == GRID_OPERAND then 0x20
    else if p == COLUMNS_OPERAND then 0x0A
    else 0
  }

  predicate StreamOriginal(rom: seq<Byte>, body: nat) {
    forall p :: 0 <= p < |rom| && p >= body && InStream(body, p) ==> rom[p] == StreamByte(p - body)
  }

  lemma PatchStreamAt(rom: seq<Byte>, body: nat, left: Word, right: Word)
    requires body + BODY_SIZE <= |rom|
    ensures var r := PatchStream(rom, body, left, right);
            && (forall p: nat :: p < |rom| && !InStream(body, p) ==> r[p] == rom[p])
            && (left == 0 && right == 0 ==> StreamOriginal(r, body))
  {
  }

  /** What the stream patch writes at one of its places. */
  function StreamValue(body: nat, extra: Word, p: nat): Byte
    requires InStream(body, p)
  {
    if p < body + LEFT_ARM + 7 then LeftArm(extra)[p - body - LEFT_ARM]
    else
      var w := if p < body + RIGHT_OPERAND + 2 then Wrap(0x100 + extra)
               else if p < body + GRID_OPERAND + 2 then GridPad(0x20, extra)
               else Columns(0x0A, extra, extra);
      if p - body in {RIGHT_OPERAND, GRID_OPERAND, COLUMNS_OPERAND} then w % 0x100 else w / 0x100
  }

  lemma PatchStreamByte(rom: seq<Byte>, body: nat, extra: Word, p: nat)
    requires body + BODY_SIZE <= |rom| && p < |rom|
    ensures PatchStream(rom, body, extra, extra)[p] == if InStream(body, p) then StreamValue(body, extra, p) else rom[p]
  {
  }

  lemma SignatureIsOriginal(rom: seq<Byte>, body: nat)
    requires Signature(rom, body)
    ensures StreamOriginal(rom, body)
  {
    forall p | 0 <= p < |rom| && p >= body && InStream(body, p)
      ensures rom[p] == StreamByte(p - body)
    {
      if p < body + LEFT_ARM + 7 {
        assert rom[p] == rom[body + 0x16..body + 0x16 + |LEFT_STATE|][p - body - 0x16];
      } else if p < body + RIGHT_OPERAND + 2 {
        assert rom[p] == rom[body + 0x36..body + 0x36 + |RIGHT|][p - body - 0x36];
      } else {
        assert rom[p] == rom[body + 0x78..body + 0x78 + |GRID|][p - body - 0x78];
      }
    }
  }
}
