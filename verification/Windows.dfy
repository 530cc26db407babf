/** The horizontal object windows of src/x3_rtl.c: the helpers that generated code calls, and the
    16-bit comparison that both tiers perform with the widened operands. */
module Windows {
  import opened Bytes

  function Wrap(v: int): (w: Word) {
    v % U16
  }

  /** x3_ws_native_controller: a resident object slot that holds a type-04 controller. */
  predicate NativeController(dp: Word, kind: Byte) {
    0x1818 <= dp < 0x1E18 && (dp - 0x1818) % 32 == 0 && kind == 0x04
  }

  /** The controllers that keep the native window: type 4 in one of the 48 resident object slots. */
  lemma NativeSlots(dp: Word, kind: Byte)
    ensures NativeController(dp, kind) <==> kind == 4 && exists k: nat :: k < 48 && dp == 0x1818 + 32 * k
  {
    if NativeController(dp, kind) {
      var k := (dp - 0x1818) / 32;
      assert k < 48 && dp == 0x1818 + 32 * k;
    }
  }

  /** X3WsObjWinAdd */
  function WinAdd(base: Word, native: bool, margin: nat): Word {
    Wrap(base + if native then 0 else margin)
  }

  /** X3WsObjWinLimit */
  function WinLimit(base: Word, native: bool, margin: nat): Word {
    Wrap(base + 2 * if native then 0 else margin)
  }

  /** objectX - cameraX + add, compared with limit, all in unsigned 16-bit arithmetic. */
  predicate Accepts(objectX: Word, camera: Word, add: Word, limit: Word) {
    Wrap(objectX - camera + add) < limit
  }

  /** How far the object is to the right of the camera, as a signed 16-bit number. */
  function Distance(objectX: Word, camera: Word): (d: int)
    ensures -0x8000 <= d < 0x8000
  {
    var d := Wrap(objectX - camera);
    if d < 0x8000 then d else d - U16
  }

  /** Up to `reach` pixels beyond either edge of the 256-pixel screen. */
  predicate Near(d: int, reach: int) {
    -reach <= d < 0x100 + reach
  }

  /** The comparison with operands widened by `margin`, from a symmetric native pair. */
  predicate WidenedAccepts(objectX: Word, camera: Word, add: Word, margin: nat) {
    Accepts(objectX, camera, WinAdd(add, false, margin), WinLimit(Wrap(0x100 + 2 * add), false, margin))
  }

  ghost predicate WidensSymmetrically(add: Word, margin: nat) {
    forall objectX: Word, camera: Word ::
      WidenedAccepts(objectX, camera, add, margin) <==> Near(Distance(objectX, camera), add + margin)
  }

  /** The widest reach that 16-bit arithmetic can express: beyond it the far left wraps into the
      window although the limit itself still fits in 16 bits. */
  const WIDEST: nat := 0x7F00

  lemma DistanceIs(objectX: Word, camera: Word)
    ensures Distance(objectX, camera) == objectX - camera
         || Distance(objectX, camera) == objectX - camera + U16
         || Distance(objectX, camera) == objectX - camera - U16
  {
  }

  lemma WidenedByDistance(objectX: Word, camera: Word, add: Word, margin: nat)
    requires add + margin <= WIDEST
    ensures WidenedAccepts(objectX, camera, add, margin)
       <==> Wrap(Distance(objectX, camera) + add + margin) < 0x100 + 2 * (add + margin)
  {
    var d := Distance(objectX, camera);
    DistanceIs(objectX, camera);
    assert WinAdd(add, false, margin) == add + margin;
    assert WinLimit(Wrap(0x100 + 2 * add), false, margin) == 0x100 + 2 * (add + margin);
    assert Wrap(objectX - camera + (add + margin)) == Wrap(d + add + margin);
  }

  /** Up to that reach the unsigned comparison is exactly the signed window. */
  lemma WidensUpTo(objectX: Word, camera: Word, add: Word, margin: nat)
    requires add + margin <= WIDEST
    ensures WidenedAccepts(objectX, camera, add, margin) <==> Near(Distance(objectX, camera), add + margin)
  {
    WidenedByDistance(objectX, camera, add, margin);
    var v := Distance(objectX, camera) + add + margin;
    if v < 0 {
      assert Wrap(v) == v + U16;
    } else {
      assert Wrap(v) == v;
    }
  }

  /** How the comparison reads with the camera at 0. */
  lemma AcceptsAtZero(objectX: Word, add: Word, margin: nat)
    ensures WidenedAccepts(objectX, 0, add, margin)
       <==> Wrap(objectX + (add + margin)) < Wrap(0x100 + 2 * (add + margin))
  {
    var q := WrapParts(add + margin);
    WrapWhole(objectX + WinAdd(add, false, margin), objectX + (add + margin), -q);
    var r := WrapParts(0x100 + 2 * add);
    WrapWhole(Wrap(0x100 + 2 * add) + 2 * margin, 0x100 + 2 * (add + margin), -r);
  }

  /** Past that reach some object is classified wrongly. */
  lemma TooWide(add: Word, margin: nat) returns (objectX: Word, camera: Word)
    requires add + margin > WIDEST
    ensures !(WidenedAccepts(objectX, camera, add, margin) <==> Near(Distance(objectX, camera), add + margin))
  {
    var reach := add + margin;
    camera := 0;
    if reach < 0x7F80 {
      objectX := 0x8000;
      assert Wrap(0x8000 + reach) == 0x8000 + reach && Wrap(0x100 + 2 * reach) == 0x100 + 2 * reach;
    } else if reach < 0x8000 {
      objectX := 0;
      assert Wrap(reach) == reach && Wrap(0x100 + 2 * reach) == 0x100 + 2 * reach - U16;
    } else {
      objectX := Wrap(0xFFFF - Wrap(reach));
      var q := WrapParts(reach);
      WrapWhole(objectX + reach, 0xFFFF, q);
    }
    AcceptsAtZero(objectX, add, margin);
  }

  /** A symmetric window widens symmetrically exactly up to a reach of $7F00 pixels. A limit that
      fits in 16 bits is not enough: between $7F01 and $7F7F it fits and the window is wrong. */
  lemma SymmetricWidening(add: Word, margin: nat)
    ensures WidensSymmetrically(add, margin) <==> add + margin <= WIDEST
  {
    if add + margin <= WIDEST {
      forall objectX: Word, camera: Word
        ensures WidenedAccepts(objectX, camera, add, margin) <==> Near(Distance(objectX, camera), add + margin)
      {
        WidensUpTo(objectX, camera, add, margin);
      }
    } else {
      var objectX, camera := TooWide(add, margin);
    }
  }

  /** A wider margin accepts whatever a narrower one did. */
  lemma WideningIsMonotone(objectX: Word, camera: Word, add: Word, m1: nat, m2: nat)
    requires m1 <= m2 && add + m2 <= WIDEST
    ensures WidenedAccepts(objectX, camera, add, m1) ==> WidenedAccepts(objectX, camera, add, m2)
  {
    WidensUpTo(objectX, camera, add, m1);
    WidensUpTo(objectX, camera, add, m2);
  }

  // ----- the centered distance form

  const CENTERED_ADD: Word := 0x80
  const CENTERED_LIMIT: Word := 0x1C0

  /** e + reach < limit in unsigned 16-bit arithmetic, for a signed 16-bit distance e. */
  predicate Below(e: int, reach: nat, limit: nat) {
    Wrap(e + reach) < limit
  }

  predicate Within(e: int, lo: int, hi: int) {
    lo <= e < hi
  }

  lemma SignedWindowHolds(e: int, reach: int, limit: int)
    requires reach >= 0 && limit >= 0 && -0x8000 <= e < 0x8000 && limit < U16 && reach <= 0x8000 && limit - reach <= 0x8000
    ensures Below(e, reach, limit) <==> Within(e, -reach, limit - reach)
  {
    if e + reach < 0 {
      assert Wrap(e + reach) == e + reach + U16;
    } else {
      assert Wrap(e + reach) == e + reach;
    }
  }

  lemma SignedWindowFails(reach: int, limit: int) returns (e: int)
    requires reach >= 0 && 0 < limit < U16 && (reach > 0x8000 || limit - reach > 0x8000)
    ensures -0x8000 <= e < 0x8000 && !(Below(e, reach, limit) <==> Within(e, -reach, limit - reach))
  {
    if reach > 0x8000 {
      e := Wrap(0x8000 - reach) - 0x8000;
      assert Wrap(e + reach) == 0 by {
        assert Wrap(0x8000 - reach) == 0x8000 - reach + U16 * ((reach - 0x8000 + U16 - 1) / U16);
      }
    } else {
      e := -0x8000;
      assert Wrap(e + reach) == if reach == 0x8000 then 0 else reach + 0x8000;
    }
  }

  /** camera + add (with the carry as it happens to be) - objectX + bias, compared with the limit;
      `add` and `limit` are the operands that the patch rewrites, the bias is not. */
  predicate CenteredAccepts(objectX: Word, camera: Word, carry: bool, bias: Word, add: Word, limit: Word) {
    Wrap(Wrap(camera + add + if carry then 1 else 0) - objectX + bias) < limit
  }

  /** How far the native form reaches below the camera. */
  function CenteredReach(carry: bool, bias: Word): Word {
    Wrap(CENTERED_ADD + bias + if carry then 1 else 0)
  }

  lemma CenteredByDistance(objectX: Word, camera: Word, carry: bool, bias: Word, add: Word, limit: Word, margin: nat)
    requires add == WinAdd(CENTERED_ADD, false, margin)
    ensures CenteredAccepts(objectX, camera, carry, bias, add, limit)
       <==> Below(Distance(camera, objectX), CenteredReach(carry, bias) + margin, limit)
  {
    var c := if carry then 1 else 0;
    var inner, e, reach := Wrap(camera + add + c), Distance(camera, objectX), CenteredReach(carry, bias);
    DistanceIs(camera, objectX);
    var q1 := WrapParts(CENTERED_ADD + margin);
    var q2 := WrapParts(camera + add + c);
    var q3 := WrapParts(CENTERED_ADD + bias + c);
    var q4 := (camera - objectX - e) / U16;
    assert camera - objectX == e + q4 * U16;
    WrapWhole(inner - objectX + bias, e + (reach + margin), q3 + q4 - q1 - q2);
  }

  lemma WrapParts(v: int) returns (q: int)
    ensures v == q * U16 + Wrap(v)
  {
    q := v / U16;
  }

  lemma WrapWhole(a: int, b: int, q: int)
    requires a == b + q * U16
    ensures Wrap(a) == Wrap(b)
  {
  }

  /** The centered form widens symmetrically: both ends of its window of signed distances move out
      by the margin, for every bias and carry, exactly as long as both ends stay in signed range. */
  lemma CenteredWidening(carry: bool, bias: Word, margin: nat)
    requires CENTERED_LIMIT + 2 * margin < U16
    ensures var reach, add, limit := CenteredReach(carry, bias), WinAdd(CENTERED_ADD, false, margin),
                                     WinLimit(CENTERED_LIMIT, false, margin);
            (forall objectX: Word, camera: Word ::
               CenteredAccepts(objectX, camera, carry, bias, add, limit)
               <==> Within(Distance(camera, objectX), -(reach + margin), CENTERED_LIMIT - reach + margin))
            <==> reach + margin <= 0x8000 && CENTERED_LIMIT - reach + margin <= 0x8000
  {
    CenteredWindow(carry, bias, margin, WinLimit(CENTERED_LIMIT, false, margin));
  }

  /** With any limit, the form is a signed window as far as 16 bits allow. */
  lemma CenteredWindow(carry: bool, bias: Word, margin: nat, limit: Word)
    requires 0 < limit
    ensures var reach: int := CenteredReach(carry, bias) + margin;
            (forall objectX: Word, camera: Word ::
               CenteredAccepts(objectX, camera, carry, bias, WinAdd(CENTERED_ADD, false, margin), limit)
               <==> Within(Distance(camera, objectX), -reach, limit - reach))
            <==> reach <= 0x8000 && limit - reach <= 0x8000
  {
    var reach: int, add := CenteredReach(carry, bias) + margin, WinAdd(CENTERED_ADD, false, margin);
    if reach <= 0x8000 && limit - reach <= 0x8000 {
      forall objectX: Word, camera: Word
        ensures CenteredAccepts(objectX, camera, carry, bias, add, limit)
           <==> Within(Distance(camera, objectX), -reach, limit - reach)
      {
        CenteredByDistance(objectX, camera, carry, bias, add, limit, margin);
        SignedWindowHolds(Distance(camera, objectX), reach, limit);
      }
    } else {
      var objectX, camera := CenteredFails(carry, bias, margin, limit);
    }
  }

  lemma CenteredFails(carry: bool, bias: Word, margin: nat, limit: Word) returns (objectX: Word, camera: Word)
    requires 0 < limit
    requires CenteredReach(carry, bias) + margin > 0x8000 || limit - (CenteredReach(carry, bias) + margin) > 0x8000
    ensures var reach: int := CenteredReach(carry, bias) + margin;
            !(CenteredAccepts(objectX, camera, carry, bias, WinAdd(CENTERED_ADD, false, margin), limit)
              <==> Within(Distance(camera, objectX), -reach, limit - reach))
  {
    var e := SignedWindowFails(CenteredReach(carry, bias) + margin, limit);
    objectX, camera := Wrap(-e), 0;
    AtDistance(e);
    CenteredByDistance(objectX, camera, carry, bias, WinAdd(CENTERED_ADD, false, margin), limit, margin);
  }

  lemma AtDistance(e: int)
    requires -0x8000 <= e < 0x8000
    ensures Distance(0, Wrap(-e)) == e
  {
  }

  /** Growing the leading operand alone moves the window instead of widening it. */
  lemma CenteredShift(objectX: Word, camera: Word, carry: bool, bias: Word, margin: nat)
    requires CenteredReach(carry, bias) + margin <= 0x8000
    ensures CenteredAccepts(objectX, camera, carry, bias, WinAdd(CENTERED_ADD, false, margin), CENTERED_LIMIT)
       <==> Within(Distance(camera, objectX), -(CenteredReach(carry, bias) + margin),
                   CENTERED_LIMIT - CenteredReach(carry, bias) - margin)
  {
    CenteredWindow(carry, bias, margin, CENTERED_LIMIT);
  }

  /** The bounding-box form: both edges that it stores move out by the margin. */
  lemma BoxWidening(camera: Word, add: Word, margin: nat)
    ensures var left := Wrap(camera - WinAdd(add, false, margin));
            && left == Wrap(camera - (add + margin))
            && Wrap(left as int + WinLimit(Wrap(0x100 + 2 * add), false, margin)) == Wrap(camera + 0x100 + add + margin)
  {
    var left, limit := Wrap(camera - WinAdd(add, false, margin)), WinLimit(Wrap(0x100 + 2 * add), false, margin);
    var q1 := WrapParts(add + margin);
    WrapWhole(camera - WinAdd(add, false, margin), camera - (add + margin), q1);
    var q2 := WrapParts(0x100 + 2 * add);
    var q3 := WrapParts(Wrap(0x100 + 2 * add) + 2 * margin);
    var q4 := WrapParts(camera - WinAdd(add, false, margin));
    WrapWhole(left as int + limit, camera + 0x100 + add + margin, q1 - q2 - q3 - q4);
  }
}
