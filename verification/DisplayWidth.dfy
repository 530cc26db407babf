/** The frame-width arithmetic of src/x3_display.c, which decides the widths that a recording can
    contain. `extraMax` is the host's widest margin (kWsExtraMax). */
module DisplayWidth {
  import opened ReplayLog

  /** Clearing the low bit, then clamping to the legal range. */
  function ClampEven(extraMax: nat, value: int): (r: int)
    ensures WidthLegal(extraMax, r)
  {
    var even := value - value % 2;
    if even < 256 then 256
    else if even > 256 + 2 * extraMax then 256 + 2 * extraMax
    else even
  }

  /** 192 * width / height rounded half to even, then up to an even number. */
  function EvenWidth(width: int, height: int): int
    requires width > 0 && height > 0
  {
    var q, r := width * 192 / height, width * 192 % height;
    var rounded := if r * 2 > height || (r * 2 == height && q % 2 != 0) then q + 1 else q;
    if rounded % 2 != 0 then rounded + 1 else rounded
  }

  function ComputeFrameWidth(extraMax: nat, width: int, height: int, widescreen: bool): (r: int)
    ensures WidthLegal(extraMax, r)
  {
    if !widescreen || width <= 0 || height <= 0 then 256
    else ClampEven(extraMax, EvenWidth(width, height))
  }

  /** `r` is the least even integer that is at least 192 * width / height - 1/2. */
  predicate LeastEven(width: int, height: int, r: int)
    requires height > 0
  {
    r % 2 == 0 && 2 * height * r >= 384 * width - height && 2 * height * (r - 2) < 384 * width - height
  }

  lemma {:induction false} Scaled(height: int, a: int, b: int)
    requires height > 0 && a <= b
    ensures 2 * height * a <= 2 * height * b
    decreases b - a
  {
    if a < b {
      Scaled(height, a, b - 1);
    }
  }

  lemma LeastEvenMonotone(w1: int, w2: int, height: int, a: int, b: int)
    requires height > 0 && w1 <= w2 && LeastEven(w1, height, a) && LeastEven(w2, height, b)
    ensures a <= b
  {
    if b < a {
      Scaled(height, b, a - 2);
    }
  }

  lemma RoundedSteps(height: int, q: int, rest: int, e: int)
    requires 0 <= rest < height
    requires var rounded := if rest * 2 > height || (rest * 2 == height && q % 2 != 0) then q + 1 else q;
             e == if rounded % 2 != 0 then rounded + 1 else rounded
    ensures e % 2 == 0
    ensures (e == q && 2 * rest <= height) || e == q + 1 || (e == q + 2 && 2 * rest > height)
  {
  }

  lemma Spread(height: int, q: int, d: int, product: int)
    requires product == q * height
    ensures 2 * height * (q + d) == 2 * product + 2 * height * d
  {
  }

  lemma RoundedIsLeastEven(width: int, height: int, q: int, rest: int, product: int, e: int)
    requires height > 0 && product == q * height && width * 192 == product + rest && 0 <= rest < height
    requires e % 2 == 0
    requires (e == q && 2 * rest <= height) || e == q + 1 || (e == q + 2 && 2 * rest > height)
    ensures LeastEven(width, height, e)
  {
    if e == q {
      Spread(height, q, 0, product);
      Spread(height, q, -2, product);
    } else if e == q + 1 {
      Spread(height, q, 1, product);
      Spread(height, q, -1, product);
    } else {
      Spread(height, q, 2, product);
      Spread(height, q, 0, product);
    }
  }

  /** Before clamping, the rounding steps compute exactly that integer: the frame is never more than
      half a pixel too narrow nor as much as a pixel and a half too wide. */
  lemma EvenWidthIsLeastEven(width: int, height: int, r: int)
    requires width > 0 && height > 0
    ensures LeastEven(width, height, r) <==> r == EvenWidth(width, height)
  {
    var e := EvenWidth(width, height);
    var q, rest := width * 192 / height, width * 192 % height;
    RoundedSteps(height, q, rest, e);
    RoundedIsLeastEven(width, height, q, rest, q * height, e);
    if LeastEven(width, height, r) {
      LeastEvenMonotone(width, width, height, r, e);
      LeastEvenMonotone(width, width, height, e, r);
    }
  }

  // ----- the width itself

  /** `r` is the legal width nearest to the least even integer not below 192 * width / height - 1/2:
      no narrower than that unless it is the widest, no wider unless it is the narrowest. */
  predicate NearestLegal(extraMax: nat, width: int, height: int, r: int)
    requires height > 0
  {
    && 256 <= r <= 256 + 2 * extraMax && r % 2 == 0
    && (r < 256 + 2 * extraMax ==> 384 * width - height <= 2 * height * r)
    && (r > 256 ==> 2 * height * (r - 2) < 384 * width - height)
  }

  lemma ClampIsNearest(extraMax: nat, width: int, height: int, e: int)
    requires height > 0 && LeastEven(width, height, e)
    ensures NearestLegal(extraMax, width, height, ClampEven(extraMax, e))
  {
    var r := ClampEven(extraMax, e);
    if r < e {
      Scaled(height, r - 2, e - 2);
    } else if e < r {
      Scaled(height, e, r);
    }
  }

  lemma NearestIsOne(extraMax: nat, width: int, height: int, a: int, b: int)
    requires height > 0 && NearestLegal(extraMax, width, height, a) && NearestLegal(extraMax, width, height, b)
    ensures a == b
  {
    if a < b {
      Scaled(height, a, b - 2);
    } else if b < a {
      Scaled(height, b, a - 2);
    }
  }

  /** With widescreen on and a window of positive size, the computed width is the nearest legal one,
      and only that; otherwise it is 256. */
  lemma FrameWidthExactly(extraMax: nat, width: int, height: int, widescreen: bool, r: int)
    ensures widescreen && width > 0 && height > 0 ==>
              (ComputeFrameWidth(extraMax, width, height, widescreen) == r <==> NearestLegal(extraMax, width, height, r))
    ensures !widescreen || width <= 0 || height <= 0 ==> ComputeFrameWidth(extraMax, width, height, widescreen) == 256
  {
    if widescreen && width > 0 && height > 0 {
      var e, c := EvenWidth(width, height), ComputeFrameWidth(extraMax, width, height, widescreen);
      EvenWidthIsLeastEven(width, height, e);
      ClampIsNearest(extraMax, width, height, e);
      if NearestLegal(extraMax, width, height, r) {
        NearestIsOne(extraMax, width, height, c, r);
      }
    }
  }

  /** Where nothing is clamped, it is exactly the least even integer not below 192 w/h - 1/2. */
  lemma UnclampedExactly(extraMax: nat, width: int, height: int, e: int)
    requires width > 0 && height > 0 && LeastEven(width, height, e)
    ensures ComputeFrameWidth(extraMax, width, height, true) == e <==> 256 <= e <= 256 + 2 * extraMax
  {
    EvenWidthIsLeastEven(width, height, e);
    FrameWidthExactly(extraMax, width, height, true, e);
    if 256 <= e <= 256 + 2 * extraMax {
      assert NearestLegal(extraMax, width, height, e);
    }
  }

  lemma ClampMonotone(extraMax: nat, a: int, b: int)
    requires a <= b
    ensures ClampEven(extraMax, a) <= ClampEven(extraMax, b)
  {
  }

  /** A wider window never gets a narrower frame. */
  lemma WidthIsMonotone(extraMax: nat, w1: int, w2: int, height: int, widescreen: bool)
    requires w1 <= w2
    ensures ComputeFrameWidth(extraMax, w1, height, widescreen) <= ComputeFrameWidth(extraMax, w2, height, widescreen)
  {
    if widescreen && 0 < w1 && 0 < height {
      var a, b := EvenWidth(w1, height), EvenWidth(w2, height);
      EvenWidthIsLeastEven(w1, height, a);
      EvenWidthIsLeastEven(w2, height, b);
      LeastEvenMonotone(w1, w2, height, a, b);
      ClampMonotone(extraMax, a, b);
    }
  }
}
