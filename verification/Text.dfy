/** Number formatting and scanning: the printf and scanf conversions that the diagnostic log
    relies on, and the whitespace splitting of the inspection script. */
module Text {
  import opened Bytes

  predicate IsBase(base: nat) {
    base == 10 || base == 16
  }

  predicate IsDigit(base: nat, c: char)
    requires IsBase(base)
  {
    || '0' <= c <= '9'
    || (base == 16 && ('a' <= c <= 'f' || 'A' <= c <= 'F'))
  }

  predicate AllDigits(base: nat, t: string)
    requires IsBase(base)
  {
    forall i :: 0 <= i < |t| ==> IsDigit(base, t[i])
  }

  predicate IsSpace(c: char) {
    c == ' ' || c == '\t' || c == '\n' || c == '\r' || c == 11 as char || c == 12 as char
  }

  predicate NoSpace(t: string) {
    forall i :: 0 <= i < |t| ==> !IsSpace(t[i])
  }

  // ----- printing

  function DigitChar(d: nat): (c: char)
    requires d < 16
    ensures IsDigit(16, c) && (d < 10 ==> IsDigit(10, c)) && DigitValue(c) == d
  {
    if d < 10 then '0' + d as char else 'a' + (d - 10) as char
  }

  function DigitValue(c: char): (d: nat)
    requires IsDigit(16, c)
    ensures d < 16
  {
    if '0' <= c <= '9' then (c - '0') as nat
    else if 'a' <= c <= 'f' then (c - 'a') as nat + 10
    else (c - 'A') as nat + 10
  }

  /** The shortest numeral of `n`: %u, %d of a natural number, and %x. */
  function Numeral(base: nat, n: nat): (t: string)
    requires IsBase(base)
    ensures t != "" && AllDigits(base, t)
    decreases n
  {
    if n < base then [DigitChar(n)] else Numeral(base, n / base) + [DigitChar(n % base)]
  }

  /** Left padding with zeros, as %08x and %02x do. */
  function Padded(t: string, width: nat): (r: string)
    ensures |r| == if |t| < width then width else |t|
    decreases width - |t|
  {
    if |t| < width then Padded("0" + t, width) else t
  }

  function Dec(n: nat): string {
    Numeral(10, n)
  }

  function Hex(n: nat, width: nat): string {
    Padded(Numeral(16, n), width)
  }

  function Number(base: nat, t: string): nat
    requires IsBase(base) && AllDigits(base, t)
  {
    if t == "" then 0
    else Number(base, t[..|t| - 1]) * base + DigitValue(t[|t| - 1])
  }

  lemma {:induction false} NumeralValue(base: nat, n: nat)
    requires IsBase(base)
    ensures Number(base, Numeral(base, n)) == n
    decreases n
  {
    var t := Numeral(base, n);
    if n < base {
      assert t[..|t| - 1] == "";
    } else {
      NumeralValue(base, n / base);
      assert t[..|t| - 1] == Numeral(base, n / base);
    }
  }

  lemma {:induction false} LeadingZero(base: nat, t: string)
    requires IsBase(base) && AllDigits(base, t)
    ensures AllDigits(base, "0" + t) && Number(base, "0" + t) == Number(base, t)
  {
    var z := "0" + t;
    assert forall i :: 0 < i < |z| ==> z[i] == t[i - 1];
    if t == "" {
      assert z[..|z| - 1] == "";
    } else {
      LeadingZero(base, t[..|t| - 1]);
      assert z[..|z| - 1] == "0" + t[..|t| - 1];
    }
  }

  lemma {:induction false} PaddedValue(base: nat, t: string, width: nat)
    requires IsBase(base) && AllDigits(base, t)
    ensures AllDigits(base, Padded(t, width))
    ensures Number(base, Padded(t, width)) == Number(base, t)
    decreases width - |t|
  {
    if |t| < width {
      LeadingZero(base, t);
      PaddedValue(base, "0" + t, width);
    }
  }

  function Power(base: nat, k: nat): nat {
    if k == 0 then 1 else base * Power(base, k - 1)
  }

  lemma {:induction false} NumeralLength(base: nat, n: nat, k: nat)
    requires IsBase(base) && 1 <= k && n < Power(base, k)
    ensures |Numeral(base, n)| <= k
    decreases n
  {
    if n >= base {
      assert Power(base, k) == base * Power(base, k - 1);
      NumeralLength(base, n / base, k - 1);
    }
  }

  // ----- scanning

  function SkipSpace(t: string): (r: string)
    ensures |r| <= |t|
  {
    if t != "" && IsSpace(t[0]) then SkipSpace(t[1..]) else t
  }

  /** The length of the run of digits at the head of `t`. */
  function DigitRun(base: nat, t: string): (n: nat)
    requires IsBase(base)
    ensures n <= |t| && AllDigits(base, t[..n])
    ensures n < |t| ==> !IsDigit(base, t[n])
  {
    if t == "" || !IsDigit(base, t[0]) then 0
    else
      var n := DigitRun(base, t[1..]);
      assert forall i :: 1 <= i < n + 1 ==> t[i] == t[1..][i - 1];
      n + 1
  }

  predicate HexPrefix(t: string) {
    |t| >= 2 && t[0] == '0' && (t[1] == 'x' || t[1] == 'X')
  }

  /** One integer conversion: optional blanks, optional sign, for %x an optional 0x, then at
      least one digit. The mathematical value is returned with the unread text. */
  function ScanNumber(base: nat, t: string): Option<(int, string)>
    requires IsBase(base)
  {
    var a := SkipSpace(t);
    var signed := a != "" && (a[0] == '-' || a[0] == '+');
    var b := if signed then a[1..] else a;
    var c := if base == 16 && HexPrefix(b) then b[2..] else b;
    var n := DigitRun(base, c);
    if n == 0 then None
    else
      var value: int := Number(base, c[..n]);
      Some((if signed && a[0] == '-' then -value else value, c[n..]))
  }

  function ToUnsigned(v: int): (r: nat)
    ensures r < U32
    ensures 0 <= v < U32 ==> r == v
  {
    v % U32
  }

  function ToSigned(v: int): (r: int)
    ensures -0x8000_0000 <= r < 0x8000_0000
    ensures -0x8000_0000 <= v < 0x8000_0000 ==> r == v
  {
    (v + 0x8000_0000) % U32 - 0x8000_0000
  }

  predicate EndsToken(rest: string) {
    rest == "" || rest[0] == ' '
  }

  lemma {:induction false} RunOfDigits(base: nat, d: string, rest: string)
    requires IsBase(base) && AllDigits(base, d) && EndsToken(rest)
    ensures DigitRun(base, d + rest) == |d|
  {
    if d == "" {
      assert d + rest == rest;
    } else {
      assert (d + rest)[1..] == d[1..] + rest;
      RunOfDigits(base, d[1..], rest);
    }
  }

  /** Scanning undoes printing, for one field between single blanks. */
  lemma ScanDigits(base: nat, d: string, rest: string)
    requires IsBase(base) && d != "" && AllDigits(base, d) && EndsToken(rest)
    ensures ScanNumber(base, " " + d + rest) == Some((Number(base, d), rest))
  {
    var t := " " + d + rest;
    var a := d + rest;
    assert t[1..] == a;
    assert IsDigit(base, a[0]);
    assert SkipSpace(t) == a by {
      assert SkipSpace(a) == a;
    }
    if |a| >= 2 {
      assert a[1] == (if |d| > 1 then d[1] else rest[0]);
    }
    assert !HexPrefix(a);
    RunOfDigits(base, d, rest);
    assert a[..|d|] == d && a[|d|..] == rest;
  }

  lemma ScanDec(n: nat, rest: string)
    requires EndsToken(rest)
    ensures ScanNumber(10, " " + Dec(n) + rest) == Some((n, rest))
  {
    NumeralValue(10, n);
    ScanDigits(10, Dec(n), rest);
  }

  lemma ScanHex(n: nat, width: nat, rest: string)
    requires EndsToken(rest)
    ensures ScanNumber(16, " " + Hex(n, width) + rest) == Some((n, rest))
  {
    NumeralValue(16, n);
    PaddedValue(16, Numeral(16, n), width);
    ScanDigits(16, Hex(n, width), rest);
  }

  // ----- splitting

  function TokenLength(t: string): (n: nat)
    ensures n <= |t| && NoSpace(t[..n])
    ensures n < |t| ==> IsSpace(t[n])
  {
    if t == "" || IsSpace(t[0]) then 0
    else
      var n := TokenLength(t[1..]);
      assert forall i :: 1 <= i < n + 1 ==> t[i] == t[1..][i - 1];
      n + 1
  }

  /** str.split(): the maximal runs of non-blank characters. */
  function Fields(t: string): seq<string>
    decreases |t|
  {
    var a := SkipSpace(t);
    if a == "" then []
    else
      var n := TokenLength(a);
      if n == 0 then [] else [a[..n]] + Fields(a[n..])
  }

  predicate IsToken(t: string) {
    t != "" && NoSpace(t)
  }

  lemma {:induction false} TokenRun(w: string, rest: string)
    requires NoSpace(w) && EndsToken(rest)
    ensures TokenLength(w + rest) == |w|
  {
    if w == "" {
      assert w + rest == rest;
    } else {
      assert (w + rest)[1..] == w[1..] + rest;
      TokenRun(w[1..], rest);
    }
  }

  lemma FieldsHead(w: string, rest: string)
    requires IsToken(w) && EndsToken(rest)
    ensures Fields(w + rest) == [w] + Fields(rest)
  {
    var t := w + rest;
    assert t[0] == w[0];
    assert SkipSpace(t) == t;
    TokenRun(w, rest);
    assert t[..|w|] == w && t[|w|..] == rest;
  }

  lemma FieldsBlank(t: string)
    ensures Fields(" " + t) == Fields(t)
  {
    assert (" " + t)[1..] == t;
    assert SkipSpace(" " + t) == SkipSpace(t);
  }

  /** A blank and a field at the head of a line come off as one field. */
  lemma FieldsCons(w: string, rest: string)
    requires IsToken(w) && EndsToken(rest)
    ensures Fields(" " + w + rest) == [w] + Fields(rest)
  {
    assert " " + w + rest == " " + (w + rest);
    FieldsBlank(w + rest);
    FieldsHead(w, rest);
  }

  lemma DigitsAreToken(base: nat, t: string)
    requires IsBase(base) && t != "" && AllDigits(base, t)
    ensures IsToken(t)
  {
    assert forall i :: 0 <= i < |t| ==> IsDigit(base, t[i]);
  }

  lemma DecIsToken(n: nat)
    ensures IsToken(Dec(n))
  {
    DigitsAreToken(10, Dec(n));
  }

  lemma HexIsToken(n: nat, width: nat)
    ensures IsToken(Hex(n, width))
  {
    PaddedValue(16, Numeral(16, n), width);
    DigitsAreToken(16, Hex(n, width));
  }
}
