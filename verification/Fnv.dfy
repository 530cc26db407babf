/** The 32-bit FNV-1a digest of the diagnostic log (src/mmx_replay.c). */
module Fnv {
  import opened Bytes

  const OFFSET_BASIS: nat := 2166136261
  const PRIME: nat := 16777619

  /** Bitwise exclusive or. */
  function Xor(a: nat, b: nat): nat {
    if a == 0 then b else (a % 2 + b % 2) % 2 + 2 * Xor(a / 2, b / 2)
  }

  /** One byte of the digest, in 32-bit arithmetic. */
  function Mix(h: nat, b: Byte): (r: nat)
    ensures r < U32
  {
    Xor(h, b) * PRIME % U32
  }

  /** The digest state after the bytes of `data`, oldest first. */
  function Fold(h: nat, data: seq<Byte>): (r: nat)
    ensures h < U32 ==> r < U32
    decreases data
  {
    if data == [] then h else Fold(Mix(h, data[0]), data[1..])
  }

  function Digest(data: seq<Byte>): (d: nat)
    ensures d < U32
  {
    Fold(OFFSET_BASIS, data)
  }

  /** Bit k of a number. */
  function BitOf(n: nat, k: nat): nat {
    if k == 0 then n % 2 else BitOf(n / 2, k - 1)
  }

  lemma XorHalves(a: nat, b: nat)
    requires a > 0
    ensures Xor(a, b) / 2 == Xor(a / 2, b / 2) && Xor(a, b) % 2 == (a % 2 + b % 2) % 2
  {
    var low := (a % 2 + b % 2) % 2;
    assert Xor(a, b) == low + 2 * Xor(a / 2, b / 2);
  }

  /** The recursion is exclusive or, bit by bit. */
  lemma {:induction false} XorBits(a: nat, b: nat, k: nat)
    ensures BitOf(Xor(a, b), k) == (BitOf(a, k) + BitOf(b, k)) % 2
    decreases k
  {
    if a == 0 {
      ZeroBits(k);
      BitIsBinary(b, k);
    } else if k == 0 {
      XorHalves(a, b);
    } else {
      XorHalves(a, b);
      XorBits(a / 2, b / 2, k - 1);
    }
  }

  lemma {:induction false} ZeroBits(k: nat)
    ensures BitOf(0, k) == 0
  {
    if k > 0 {
      ZeroBits(k - 1);
    }
  }

  lemma {:induction false} BitIsBinary(n: nat, k: nat)
    ensures BitOf(n, k) < 2
    decreases k
  {
    if k > 0 {
      BitIsBinary(n / 2, k - 1);
    }
  }

  /** hash_continue: the loop walks the buffer, the specification is the fold. */
  method HashContinue(start: nat, data: seq<Byte>) returns (h: nat)
    ensures h == Fold(start, data)
  {
    h := start;
    var i := 0;
    while i < |data|
      invariant 0 <= i <= |data|
      invariant Fold(start, data) == Fold(h, data[i..])
    {
      h := Mix(h, data[i]);
      i := i + 1;
    }
  }

  /** Hashing a buffer and then a second one is hashing the two joined: the player digests
      sprite memory in two parts, the recorder hands over one concatenated buffer. */
  lemma {:induction false} FoldJoin(h: nat, a: seq<Byte>, b: seq<Byte>)
    ensures Fold(Fold(h, a), b) == Fold(h, a + b)
    decreases a
  {
    if a == [] {
      assert a + b == b;
    } else {
      assert (a + b)[0] == a[0] && (a + b)[1..] == a[1..] + b;
      FoldJoin(Mix(h, a[0]), a[1..], b);
    }
  }

  // ----- one byte of difference shows

  lemma ParityBack(a: nat, b: nat)
    ensures (a % 2 + (a % 2 + b % 2) % 2) % 2 == b % 2
  {
  }

  lemma {:induction false} XorLeft(a: nat, b: nat)
    ensures Xor(a, Xor(a, b)) == b
  {
    if a > 0 {
      var x := Xor(a, b);
      XorHalves(a, b);
      XorHalves(a, x);
      ParityBack(a, b);
      XorLeft(a / 2, b / 2);
      assert Xor(a, x) / 2 == b / 2 && Xor(a, x) % 2 == b % 2;
    }
  }

  lemma {:induction false} XorZero(a: nat)
    ensures Xor(a, 0) == a
  {
    if a > 0 {
      XorZero(a / 2);
    }
  }

  lemma {:induction false} XorCommutes(a: nat, b: nat)
    ensures Xor(a, b) == Xor(b, a)
    decreases a
  {
    if a == 0 {
      XorZero(b);
    } else if b == 0 {
      XorZero(a);
    } else {
      XorCommutes(a / 2, b / 2);
    }
  }

  lemma XorRight(a: nat, b: nat)
    ensures Xor(Xor(a, b), b) == a
  {
    XorCommutes(Xor(a, b), b);
    XorCommutes(a, b);
    XorLeft(b, a);
  }

  function PowerOfTwo(k: nat): (p: nat)
    ensures p > 0
  {
    if k == 0 then 1 else 2 * PowerOfTwo(k - 1)
  }

  lemma {:induction false} XorBelow(a: nat, b: nat, k: nat)
    requires a < PowerOfTwo(k) && b < PowerOfTwo(k)
    ensures Xor(a, b) < PowerOfTwo(k)
    decreases k
  {
    if k > 0 {
      XorBelow(a / 2, b / 2, k - 1);
    }
  }

  lemma XorIsWord(h: nat, b: Byte)
    requires h < U32
    ensures Xor(h, b) < U32
  {
    assert PowerOfTwo(8) == 0x100 && PowerOfTwo(16) == 0x1_0000;
    assert PowerOfTwo(24) == 0x100_0000 && PowerOfTwo(32) == U32;
    XorBelow(h, b, 32);
  }

  /** The prime is odd, so multiplying by it can be undone in 32-bit arithmetic. */
  const INVERSE: nat := 899433627
  const CARRIED: nat := 3513497

  lemma TimesPrimeBack(u: nat)
    requires u < U32
    ensures u * PRIME % U32 * INVERSE % U32 == u
  {
    var k, m := u * PRIME / U32, u * PRIME % U32;
    assert PRIME * INVERSE == 1 + CARRIED * U32;
    assert m == u * PRIME - k * U32;
    assert m * INVERSE == u + (u * CARRIED - k * INVERSE) * U32;
    WordOf(m * INVERSE, u, u * CARRIED - k * INVERSE);
  }

  lemma WordOf(a: int, u: nat, q: int)
    requires u < U32 && a == u + q * U32
    ensures a % U32 == u
  {
  }

  lemma MixInjective(g: nat, x: Byte, h: nat, y: Byte)
    requires g < U32 && h < U32 && Mix(g, x) == Mix(h, y)
    ensures Xor(g, x) == Xor(h, y)
  {
    XorIsWord(g, x);
    XorIsWord(h, y);
    TimesPrimeBack(Xor(g, x));
    TimesPrimeBack(Xor(h, y));
  }

  /** Different digest states stay different over the same bytes. */
  lemma {:induction false} FoldInjective(g: nat, h: nat, data: seq<Byte>)
    requires g < U32 && h < U32 && Fold(g, data) == Fold(h, data)
    ensures g == h
    decreases data
  {
    if data != [] {
      FoldInjective(Mix(g, data[0]), Mix(h, data[0]), data[1..]);
      MixInjective(g, data[0], h, data[0]);
      XorRight(g, data[0]);
      XorRight(h, data[0]);
    }
  }

  /** Two buffers that differ in one byte have different digests. */
  lemma OneByteShows(h: nat, a: seq<Byte>, x: Byte, y: Byte, b: seq<Byte>)
    requires h < U32
    ensures Fold(h, a + [x] + b) == Fold(h, a + [y] + b) <==> x == y
  {
    FoldJoin(h, a + [x], b);
    FoldJoin(h, a + [y], b);
    FoldJoin(h, a, [x]);
    FoldJoin(h, a, [y]);
    var g := Fold(h, a);
    assert Fold(g, [x]) == Mix(g, x) && Fold(g, [y]) == Mix(g, y);
    if Fold(h, a + [x] + b) == Fold(h, a + [y] + b) {
      FoldInjective(Mix(g, x), Mix(g, y), b);
      MixInjective(g, x, g, y);
      XorLeft(g, x);
      XorLeft(g, y);
    }
  }

  /** Changing any one byte changes the digest. */
  lemma DigestNotices(data: seq<Byte>, i: nat, v: Byte)
    requires i < |data|
    ensures Digest(data[i := v]) == Digest(data) <==> v == data[i]
  {
    assert data == data[..i] + [data[i]] + data[i + 1..];
    assert data[i := v] == data[..i] + [v] + data[i + 1..];
    OneByteShows(OFFSET_BASIS, data[..i], data[i], v, data[i + 1..]);
  }

  // ----- the constants

  lemma FoldOne(h: nat, data: seq<Byte>)
    requires |data| == 1
    ensures Fold(h, data) == Xor(h, data[0]) * PRIME % U32
  {
    assert Fold(h, data) == Fold(Mix(h, data[0]), data[1..]);
  }

  lemma BasisTimesPrime(h: nat)
    requires h == 0x811C9DC5
    ensures h * PRIME % U32 == 0x050C5D1F
  {
  }

  /** The digests of nothing and of one zero byte are those of 32-bit FNV-1a. */
  lemma KnownDigests(data: seq<Byte>)
    ensures data == [] ==> Digest(data) == 0x811C9DC5
    ensures data == [0] ==> Digest(data) == 0x050C5D1F
  {
    if data == [0] {
      FoldOne(OFFSET_BASIS, data);
      XorZero(OFFSET_BASIS);
      BasisTimesPrime(OFFSET_BASIS);
    }
  }
}
