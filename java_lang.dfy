/** The parts of java.lang the generators and the harness rely on: null as an
    option, the fixed-width `int` and `long` types with their wrap-around,
    `Math.abs`, the truncating `/` and `%`, and `String.hashCode` over UTF-16
    code units. */
module JavaLang {

  /** A reference that may be null. */
  datatype Option<T> = None | Some(value: T)

  /** The exceptions the modelled code can raise. */
  datatype Exception =
    | ArithmeticException                      // integer division by zero
    | ArrayIndexOutOfBoundsException(index: int)
    | IllegalArgumentException                 // e.g. a negative initial capacity
    | JsonProcessingException                  // raised by the codec under test
    | IOException                              // raised while compressing

  /** A call that returns a value or throws. */
  datatype Outcome<T> = Return(value: T) | Throw(exception: Exception)

  const TwoTo32: int := 0x1_0000_0000
  const TwoTo64: int := 0x1_0000_0000_0000_0000
  const MinInt: int := -0x8000_0000
  const MaxInt: int := 0x7fff_ffff
  const MinLong: int := -0x8000_0000_0000_0000
  const MaxLong: int := 0x7fff_ffff_ffff_ffff

  /** Java `int`. */
  type Int32 = x: int | -0x8000_0000 <= x <= 0x7fff_ffff
  /** Java `long`. */
  type Int64 = x: int | -0x8000_0000_0000_0000 <= x <= 0x7fff_ffff_ffff_ffff

  /** The `int` that a Java `int` operation with exact result x produces:
      the unique value in range that is congruent to x modulo 2^32. */
  function Wrap32(x: int): (r: Int32)
    ensures (x - r) % 0x1_0000_0000 == 0
    ensures (-0x8000_0000) <= x <= 0x7fff_ffff ==> r == x
  {
    var m := x % 0x1_0000_0000;
    assert x == 0x1_0000_0000 * (x / 0x1_0000_0000) + m;
    if m <= 0x7fff_ffff then m else m - 0x1_0000_0000
  }

  /** The `long` that a Java `long` operation with exact result x produces. */
  function Wrap64(x: int): (r: Int64)
    ensures (x - r) % 0x1_0000_0000_0000_0000 == 0
    ensures (-0x8000_0000_0000_0000) <= x <= 0x7fff_ffff_ffff_ffff ==> r == x
  {
    var m := x % 0x1_0000_0000_0000_0000;
    assert x == 0x1_0000_0000_0000_0000 * (x / 0x1_0000_0000_0000_0000) + m;
    if m <= 0x7fff_ffff_ffff_ffff then m else m - 0x1_0000_0000_0000_0000
  }

  /** Wrap32(x) is the one int that differs from x by a multiple of 2^32. */
  lemma Wrap32Unique(x: int, r: int, q: int)
    requires x == r + 0x1_0000_0000 * q && (-0x8000_0000) <= r <= 0x7fff_ffff
    ensures Wrap32(x) == r
  {
    var d, m := x / 0x1_0000_0000, x % 0x1_0000_0000;
    assert x == 0x1_0000_0000 * d + m && 0 <= m < 0x1_0000_0000;
    var t := d - q;
    assert r - m == 0x1_0000_0000 * t;
    assert -1 <= t <= 0;
  }

  /** Wrap64(x) is the one long that differs from x by a multiple of 2^64. */
  lemma Wrap64Unique(x: int, r: int, q: int)
    requires x == r + 0x1_0000_0000_0000_0000 * q && (-0x8000_0000_0000_0000) <= r <= 0x7fff_ffff_ffff_ffff
    ensures Wrap64(x) == r
  {
    var d, m := x / 0x1_0000_0000_0000_0000, x % 0x1_0000_0000_0000_0000;
    assert x == 0x1_0000_0000_0000_0000 * d + m && 0 <= m < 0x1_0000_0000_0000_0000;
    var t := d - q;
    assert r - m == 0x1_0000_0000_0000_0000 * t;
    assert -1 <= t <= 0;
  }

  /** The multiple of 2^32 that Wrap32 removes. */
  function Wrap32Carry(x: int): int
  {
    (x + 0x8000_0000) / 0x1_0000_0000
  }

  /** The multiple of 2^64 that Wrap64 removes. */
  function Wrap64Carry(x: int): int
  {
    (x + 0x8000_0000_0000_0000) / 0x1_0000_0000_0000_0000
  }

  lemma Wrap32Decompose(x: int)
    ensures x == Wrap32(x) + 0x1_0000_0000 * Wrap32Carry(x)
  {
    var y := x + 0x8000_0000;
    assert y == 0x1_0000_0000 * Wrap32Carry(x) + y % 0x1_0000_0000;
    Wrap32Unique(x, y % 0x1_0000_0000 - 0x8000_0000, Wrap32Carry(x));
  }

  lemma Wrap64Decompose(x: int)
    ensures x == Wrap64(x) + 0x1_0000_0000_0000_0000 * Wrap64Carry(x)
  {
    var y := x + 0x8000_0000_0000_0000;
    assert y == 0x1_0000_0000_0000_0000 * Wrap64Carry(x) + y % 0x1_0000_0000_0000_0000;
    Wrap64Unique(x, y % 0x1_0000_0000_0000_0000 - 0x8000_0000_0000_0000, Wrap64Carry(x));
  }

  /** Wrap32 depends only on the residue of its argument. */
  lemma Wrap32Congruent(x: int, y: int)
    requires (x - y) % 0x1_0000_0000 == 0
    ensures Wrap32(x) == Wrap32(y)
  {
    var k := (x - y) / 0x1_0000_0000;
    assert x - y == 0x1_0000_0000 * k;
    Wrap32Decompose(y);
    Wrap32Unique(x, Wrap32(y), k + Wrap32Carry(y));
  }

  /** Wrap64 depends only on the residue of its argument. */
  lemma Wrap64Congruent(x: int, y: int)
    requires (x - y) % 0x1_0000_0000_0000_0000 == 0
    ensures Wrap64(x) == Wrap64(y)
  {
    var k := (x - y) / 0x1_0000_0000_0000_0000;
    assert x - y == 0x1_0000_0000_0000_0000 * k;
    Wrap64Decompose(y);
    Wrap64Unique(x, Wrap64(y), k + Wrap64Carry(y));
  }

  /** Adding two longs in `long` arithmetic gives the wrapped exact sum. */
  lemma Wrap64Add(a: int, b: int)
    ensures Wrap64(Wrap64(a) + Wrap64(b)) == Wrap64(a + b)
  {
    Wrap64Decompose(a);
    Wrap64Decompose(b);
    Wrap64Decompose(a + b);
    Wrap64Unique(Wrap64(a) + Wrap64(b), Wrap64(a + b), Wrap64Carry(a + b) - Wrap64Carry(a) - Wrap64Carry(b));
  }

  /** Wrapping an intermediate result of 31 * h + c does not change the wrapped value. */
  lemma Wrap32MulAdd(h: int, c: int)
    ensures Wrap32(31 * Wrap32(h) + c) == Wrap32(31 * h + c)
  {
    Wrap32Decompose(h);
    Wrap32Decompose(31 * h + c);
    Wrap32Unique(31 * Wrap32(h) + c, Wrap32(31 * h + c), Wrap32Carry(31 * h + c) - 31 * Wrap32Carry(h));
  }

  /** x * n written as n-fold addition. Used for the one product of two
      variables in the model so that only the lemmas about it reason about
      non-linear arithmetic. */
  function Times(x: int, n: nat): int
  {
    if n == 0 then 0 else Times(x, n - 1) + x
  }

  lemma {:induction false} TimesIsProduct(x: int, n: nat)
    ensures Times(x, n) == x * n
  {
    if n > 0 {
      TimesIsProduct(x, n - 1);
    }
  }

  /** Mathematical absolute value (not Java's). */
  function Mag(x: int): nat
  {
    if x < 0 then -x else x
  }

  /** Java `Math.abs(int)`: -x computed in `int`, so MIN_VALUE stays negative. */
  function AbsInt(x: Int32): (r: Int32)
    ensures x != (-0x8000_0000) ==> r == Mag(x)
    ensures x == (-0x8000_0000) ==> r == (-0x8000_0000)
  {
    if x == -0x8000_0000 then x else Mag(x)
  }

  /** `Math.abs(int)` is negation in `int` arithmetic for negative arguments. */
  lemma AbsIntNegates(x: Int32)
    requires x < 0
    ensures AbsInt(x) == Wrap32(-(x as int))
  {
    if x == -0x8000_0000 {
      Wrap32Congruent(-(x as int), x);
    }
  }

  /** Java `Math.abs(long)`: -x computed in `long`, so MIN_VALUE stays negative. */
  function AbsLong(x: Int64): (r: Int64)
    ensures x != (-0x8000_0000_0000_0000) ==> r == Mag(x)
    ensures x == (-0x8000_0000_0000_0000) ==> r == (-0x8000_0000_0000_0000)
  {
    if x == -0x8000_0000_0000_0000 then x else Mag(x)
  }

  /** `Math.abs(long)` is negation in `long` arithmetic for negative arguments. */
  lemma AbsLongNegates(x: Int64)
    requires x < 0
    ensures AbsLong(x) == Wrap64(-(x as int))
  {
    if x == -0x8000_0000_0000_0000 {
      Wrap64Congruent(-(x as int), x);
    }
  }

  /** Euclidean division of a natural number by a positive one is natural. */
  lemma NatDivision(n: nat, d: int)
    requires d > 0
    ensures n / d >= 0
  {
    var k, r := n / d, n % d;
    assert n == d * k + r && 0 <= r < d;
    assert d * (k + 1) > 0;
  }

  /** Java `/` on integers before the result is narrowed: truncation toward zero. */
  function Quot(a: int, b: int): (q: int)
    requires b != 0
    ensures Mag(q) == Mag(a) / Mag(b)
    ensures q < 0 ==> (a < 0) != (b < 0)
    ensures q > 0 ==> (a < 0) == (b < 0)
  {
    NatDivision(Mag(a), Mag(b));
    var k := Mag(a) / Mag(b);
    if (a < 0) == (b < 0) then k else -k
  }

  /** Java `%` on integers: the remainder of truncating division, whose sign follows a. */
  function Rem(a: int, b: int): (r: int)
    requires b != 0
    ensures a == b * Quot(a, b) + r
    ensures Mag(r) < Mag(b)
    ensures a >= 0 ==> r >= 0
    ensures a <= 0 ==> r <= 0
  {
    QuotTimesDivisor(a, b);
    var r := Mag(a) % Mag(b);
    if a < 0 then -r else r
  }

  /** The product of the divisor and the truncated quotient, in terms of the
      magnitudes. */
  lemma QuotTimesDivisor(a: int, b: int)
    requires b != 0
    ensures Mag(a) == Mag(b) * (Mag(a) / Mag(b)) + Mag(a) % Mag(b)
    ensures b * Quot(a, b) == (if a < 0 then -(Mag(b) * (Mag(a) / Mag(b))) else Mag(b) * (Mag(a) / Mag(b)))
  {
    var mb, k := Mag(b), Mag(a) / Mag(b);
    if b < 0 {
      assert b * k == -(mb * k);
      assert b * -k == mb * k;
    } else {
      assert b * -k == -(mb * k);
    }
  }

  /** The UTF-16 code units that Java stores for a string of Unicode scalar values. */
  function Utf16(s: string): (u: seq<int>)
    ensures |u| >= |s|
  {
    if s == [] then []
    else
      var c := s[0] as int;
      var head := if c < 0x1_0000 then [c] else [0xD800 + (c - 0x1_0000) / 0x400, 0xDC00 + (c - 0x1_0000) % 0x400];
      head + Utf16(s[1..])
  }

  /** Every code unit is a 16-bit value, and text without supplementary
      characters is stored as its own code points, one unit per character. */
  lemma {:induction false} Utf16Units(s: string)
    ensures forall k :: 0 <= k < |Utf16(s)| ==> 0 <= Utf16(s)[k] < 0x1_0000
    ensures (forall k :: 0 <= k < |s| ==> s[k] as int < 0x1_0000) ==>
      |Utf16(s)| == |s| && forall k :: 0 <= k < |s| ==> Utf16(s)[k] == s[k] as int
  {
    if s != [] {
      Utf16Units(s[1..]);
      var c := s[0] as int;
      var head := if c < 0x1_0000 then [c] else [0xD800 + (c - 0x1_0000) / 0x400, 0xDC00 + (c - 0x1_0000) % 0x400];
      assert Utf16(s) == head + Utf16(s[1..]);
      forall k | 0 <= k < |Utf16(s)| ensures 0 <= Utf16(s)[k] < 0x1_0000 {
        if k >= |head| {
          assert Utf16(s)[k] == Utf16(s[1..])[k - |head|];
        }
      }
      if forall k :: 0 <= k < |s| ==> s[k] as int < 0x1_0000 {
        forall k | 0 <= k < |s[1..]| ensures s[1..][k] as int < 0x1_0000 {
          assert s[1..][k] == s[k + 1];
        }
        forall k | 0 <= k < |s| ensures Utf16(s)[k] == s[k] as int {
          if k > 0 {
            assert Utf16(s)[k] == Utf16(s[1..])[k - 1];
            assert s[1..][k - 1] == s[k];
          }
        }
      }
    }
  }

  /** Java `String.length()`: the number of UTF-16 code units. */
  function Length(s: string): nat
  {
    |Utf16(s)|
  }

  /** A string Java can hold: at most Integer.MAX_VALUE code units. */
  type JString = s: string | Length(s) <= 0x7fff_ffff

  /** The loop `h = 31 * h + u` in `int`, over a sequence of code units. */
  function HashUnits(u: seq<int>): Int32
  {
    if u == [] then 0 else Wrap32(31 * HashUnits(u[..|u| - 1]) + u[|u| - 1])
  }

  /** Java `String.hashCode()`. */
  function HashCode(s: string): Int32
  {
    HashUnits(Utf16(s))
  }

  function Pow31(k: nat): nat
  {
    if k == 0 then 1 else 31 * Pow31(k - 1)
  }

  /** The documented value of `String.hashCode()` with exact arithmetic:
      u[0]*31^(n-1) + u[1]*31^(n-2) + ... + u[n-1]. */
  function HashPolynomial(u: seq<int>): int
  {
    if u == [] then 0 else u[0] * Pow31(|u| - 1) + HashPolynomial(u[1..])
  }

  lemma {:induction false} HashPolynomialSnoc(u: seq<int>, c: int)
    ensures HashPolynomial(u + [c]) == 31 * HashPolynomial(u) + c
  {
    if u == [] {
      assert [c][1..] == [];
    } else {
      assert (u + [c])[1..] == u[1..] + [c];
      HashPolynomialSnoc(u[1..], c);
      calc {
        HashPolynomial(u + [c]);
        u[0] * Pow31(|u|) + HashPolynomial(u[1..] + [c]);
        u[0] * (31 * Pow31(|u| - 1)) + 31 * HashPolynomial(u[1..]) + c;
        { assert u[0] * (31 * Pow31(|u| - 1)) == 31 * (u[0] * Pow31(|u| - 1)); }
        31 * (u[0] * Pow31(|u| - 1) + HashPolynomial(u[1..])) + c;
      }
    }
  }

  /** The wrapping hash loop computes the documented polynomial, reduced to `int`. */
  lemma {:induction false} HashUnitsIsPolynomial(u: seq<int>)
    ensures HashUnits(u) == Wrap32(HashPolynomial(u))
  {
    if u != [] {
      var init, last := u[..|u| - 1], u[|u| - 1];
      assert u == init + [last];
      HashUnitsIsPolynomial(init);
      HashPolynomialSnoc(init, last);
      Wrap32MulAdd(HashPolynomial(init), last);
    }
  }

  /** The empty string hashes to 0. */
  lemma EmptyHashCode()
    ensures HashCode("") == 0 && Length("") == 0
  {
  }
}
