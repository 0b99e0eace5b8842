/**
  Java's primitive `int` arithmetic (32-bit two's complement, silently
  wrapping on overflow) and `String.hashCode`, which the value objects of
  the player build their hash codes from.
*/
module JavaInt {

  const TWO_31: int := 0x8000_0000
  const TWO_32: int := 0x1_0000_0000

  /** A value of Java's `int`. */
  type Int32 = x: int | -0x8000_0000 <= x < 0x8000_0000

  /** A Java `char`: one UTF-16 code unit. */
  type Char16 = c: int | 0 <= c < 0x1_0000

  /** A non-null Java `String`, as the sequence of its UTF-16 code units. */
  type JString = seq<Char16>

  /** The `int` that Java stores for the mathematical value `x`: the unique
      value in range that is congruent to `x` modulo 2^32. */
  function Wrap(x: int): (r: Int32)
    ensures (x - r) % TWO_32 == 0
  {
    var m := (x + TWO_31) % TWO_32;
    assert x + TWO_31 == TWO_32 * ((x + TWO_31) / TWO_32) + m;
    m - TWO_31
  }

  /** Java's `a + b` on two `int`s. */
  function Add(a: Int32, b: Int32): Int32
  {
    Wrap(a + b)
  }

  /** Java's `a * b` on two `int`s. */
  function Mul(a: Int32, b: Int32): Int32
  {
    Wrap(a * b)
  }

  lemma MultipleOfTwo32(x: int)
    requires x % TWO_32 == 0
    ensures x == TWO_32 * (x / TWO_32)
  {
  }

  /** Congruence modulo 2^32 pins the wrapped value down. */
  lemma WrapUnique(x: int, r: Int32)
    requires (x - r) % TWO_32 == 0
    ensures Wrap(x) == r
  {
    var w := Wrap(x);
    MultipleOfTwo32(x - w);
    MultipleOfTwo32(x - r);
    var d := (x - r) / TWO_32 - (x - w) / TWO_32;
    assert w - r == TWO_32 * d;
  }

  lemma SumOfMultiples(x: int, y: int)
    requires x % TWO_32 == 0 && y % TWO_32 == 0
    ensures (x + y) % TWO_32 == 0
  {
    MultipleOfTwo32(x);
    MultipleOfTwo32(y);
    assert x + y == TWO_32 * (x / TWO_32 + y / TWO_32);
  }

  lemma ScaledMultiple(k: int, x: int)
    requires x % TWO_32 == 0
    ensures (k * x) % TWO_32 == 0
  {
    MultipleOfTwo32(x);
    assert k * x == TWO_32 * (k * (x / TWO_32));
  }

  /** Values congruent modulo 2^32 wrap to the same `int`. */
  lemma WrapCongruent(x: int, y: int)
    requires (x - y) % TWO_32 == 0
    ensures Wrap(x) == Wrap(y)
  {
    SumOfMultiples(x - y, y - Wrap(y));
    WrapUnique(x, Wrap(y));
  }

  /** Wrapping an intermediate sum does not change the final wrapped value. */
  lemma WrapAddAbsorb(a: int, b: int)
    ensures Wrap(Wrap(a) + b) == Wrap(a + b)
  {
    var inner := Wrap(a) + b;
    SumOfMultiples(a - Wrap(a), inner - Wrap(inner));
    WrapUnique(a + b, Wrap(inner));
  }

  /** Wrapping an intermediate factor does not change the final wrapped product. */
  lemma WrapMulAbsorb(k: int, a: int)
    ensures Wrap(k * Wrap(a)) == Wrap(k * a)
  {
    var inner := k * Wrap(a);
    ScaledMultiple(k, a - Wrap(a));
    assert k * a - Wrap(inner) == k * (a - Wrap(a)) + (inner - Wrap(inner));
    SumOfMultiples(k * (a - Wrap(a)), inner - Wrap(inner));
    WrapUnique(k * a, Wrap(inner));
  }

  /** One step `acc = 31 * acc + x` of a Java hash fold gives the same
      `int` whether or not `acc` was already wrapped. */
  lemma FoldStep(acc: int, x: int)
    ensures Wrap(Wrap(31 * Wrap(acc)) + x) == Wrap(31 * acc + x)
  {
    WrapAddAbsorb(31 * Wrap(acc), x);
    WrapMulAbsorb(31, acc);
    WrapAddAbsorb(31 * acc, x);
  }

  /** `String.hashCode` as the JDK computes it: `h = 31 * h + s[i]` over
      the code units, in `int` arithmetic; the empty string hashes to 0. */
  function StringHash(s: JString): Int32
    decreases |s|
  {
    if s == [] then 0
    else Add(Mul(31, StringHash(s[..|s| - 1])), s[|s| - 1])
  }

  function Pow31(n: nat): nat
  {
    if n == 0 then 1 else 31 * Pow31(n - 1)
  }

  /** The documented value of `String.hashCode` before wrap-around:
      s[0]*31^(n-1) + s[1]*31^(n-2) + ... + s[n-1]. */
  function HashPolynomial(s: JString): int
  {
    if s == [] then 0 else s[0] * Pow31(|s| - 1) + HashPolynomial(s[1..])
  }

  /** Appending one code unit multiplies the polynomial by 31 and adds it (Horner's rule). */
  lemma {:induction false} HashPolynomialSnoc(s: JString, c: Char16)
    ensures HashPolynomial(s + [c]) == 31 * HashPolynomial(s) + c
  {
    if s == [] {
      assert HashPolynomial([c]) == c * Pow31(0) + HashPolynomial([]);
    } else {
      assert (s + [c])[1..] == s[1..] + [c];
      HashPolynomialSnoc(s[1..], c);
      assert Pow31(|s|) == 31 * Pow31(|s| - 1);
      calc {
        HashPolynomial(s + [c]);
        s[0] * Pow31(|s|) + HashPolynomial(s[1..] + [c]);
        s[0] * (31 * Pow31(|s| - 1)) + 31 * HashPolynomial(s[1..]) + c;
        { assert s[0] * (31 * Pow31(|s| - 1)) == 31 * (s[0] * Pow31(|s| - 1)); }
        31 * (s[0] * Pow31(|s| - 1) + HashPolynomial(s[1..])) + c;
      }
    }
  }

  /** The iterative, wrapping computation of `String.hashCode` yields the
      documented polynomial reduced to a Java `int`. */
  lemma {:induction false} StringHashIsPolynomial(s: JString)
    ensures StringHash(s) == Wrap(HashPolynomial(s))
  {
    if s == [] {
      WrapUnique(0, 0);
    } else {
      var p, c := s[..|s| - 1], s[|s| - 1];
      assert s == p + [c];
      StringHashIsPolynomial(p);
      HashPolynomialSnoc(p, c);
      calc {
        StringHash(s);
        Wrap(Wrap(31 * StringHash(p)) + c);
        { WrapAddAbsorb(31 * StringHash(p), c); }
        Wrap(31 * Wrap(HashPolynomial(p)) + c);
        { WrapMulAbsorb(31, HashPolynomial(p));
          WrapAddAbsorb(31 * Wrap(HashPolynomial(p)), c);
          WrapAddAbsorb(31 * HashPolynomial(p), c); }
        Wrap(31 * HashPolynomial(p) + c);
      }
    }
  }
}
