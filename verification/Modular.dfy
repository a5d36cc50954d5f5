/**
 Arithmetic modulo a number, as the browser's BigInt code does it: JavaScript's
 truncated remainder, `mod`, and square-and-multiply exponentiation.
 */
module Modular {

  /** The class of `a` modulo `m`. Two numbers are congruent when it is equal. */
  function Res(a: int, m: int): (r: int)
    requires m > 0
    ensures 0 <= r < m
  {
    a % m
  }

  /** BigInt's `%`, which takes the sign of the dividend. */
  function JsRem(a: int, m: int): int
    requires m > 0
  {
    if a >= 0 then a % m else -((-a) % m)
  }

  /** The source's `mod`. */
  function Mod(a: int, m: int): int
    requires m > 0
  {
    if JsRem(a, m) < 0 then JsRem(a, m) + m else JsRem(a, m)
  }

  function Pow(b: int, e: nat): int { if e == 0 then 1 else b * Pow(b, e - 1) }

  // -------------------------------------------------------------- congruence

  /** The remainder is the only number in range a multiple away. */
  lemma ResUnique(a: int, k: int, r: int, m: int)
    requires m > 0 && a == k * m + r && 0 <= r < m
    ensures Res(a, m) == r
  {
    var d := a / m - k;
    assert d * m == r - a % m;
    assert d >= 1 ==> d * m >= m;
    assert d <= -1 ==> d * m <= -m;
  }

  lemma ResShift(a: int, k: int, m: int)
    requires m > 0
    ensures Res(a + k * m, m) == Res(a, m)
  {
    assert a + k * m == (a / m + k) * m + a % m;
    ResUnique(a + k * m, a / m + k, a % m, m);
  }

  lemma ResAdd(a: int, b: int, c: int, d: int, m: int)
    requires m > 0 && Res(a, m) == Res(c, m) && Res(b, m) == Res(d, m)
    ensures Res(a + b, m) == Res(c + d, m)
    ensures Res(a - b, m) == Res(c - d, m)
  {
    var i, j := a / m - c / m, b / m - d / m;
    assert a == c + i * m && b == d + j * m;
    assert a + b == c + d + (i + j) * m;
    assert a - b == c - d + (i - j) * m;
    ResShift(c + d, i + j, m);
    ResShift(c - d, i - j, m);
  }

  lemma ResMul(a: int, b: int, c: int, d: int, m: int)
    requires m > 0 && Res(a, m) == Res(c, m) && Res(b, m) == Res(d, m)
    ensures Res(a * b, m) == Res(c * d, m)
  {
    var i, j := a / m - c / m, b / m - d / m;
    assert a == c + i * m && b == d + j * m;
    Expand(c, i, d, j, m);
    ResShift(c * d, c * j + i * d + i * (j * m), m);
  }

  lemma Expand(c: int, i: int, d: int, j: int, m: int)
    ensures (c + i * m) * (d + j * m) == c * d + (c * j + i * d + i * (j * m)) * m
  {
    var x := j * m;
    assert (c + i * m) * (d + x) == c * d + c * x + (i * m) * d + (i * m) * x;
    assert c * x == (c * j) * m && (i * m) * d == (i * d) * m && (i * m) * x == (i * x) * m;
  }

  lemma ResRes(a: int, m: int)
    requires m > 0
    ensures Res(Res(a, m), m) == Res(a, m)
  {
  }

  lemma ResSmall(a: int, m: int)
    requires 0 <= a < m
    ensures Res(a, m) == a
  {
  }

  lemma JsRemIsCongruent(a: int, m: int)
    requires m > 0
    ensures Res(JsRem(a, m), m) == Res(a, m)
    ensures -m < JsRem(a, m) < m
  {
    if a < 0 {
      var q := (-a) / m;
      assert JsRem(a, m) == a + q * m;
      ResShift(a, q, m);
    }
  }

  lemma ModIsRes(a: int, m: int)
    requires m > 0
    ensures Mod(a, m) == Res(a, m)
  {
    JsRemIsCongruent(a, m);
    if JsRem(a, m) < 0 {
      ResShift(JsRem(a, m), 1, m);
    }
    ResSmall(Mod(a, m), m);
  }

  // ---------------------------------------------------------- exponentiation

  lemma {:induction false} PowAdd(b: int, e: nat, f: nat)
    ensures Pow(b, e + f) == Pow(b, e) * Pow(b, f)
  {
    if e > 0 {
      PowAdd(b, e - 1, f);
      assert b * (Pow(b, e - 1) * Pow(b, f)) == (b * Pow(b, e - 1)) * Pow(b, f);
    }
  }

  lemma {:induction false} PowPositive(e: nat)
    ensures Pow(2, e) > 0
  {
    if e > 0 { PowPositive(e - 1); }
  }

  lemma PowNext(b: int, e: nat)
    ensures Pow(b, e + 1) == b * Pow(b, e)
  {
  }

  lemma {:induction false} PowSquare(b: int, e: nat)
    ensures Pow(b * b, e) == Pow(b, 2 * e)
  {
    if e > 0 {
      PowSquare(b, e - 1);
      PowAdd(b, 2, 2 * (e - 1));
      assert Pow(b, 2) == b * Pow(b, 1) && Pow(b, 1) == b * Pow(b, 0);
    }
  }

  lemma {:induction false} ResPow(a: int, b: int, e: nat, m: int)
    requires m > 0 && Res(a, m) == Res(b, m)
    ensures Res(Pow(a, e), m) == Res(Pow(b, e), m)
  {
    if e > 0 {
      ResPow(a, b, e - 1, m);
      ResMul(a, Pow(a, e - 1), b, Pow(b, e - 1), m);
    }
  }

  /** Squaring the base halves an even exponent. */
  lemma SquareBase(base: int, half: nat, m: int)
    requires m > 0
    ensures Res(Pow(Res(base * base, m), half), m) == Res(Pow(base, 2 * half), m)
  {
    ResRes(base * base, m);
    ResPow(Res(base * base, m), base * base, half, m);
    PowSquare(base, half);
  }

  lemma EvenStep(result: int, base: int, half: nat, m: int)
    requires m > 0
    ensures Res(result * Pow(Res(base * base, m), half), m) == Res(result * Pow(base, 2 * half), m)
  {
    hide Res, Pow;
    SquareBase(base, half, m);
    ResMul(result, Pow(Res(base * base, m), half), result, Pow(base, 2 * half), m);
  }

  lemma OddStep(result: int, base: int, half: nat, m: int)
    requires m > 0
    ensures Res(Res(result * base, m) * Pow(Res(base * base, m), half), m) == Res(result * Pow(base, 2 * half + 1), m)
  {
    hide Res, Pow;
    SquareBase(base, half, m);
    ResRes(result * base, m);
    ResMul(Res(result * base, m), Pow(Res(base * base, m), half), result * base, Pow(base, 2 * half), m);
    PowNext(base, 2 * half);
    MulAssoc(result, base, Pow(base, 2 * half));
  }

  lemma MulAssoc(a: int, b: int, c: int)
    ensures a * b * c == a * (b * c)
  {
  }

  /**
   modPow. The answer is base^exp mod m except when the loop never runs and the
   modulus is one: then the code answers 1, and 1 is not below the modulus.
   */
  method ModPow(base: int, exp: int, m: int) returns (result: int)
    requires m > 0
    ensures exp >= 0 ==> Res(result, m) == Res(Pow(base, exp), m)
    ensures exp >= 0 ==> (result == Res(Pow(base, exp), m) <==> m != 1 || exp != 0)
    ensures exp <= 0 ==> result == 1
  {
    hide Res, JsRem, Mod;
    result := 1;
    var b, e := Mod(base, m), exp;
    ModIsRes(base, m);
    ResRes(base, m);
    if exp >= 0 {
      ResPow(b, base, exp, m);
    }
    while e > 0
      invariant exp >= 0 ==> 0 <= e <= exp
      invariant exp >= 0 ==> Res(result * Pow(b, e), m) == Res(Pow(base, exp), m)
      invariant 0 <= b < m && result >= 0 && (result < m || (result == 1 && m == 1 && (e > 0 || exp <= 0)))
      invariant exp <= 0 ==> e == exp && result == 1
    {
      if e % 2 == 1 {
        OddStep(result, b, e / 2, m);
        JsRemOfNat(result, b, m);
        result := JsRem(result * b, m);
      } else {
        EvenStep(result, b, e / 2, m);
      }
      JsRemOfNat(b, b, m);
      b := JsRem(b * b, m);
      e := e / 2;
    }
    if exp >= 0 {
      assert Pow(b, 0) == 1 && result * 1 == result;
      if result < m { ResSmall(result, m); }
    }
  }

  lemma JsRemOfNat(a: int, b: int, m: int)
    requires a >= 0 && b >= 0 && m > 0
    ensures JsRem(a * b, m) == Res(a * b, m)
  {
    assert a * b >= 0;
  }
}
