/**
 Fermat's theorem for a prime modulus: the inverse that the P-256 code computes as a
 power is one. The residues a, 2a, ... of a non-zero a are all the non-zero residues.
 */
module Fermat {
  import opened Modular

  ghost predicate Prime(p: int) {
    p > 1 && forall d :: 1 < d < p ==> p % d != 0
  }

  lemma MultipleIsZero(k: int, p: int)
    requires p > 0
    ensures Res(k * p, p) == 0
  {
    ResUnique(k * p, k, 0, p);
  }

  lemma ZeroIsMultiple(a: int, p: int) returns (k: int)
    requires p > 0 && Res(a, p) == 0
    ensures a == k * p
  {
    k := a / p;
  }

  lemma Remainder(p: int, q: int, a: int, r: int, b: int, k: int)
    requires p == q * a + r && a * b == k * p
    ensures r * b == (b - q * k) * p
  {
    assert r * b == p * b - (q * a) * b;
    assert (q * a) * b == q * (a * b) == (q * k) * p;
  }

  /** A prime divides a product only through a factor. */
  lemma {:induction false} Euclid(a: int, b: int, p: int)
    requires Prime(p) && 0 < a < p && Res(a * b, p) == 0
    ensures Res(b, p) == 0
    decreases a
  {
    if a > 1 {
      hide Res;
      var q, r := p / a, p % a;
      var k := ZeroIsMultiple(a * b, p);
      Remainder(p, q, a, r, b, k);
      MultipleIsZero(b - q * k, p);
      Euclid(r, b, p);
    } else {
      assert a * b == b;
    }
  }

  // -------------------------------------------------------- products over sets

  ghost function Product(s: set<nat>): int {
    if s == {} then 1
    else
      var x :| x in s;
      x * Product(s - {x})
  }

  /** The order of the factors does not matter. */
  lemma {:induction false} ProductInsert(s: set<nat>, x: nat)
    requires x !in s
    ensures Product(s + {x}) == x * Product(s)
    decreases |s|
  {
    var all := s + {x};
    var y := SomeFactor(all);
    hide Product;
    if y == x {
      assert all - {x} == s;
    } else {
      var rest := s - {y};
      assert all - {y} == rest + {x} && s == rest + {y};
      ProductInsert(rest, x);
      ProductInsert(rest, y);
      Swap(x, y, Product(rest));
    }
  }

  lemma SomeFactor(s: set<nat>) returns (y: nat)
    requires s != {}
    ensures y in s && Product(s) == y * Product(s - {y})
  {
    y :| y in s && Product(s) == y * Product(s - {y});
  }

  lemma Swap(x: int, y: int, z: int)
    ensures y * (x * z) == x * (y * z)
  {
  }

  // ------------------------------------------------------------- the multiples

  /** The residues of a, 2a, ..., na. */
  ghost function Multiples(a: int, n: nat, p: int): set<nat>
    requires p > 0
  {
    if n == 0 then {} else Multiples(a, n - 1, p) + {Res(a * n, p)}
  }

  lemma {:induction false} MultipleOf(a: int, n: nat, p: int, x: nat) returns (i: nat)
    requires p > 0 && x in Multiples(a, n, p)
    ensures 1 <= i <= n && x == Res(a * i, p)
  {
    if x == Res(a * n, p) { i := n; } else { i := MultipleOf(a, n - 1, p, x); }
  }

  /** Different multiples of a non-zero residue differ. */
  lemma MultiplesDiffer(a: int, i: nat, j: nat, p: int)
    requires Prime(p) && 0 < a < p && i < j < p
    ensures Res(a * j, p) != Res(a * i, p)
  {
    hide Res, Prime;
    if Res(a * j, p) == Res(a * i, p) {
      SameResidue(a * j, a * i, p);
      Factored(a, j, i);
      Euclid(a, j - i, p);
      ResSmall(j - i, p);
      assert false;
    }
  }

  lemma SameResidue(x: int, y: int, p: int)
    requires p > 0 && Res(x, p) == Res(y, p)
    ensures Res(x - y, p) == 0
  {
    hide Res;
    ResAdd(x, y, y, y, p);
    MultipleIsZero(0, p);
  }

  lemma Factored(a: int, j: int, i: int)
    ensures a * j - a * i == a * (j - i)
  {
  }

  lemma {:induction false} MultiplesAreMany(a: int, n: nat, p: int)
    requires Prime(p) && 0 < a < p && n < p
    ensures |Multiples(a, n, p)| == n
    ensures forall x :: x in Multiples(a, n, p) ==> 0 < x < p
    ensures n + 1 < p ==> Res(a * (n + 1), p) !in Multiples(a, n, p)
  {
    hide Res;
    if n > 0 {
      MultiplesAreMany(a, n - 1, p);
      MultiplesDiffer(a, 0, n, p);
      assert a * 0 == 0 && Res(0, p) == 0 by { MultipleIsZero(0, p); }
    }
    if n + 1 < p && Res(a * (n + 1), p) in Multiples(a, n, p) {
      var i := MultipleOf(a, n, p, Res(a * (n + 1), p));
      MultiplesDiffer(a, i, n + 1, p);
      assert false;
    }
  }

  function Factorial(n: nat): int { if n == 0 then 1 else n * Factorial(n - 1) }

  /** The product of the multiples is a^n n!. */
  lemma {:induction false} ProductOfMultiples(a: int, n: nat, p: int)
    requires Prime(p) && 0 < a < p && n < p
    ensures Res(Product(Multiples(a, n, p)), p) == Res(Pow(a, n) * Factorial(n), p)
  {
    hide Res, Product;
    if n > 0 {
      var before := Multiples(a, n - 1, p);
      ProductOfMultiples(a, n - 1, p);
      MultiplesAreMany(a, n - 1, p);
      ProductInsert(before, Res(a * n, p));
      ResRes(a * n, p);
      ResMul(Res(a * n, p), Product(before), a * n, Pow(a, n - 1) * Factorial(n - 1), p);
      Shuffle(a, n, Pow(a, n - 1), Factorial(n - 1));
    } else {
      EmptyProduct();
    }
  }

  lemma EmptyProduct()
    ensures Product({}) == 1
  {
  }

  lemma Shuffle(a: int, n: int, x: int, y: int)
    ensures (a * n) * (x * y) == (a * x) * (n * y)
  {
  }

  /** There are only p - 1 non-zero residues, so the multiples are all of them. */
  lemma AllResidues(a: int, p: int)
    requires Prime(p) && 0 < a < p
    ensures Multiples(a, p - 1, p) == Multiples(1, p - 1, p)
  {
    MultiplesAreMany(a, p - 1, p);
    MultiplesAreMany(1, p - 1, p);
    var s, t := Multiples(a, p - 1, p), Multiples(1, p - 1, p);
    forall x | 0 < x < p ensures x in t {
      OwnMultiple(x, p - 1, p);
    }
    assert s <= t;
    if s != t {
      SmallerSubset(s, t);
      assert false;
    }
  }

  lemma {:induction false} OwnMultiple(x: int, n: nat, p: int)
    requires 0 < x <= n < p
    ensures x in Multiples(1, n, p)
  {
    if x == n { ResSmall(n, p); } else { OwnMultiple(x, n - 1, p); }
  }

  lemma SmallerSubset(s: set<nat>, t: set<nat>)
    requires s < t
    ensures |s| < |t|
  {
    assert t == s + (t - s);
    assert t - s != {};
  }

  lemma {:induction false} CancelFactorial(b: int, n: nat, p: int)
    requires Prime(p) && n < p && Res(b * Factorial(n), p) == 0
    ensures Res(b, p) == 0
  {
    hide Res;
    if n > 0 {
      assert b * (n * Factorial(n - 1)) == n * (b * Factorial(n - 1));
      Euclid(n, b * Factorial(n - 1), p);
      CancelFactorial(b, n - 1, p);
    } else {
      assert b * 1 == b;
    }
  }

  lemma {:induction false} PowOfOne(n: nat)
    ensures Pow(1, n) == 1
  {
    if n > 0 { PowOfOne(n - 1); }
  }

  /** Fermat: a^(p-1) leaves one. */
  lemma FermatLittle(a: int, p: int)
    requires Prime(p) && 0 < a < p
    ensures Res(Pow(a, p - 1), p) == 1
  {
    hide Product, Multiples, Res, Factorial, Pow;
    var f, w := Factorial(p - 1), Pow(a, p - 1);
    AllResidues(a, p);
    ProductOfMultiples(a, p - 1, p);
    ProductOfMultiples(1, p - 1, p);
    PowOfOne(p - 1);
    assert 1 * f == f && Res(w * f, p) == Res(f, p);
    ResAdd(w * f, f, f, f, p);
    MultipleIsZero(0, p);
    assert w * f - f == (w - 1) * f && f - f == 0 * p;
    CancelFactorial(w - 1, p - 1, p);
    var k := ZeroIsMultiple(w - 1, p);
    ResUnique(w, k, 1, p);
  }
}
