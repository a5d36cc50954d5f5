/**
 Scalar multiplication on the P-256 curve as the browser does it: Jacobian
 coordinates, one inversion at the end. The reference is the affine
 chord-and-tangent law of section 2.2.1 of SEC 1.

 The field prime is a parameter of the laws; what they need of it is `Field`:
 that p is above three and that the inverse the code computes, a^(p-2), is an
 inverse. Fermat's theorem gives that for every prime above three.
 */
module P256 {
  import opened ByteStrings
  import opened Modular
  import opened Options
  import Fermat

  const P: int := 0xffffffff00000001000000000000000000000000ffffffffffffffffffffffff
  const B: int := 0x5ac635d8aa3a93e7b3ebbd55769886bc651d06b0cc53b0f63bce3c3e27d2604b
  const GX: int := 0x6b17d1f2e12c4247f8bce6e563a440f277037d812deb33a0f4a13945d898c296
  const GY: int := 0x4fe342e2fe1a7f9b8ee7eb4a7c0f9e162bce33576b315ececbb6406837bf51f5

  /** The order of the generator. */
  const N: int := 0xffffffff00000000ffffffffffffffffbce6faada7179e84f3b9cac2fc632551

  datatype Jac = Jac(x: int, y: int, z: int)
  datatype Point = Infinity | Affine(x: int, y: int)

  ghost predicate Field(p: int) {
    p > 3 && forall a :: 0 < a < p ==> Res(a * Inverse(a, p), p) == 1
  }

  /** What modInv returns. */
  function Inverse(a: int, p: int): int
    requires p > 2
  {
    Res(Pow(a, p - 2), p)
  }

  /** For a prime, the power is an inverse. */
  lemma PrimeIsField(p: int)
    requires Fermat.Prime(p) && p > 3
    ensures Field(p)
  {
    hide Res, Pow;
    forall a | 0 < a < p ensures Res(a * Inverse(a, p), p) == 1 {
      var w := Pow(a, p - 2);
      Fermat.FermatLittle(a, p);
      PowNext(a, p - 2);
      ResRes(w, p);
      ResMul(a, Res(w, p), a, w, p);
    }
  }

  // ------------------------------------------------------- the affine law

  ghost function Slope(num: int, den: int, p: int): int
    requires p > 2
  {
    Res(num * Inverse(Res(den, p), p), p)
  }

  /** The point a line of slope `l` through (x1, y1) and a point with abscissa x2 leads to. */
  ghost function Third(l: int, x1: int, y1: int, x2: int, p: int): Point
    requires p > 2
  {
    var x3 := Res(l * l - x1 - x2, p);
    Affine(x3, Res(l * (x1 - x3) - y1, p))
  }

  ghost function Double(q: Point, p: int): Point
    requires p > 2
  {
    if q.Infinity? || q.y == 0 then Infinity
    else Third(Slope(3 * q.x * q.x - 3, 2 * q.y, p), q.x, q.y, q.x, p)
  }

  ghost function Add(q: Point, r: Point, p: int): Point
    requires p > 2
  {
    if q.Infinity? then r
    else if r.Infinity? then q
    else if q.x == r.x then (if q.y == r.y then Double(q, p) else Infinity)
    else Third(Slope(r.y - q.y, r.x - q.x, p), q.x, q.y, r.x, p)
  }

  /** k times g, by doubling the half and adding the odd one. */
  ghost function Times(k: nat, g: Point, p: int): Point
    requires p > 2
  {
    if k == 0 then Infinity
    else
      var h := Double(Times(k / 2, g, p), p);
      if k % 2 == 1 then Add(h, g, p) else h
  }

  // ------------------------------------------------------ the Jacobian code

  function JacDouble(q: Jac, p: int): Jac
    requires p > 0
  {
    if q.z == 0 then q
    else
      var y2 := JsRem(q.y * q.y, p);
      var s := JsRem(4 * q.x * y2, p);
      var z2 := JsRem(q.z * q.z, p);
      var m := JsRem(3 * JsRem(q.x - z2, p) * JsRem(q.x + z2, p), p);
      var x3 := Mod(m * m - 2 * s, p);
      var y3 := Mod(m * (s - x3) - 8 * y2 * y2, p);
      var z3 := Mod(2 * q.y * q.z, p);
      Jac(x3, y3, z3)
  }

  function JacAdd(q: Jac, r: Jac, p: int): Jac
    requires p > 0
  {
    if q.z == 0 then r
    else if r.z == 0 then q
    else
      var z1z1 := JsRem(q.z * q.z, p);
      var z2z2 := JsRem(r.z * r.z, p);
      var u1 := JsRem(q.x * z2z2, p);
      var u2 := JsRem(r.x * z1z1, p);
      var s1 := JsRem(q.y * r.z * z2z2, p);
      var s2 := JsRem(r.y * q.z * z1z1, p);
      var h := Mod(u2 - u1, p);
      var t := Mod(s2 - s1, p);
      if h == 0 then (if t == 0 then JacDouble(q, p) else Jac(0, 1, 0))
      else
        var h2 := JsRem(h * h, p);
        var h3 := JsRem(h2 * h, p);
        var u1h2 := JsRem(u1 * h2, p);
        var x3 := Mod(t * t - h3 - 2 * u1h2, p);
        var y3 := Mod(t * (u1h2 - x3) - s1 * h3, p);
        var z3 := Mod(h * q.z * r.z, p);
        Jac(x3, y3, z3)
  }

  // -------------------------------------------------------- representation

  ghost predicate InRange(q: Jac, p: int) {
    0 <= q.x < p && 0 <= q.y < p && 0 <= q.z < p
  }

  ghost predicate PointOk(a: Point, p: int) {
    a.Affine? ==> 0 <= a.x < p && 0 <= a.y < p
  }

  /** The Jacobian triple stands for the affine point: X = x Z^2 and Y = y Z^3, or Z = 0 for infinity. */
  ghost predicate Stands(q: Jac, a: Point, p: int)
    requires p > 0
  {
    && InRange(q, p) && PointOk(a, p)
    && (a.Infinity? <==> q.z == 0)
    && (a.Affine? ==>
          && Res(q.x, p) == Res(a.x * (q.z * q.z), p)
          && Res(q.y, p) == Res(a.y * (q.z * q.z * q.z), p))
  }

  // ------------------------------------------------------------- the field

  lemma ResZeroTimes(a: int, b: int, p: int)
    requires p > 0 && Res(a, p) == 0
    ensures Res(a * b, p) == 0 && Res(b * a, p) == 0
  {
    ResSmall(0, p);
    ResMul(a, b, 0, b, p);
    ResMul(b, a, b, 0, p);
  }

  /** The inverse of a nonzero number is one. */
  lemma InverseLaw(a: int, p: int)
    requires Field(p) && Res(a, p) != 0
    ensures Res(a * Inverse(Res(a, p), p), p) == 1
  {
    var r := Res(a, p);
    ResRes(a, p);
    ResMul(a, Inverse(r, p), r, Inverse(r, p), p);
  }

  lemma Cancel(a: int, b: int, c: int, p: int)
    requires Field(p) && Res(c, p) != 0 && Res(a * c, p) == Res(b * c, p)
    ensures Res(a, p) == Res(b, p)
  {
    hide Res, Inverse;
    var i := Inverse(Res(c, p), p);
    InverseLaw(c, p);
    CancelOne(a, c, i, p);
    CancelOne(b, c, i, p);
    ResMul(a * c, i, b * c, i, p);
  }

  lemma CancelOne(a: int, c: int, i: int, p: int)
    requires p > 1 && Res(c * i, p) == 1
    ensures Res(a * c * i, p) == Res(a, p)
  {
    hide Res;
    ResSmall(1, p);
    ResMul(a, c * i, a, 1, p);
    MulAssoc(a, c, i);
  }

  lemma NoZeroDivisors(a: int, b: int, p: int)
    requires Field(p) && Res(a, p) != 0 && Res(b, p) != 0
    ensures Res(a * b, p) != 0
  {
    if Res(a * b, p) == 0 {
      ResSmall(0, p);
      Cancel(a, 0, b, p);
    }
  }

  lemma SlopeLaw(num: int, den: int, p: int)
    requires Field(p) && Res(den, p) != 0
    ensures Res(Slope(num, den, p) * den, p) == Res(num, p)
  {
    hide Res, Inverse;
    var i := Inverse(Res(den, p), p);
    InverseLaw(den, p);
    ResRes(num * i, p);
    ResMul(Slope(num, den, p), den, num * i, den, p);
    CancelOne(num, den, i, p);
    assert num * i * den == num * den * i;
  }

  // ------------------------------------------------------------- doubling

  /** What the doubling code computes, as congruences. */
  lemma JacDoubleResidues(q: Jac, p: int) returns (m: int, s: int, y2: int)
    requires p > 0 && q.z != 0
    ensures var d := JacDouble(q, p);
      && InRange(d, p)
      && Res(y2, p) == Res(q.y * q.y, p)
      && Res(s, p) == Res(4 * q.x * (q.y * q.y), p)
      && Res(m, p) == Res(3 * (q.x - q.z * q.z) * (q.x + q.z * q.z), p)
      && Res(d.x, p) == Res(m * m - 2 * s, p)
      && Res(d.y, p) == Res(m * (s - d.x) - 8 * y2 * y2, p)
      && Res(d.z, p) == Res(2 * q.y * q.z, p)
  {
    hide Res, JsRem, Mod;
    y2 := JsRem(q.y * q.y, p);
    s := JsRem(4 * q.x * y2, p);
    var z2 := JsRem(q.z * q.z, p);
    var lo, hi := JsRem(q.x - z2, p), JsRem(q.x + z2, p);
    m := JsRem(3 * lo * hi, p);
    JsRemIsCongruent(q.y * q.y, p);
    JsRemIsCongruent(4 * q.x * y2, p);
    JsRemIsCongruent(q.z * q.z, p);
    JsRemIsCongruent(q.x - z2, p);
    JsRemIsCongruent(q.x + z2, p);
    JsRemIsCongruent(3 * lo * hi, p);
    ResMul(4 * q.x, y2, 4 * q.x, q.y * q.y, p);
    ResAdd(q.x, z2, q.x, q.z * q.z, p);
    ResMul(3, lo, 3, q.x - q.z * q.z, p);
    ResMul(3 * lo, hi, 3 * (q.x - q.z * q.z), q.x + q.z * q.z, p);
    var d := JacDouble(q, p);
    ModInRange(m * m - 2 * s, p);
    ModInRange(m * (s - d.x) - 8 * y2 * y2, p);
    ModInRange(2 * q.y * q.z, p);
  }

  lemma ModInRange(a: int, p: int)
    requires p > 0
    ensures 0 <= Mod(a, p) < p && Res(Mod(a, p), p) == Res(a, p)
  {
    ModIsRes(a, p);
    ResRes(a, p);
  }

  /** The integer identities of doubling; a = y z^4. */
  lemma DoubleM(x: int, u: int)
    ensures 3 * (x * u - u) * (x * u + u) == (3 * x * x - 3) * (u * u)
  {
  }

  lemma DoubleS(x: int, w: int, z: int)
    ensures 4 * (x * (z * z)) * (w * w) == 4 * x * ((w * z) * (w * z))
  {
  }

  lemma DoubleX(l: int, a: int, x: int)
    ensures (2 * l * a) * (2 * l * a) - 2 * (4 * x * (a * a)) == (l * l - x - x) * ((2 * a) * (2 * a))
  {
  }

  lemma DoubleW(y: int, v: int, w: int, z: int, a: int)
    requires v == z * z * z && w == y * v && a == w * z
    ensures (w * w) * (w * w) == y * (a * a * a)
  {
    assert a * a * a == w * w * w * v;
  }

  lemma DoubleY(l: int, a: int, x: int, x3: int, y: int)
    ensures (2 * l * a) * (4 * x * (a * a) - x3 * ((2 * a) * (2 * a))) - 8 * (y * (a * a * a))
         == (l * (x - x3) - y) * ((2 * a) * (2 * a) * (2 * a))
  {
  }

  /** m and s in terms of the affine point: m = 2 l a and s = 4 x a^2. */
  lemma DoubleParts(q: Jac, x: int, y: int, l: int, m: int, s: int, y2: int, p: int) returns (a: int)
    requires p > 0
    requires Res(q.x, p) == Res(x * (q.z * q.z), p) && Res(q.y, p) == Res(y * (q.z * q.z * q.z), p)
    requires Res(l * (2 * y), p) == Res(3 * x * x - 3, p)
    requires Res(y2, p) == Res(q.y * q.y, p) && Res(s, p) == Res(4 * q.x * (q.y * q.y), p)
    requires Res(m, p) == Res(3 * (q.x - q.z * q.z) * (q.x + q.z * q.z), p)
    ensures a == y * (q.z * q.z * q.z) * q.z
    ensures Res(m, p) == Res(2 * l * a, p) && Res(s, p) == Res(4 * x * (a * a), p)
    ensures Res(y2 * y2, p) == Res(y * (a * a * a), p)
    ensures Res(2 * q.y * q.z, p) == Res(2 * a, p)
  {
    hide Res;
    var u := q.z * q.z;
    var w := y * (u * q.z);
    a := w * q.z;
    ResMul(q.y, q.y, w, w, p);
    // s
    ResMul(4, q.x, 4, x * u, p);
    ResMul(4 * q.x, q.y * q.y, 4 * (x * u), w * w, p);
    DoubleS(x, w, q.z);
    // y2
    ResMul(y2, y2, w * w, w * w, p);
    DoubleW(y, u * q.z, w, q.z, a);
    // z
    ResMul(2, q.y, 2, w, p);
    ResMul(2 * q.y, q.z, 2 * w, q.z, p);
    assert 2 * w * q.z == 2 * a;
    // m
    ResAdd(q.x, u, x * u, u, p);
    ResMul(3, q.x - u, 3, x * u - u, p);
    ResMul(3 * (q.x - u), q.x + u, 3 * (x * u - u), x * u + u, p);
    DoubleM(x, u);
    ResMul(3 * x * x - 3, u * u, l * (2 * y), u * u, p);
    assert l * (2 * y) * (u * u) == 2 * l * a by { assert a == y * (u * u); }
  }

  /** From the parts to the new coordinates: the doubled triple stands for the tangent's third point. */
  lemma DoubleWhole(m: int, s: int, y2: int, d: Jac, a: int, x: int, y: int, l: int, x3: int, y3: int, p: int)
    requires p > 0
    requires Res(m, p) == Res(2 * l * a, p) && Res(s, p) == Res(4 * x * (a * a), p)
    requires Res(y2 * y2, p) == Res(y * (a * a * a), p)
    requires Res(d.x, p) == Res(m * m - 2 * s, p) && Res(d.y, p) == Res(m * (s - d.x) - 8 * y2 * y2, p)
    requires Res(d.z, p) == Res(2 * a, p)
    requires Res(x3, p) == Res(l * l - x - x, p) && Res(y3, p) == Res(l * (x - x3) - y, p)
    ensures Res(d.x, p) == Res(x3 * (d.z * d.z), p)
    ensures Res(d.y, p) == Res(y3 * (d.z * d.z * d.z), p)
  {
    hide Res;
    var t := 2 * a;
    ResMul(d.z, d.z, t, t, p);
    ResMul(d.z * d.z, d.z, t * t, t, p);
    // x
    ResMul(m, m, 2 * l * a, 2 * l * a, p);
    ResMul(2, s, 2, 4 * x * (a * a), p);
    ResAdd(m * m, 2 * s, (2 * l * a) * (2 * l * a), 2 * (4 * x * (a * a)), p);
    DoubleX(l, a, x);
    ResMul(l * l - x - x, t * t, x3, t * t, p);
    ResMul(x3, d.z * d.z, x3, t * t, p);
    // y
    ResAdd(s, d.x, 4 * x * (a * a), x3 * (t * t), p);
    ResMul(m, s - d.x, 2 * l * a, 4 * x * (a * a) - x3 * (t * t), p);
    MulAssoc(8, y2, y2);
    ResMul(8, y2 * y2, 8, y * (a * a * a), p);
    ResAdd(m * (s - d.x), 8 * (y2 * y2),
           (2 * l * a) * (4 * x * (a * a) - x3 * (t * t)), 8 * (y * (a * a * a)), p);
    DoubleY(l, a, x, x3, y);
    ResMul(l * (x - x3) - y, t * t * t, y3, t * t * t, p);
    ResMul(y3, d.z * d.z * d.z, y3, t * t * t, p);
  }

  /** z^n is not zero modulo p when z is not. */
  lemma PowersNonZero(z: int, p: int)
    requires Field(p) && Res(z, p) != 0
    ensures Res(z * z, p) != 0 && Res(z * z * z, p) != 0
  {
    NoZeroDivisors(z, z, p);
    NoZeroDivisors(z * z, z, p);
  }

  /** jacDouble is the affine doubling. */
  lemma DoubleStands(q: Jac, a: Point, p: int)
    requires Field(p) && Stands(q, a, p)
    ensures Stands(JacDouble(q, p), Double(a, p), p)
  {
    if a.Affine? {
      hide Res, JsRem, Mod, Slope;
      var m, s, y2 := JacDoubleResidues(q, p);
      var d := JacDouble(q, p);
      RangeResidues(q, a, p);
      if a.y == 0 {
        ResZeroTimes(a.y, q.z * q.z * q.z, p);
        ResZeroTimes(q.y, 2, p);
        ResZeroTimes(2 * q.y, q.z, p);
      } else {
        var l := Slope(3 * a.x * a.x - 3, 2 * a.y, p);
        ResSmall(2, p);
        NoZeroDivisors(2, a.y, p);
        SlopeLaw(3 * a.x * a.x - 3, 2 * a.y, p);
        var w := DoubleParts(q, a.x, a.y, l, m, s, y2, p);
        var t := Double(a, p);
        ResRes(l * l - a.x - a.x, p);
        ResRes(l * (a.x - t.x) - a.y, p);
        DoubleWhole(m, s, y2, d, w, a.x, a.y, l, t.x, t.y, p);
        PowersNonZero(q.z, p);
        NoZeroDivisors(a.y, q.z * q.z * q.z, p);
        NoZeroDivisors(a.y * (q.z * q.z * q.z), q.z, p);
        NoZeroDivisors(2, w, p);
      }
      ResSmall(d.z, p);
    }
  }

  /** In range, a coordinate is its own class. */
  lemma RangeResidues(q: Jac, a: Point, p: int)
    requires p > 0 && Stands(q, a, p)
    ensures Res(q.x, p) == q.x && Res(q.y, p) == q.y && Res(q.z, p) == q.z
    ensures a.Affine? ==> Res(a.x, p) == a.x && Res(a.y, p) == a.y
  {
    hide Res;
    ResSmall(q.x, p);
    ResSmall(q.y, p);
    ResSmall(q.z, p);
    if a.Affine? {
      ResSmall(a.x, p);
      ResSmall(a.y, p);
    }
  }

  // -------------------------------------------------------------- addition

  /** The numbers the addition code computes from its points. */
  datatype Sums = Sums(z1z1: int, z2z2: int, u1: int, u2: int, s1: int, s2: int, h: int, t: int)

  function SumsOf(q: Jac, r: Jac, p: int): Sums
    requires p > 0
  {
    var z1z1, z2z2 := JsRem(q.z * q.z, p), JsRem(r.z * r.z, p);
    var u1, u2 := JsRem(q.x * z2z2, p), JsRem(r.x * z1z1, p);
    var s1, s2 := JsRem(q.y * r.z * z2z2, p), JsRem(r.y * q.z * z1z1, p);
    Sums(z1z1, z2z2, u1, u2, s1, s2, Mod(u2 - u1, p), Mod(s2 - s1, p))
  }

  lemma SumsResidues(q: Jac, r: Jac, p: int)
    requires p > 0
    ensures var n := SumsOf(q, r, p);
      && Res(n.u1, p) == Res(q.x * (r.z * r.z), p)
      && Res(n.s1, p) == Res(q.y * r.z * (r.z * r.z), p)
      && 0 <= n.h < p && Res(n.h, p) == Res(r.x * (q.z * q.z) - q.x * (r.z * r.z), p)
      && 0 <= n.t < p && Res(n.t, p) == Res(r.y * q.z * (q.z * q.z) - q.y * r.z * (r.z * r.z), p)
  {
    hide Res, JsRem, Mod;
    var n := SumsOf(q, r, p);
    Reduced(q.x, r.z * r.z, p);
    Reduced(r.x, q.z * q.z, p);
    Reduced(q.y * r.z, r.z * r.z, p);
    Reduced(r.y * q.z, q.z * q.z, p);
    ResAdd(n.u2, n.u1, r.x * (q.z * q.z), q.x * (r.z * r.z), p);
    ResAdd(n.s2, n.s1, r.y * q.z * (q.z * q.z), q.y * r.z * (r.z * r.z), p);
    ModInRange(n.u2 - n.u1, p);
    ModInRange(n.s2 - n.s1, p);
  }

  /** A product with a factor reduced first. */
  lemma Reduced(a: int, b: int, p: int)
    requires p > 0
    ensures Res(JsRem(a * JsRem(b, p), p), p) == Res(a * b, p)
  {
    hide Res, JsRem;
    JsRemIsCongruent(b, p);
    JsRemIsCongruent(a * JsRem(b, p), p);
    ResMul(a, JsRem(b, p), a, b, p);
  }

  lemma CubeResidues(h: int, u1: int, p: int)
    requires p > 0
    ensures var h2 := JsRem(h * h, p);
      Res(JsRem(h2 * h, p), p) == Res(h * h * h, p) && Res(JsRem(u1 * h2, p), p) == Res(u1 * (h * h), p)
  {
    hide Res, JsRem;
    Reduced(u1, h * h, p);
    Reduced(h, h * h, p);
    assert JsRem(h * h, p) * h == h * JsRem(h * h, p) && h * h * h == h * (h * h);
  }

  /** What the addition code makes of them where the abscissas differ. */
  function SumOf(q: Jac, r: Jac, n: Sums, h3: int, u1h2: int, p: int): Jac
    requires p > 0
  {
    var x3 := Mod(n.t * n.t - h3 - 2 * u1h2, p);
    Jac(x3, Mod(n.t * (u1h2 - x3) - n.s1 * h3, p), Mod(n.h * q.z * r.z, p))
  }

  lemma JacAddIs(q: Jac, r: Jac, p: int)
    requires p > 0 && q.z != 0 && r.z != 0
    ensures var n := SumsOf(q, r, p);
      var h2 := JsRem(n.h * n.h, p);
      JacAdd(q, r, p) ==
        if n.h != 0 then SumOf(q, r, n, JsRem(h2 * n.h, p), JsRem(n.u1 * h2, p), p)
        else if n.t == 0 then JacDouble(q, p) else Jac(0, 1, 0)
  {
    hide JsRem, Mod, JacDouble;
  }

  /** What the addition code computes when the abscissas differ, as congruences. */
  lemma JacAddResidues(q: Jac, r: Jac, p: int) returns (u1: int, s1: int, h: int, t: int, h3: int, u1h2: int)
    requires p > 0 && q.z != 0 && r.z != 0
    ensures
      && Res(u1, p) == Res(q.x * (r.z * r.z), p)
      && Res(s1, p) == Res(q.y * r.z * (r.z * r.z), p)
      && 0 <= h < p && Res(h, p) == Res(r.x * (q.z * q.z) - q.x * (r.z * r.z), p)
      && 0 <= t < p && Res(t, p) == Res(r.y * q.z * (q.z * q.z) - q.y * r.z * (r.z * r.z), p)
      && Res(h3, p) == Res(h * h * h, p)
      && Res(u1h2, p) == Res(u1 * (h * h), p)
    ensures h == 0 ==> JacAdd(q, r, p) == if t == 0 then JacDouble(q, p) else Jac(0, 1, 0)
    ensures h != 0 ==> var d := JacAdd(q, r, p);
      && InRange(d, p)
      && Res(d.x, p) == Res(t * t - h3 - 2 * u1h2, p)
      && Res(d.y, p) == Res(t * (u1h2 - d.x) - s1 * h3, p)
      && Res(d.z, p) == Res(h * q.z * r.z, p)
  {
    hide Res, JsRem, Mod, JacDouble, JacAdd, SumsOf;
    var n := SumsOf(q, r, p);
    u1, s1, h, t := n.u1, n.s1, n.h, n.t;
    var h2 := JsRem(h * h, p);
    h3, u1h2 := JsRem(h2 * h, p), JsRem(u1 * h2, p);
    SumsResidues(q, r, p);
    CubeResidues(h, u1, p);
    JacAddIs(q, r, p);
    if h != 0 {
      var d := SumOf(q, r, n, h3, u1h2, p);
      ModInRange(t * t - h3 - 2 * u1h2, p);
      ModInRange(t * (u1h2 - d.x) - s1 * h3, p);
      ModInRange(h * q.z * r.z, p);
    }
  }

  /** A coordinate of one point brought to the common denominator v = z1 z2. */
  lemma Common(x: int, y: int, z: int, w: int, qx: int, qy: int, p: int)
    requires p > 0 && Res(qx, p) == Res(x * (z * z), p) && Res(qy, p) == Res(y * (z * z * z), p)
    ensures var v := z * w;
      && Res(qx * (w * w), p) == Res(x * (v * v), p)
      && Res(qy * w * (w * w), p) == Res(y * (v * v * v), p)
  {
    hide Res;
    var v := z * w;
    ResMul(qx, w * w, x * (z * z), w * w, p);
    assert x * (z * z) * (w * w) == x * (v * v) by { assert (z * z) * (w * w) == v * v; MulAssoc(x, z * z, w * w); }
    ResMul(qy, w * w * w, y * (z * z * z), w * w * w, p);
    assert qy * w * (w * w) == qy * (w * w * w);
    Cubes(z, w);
    MulAssoc(y, z * z * z, w * w * w);
  }

  lemma Cubes(h: int, v: int)
    ensures (h * h) * (v * v) == (h * v) * (h * v)
    ensures (h * h * h) * (v * v * v) == (h * v) * (h * v) * (h * v)
  {
    assert (h * h * h) * (v * v * v) == ((h * h) * (v * v)) * (h * v);
  }

  /** The integer identities of addition; h = D v^2 and g = h v. */
  lemma AddX(l: int, h: int, v: int, D: int, x1: int)
    requires h == D * (v * v)
    ensures (l * h * v) * (l * h * v) - h * h * h - 2 * ((x1 * (v * v)) * (h * h))
         == (l * l - x1 - (x1 + D)) * ((h * v) * (h * v))
  {
    var g, q := h * v, (h * v) * (h * v);
    Cubes(h, v);
    assert l * h * v == l * g;
    assert h * h * h == D * q by { assert h * h * h == D * ((v * v) * (h * h)); }
    assert (x1 * (v * v)) * (h * h) == x1 * q by { assert (x1 * (v * v)) * (h * h) == x1 * ((v * v) * (h * h)); }
    AddXFlat(l, g, q, D, x1);
  }

  lemma AddXFlat(l: int, g: int, q: int, D: int, x1: int)
    requires q == g * g
    ensures (l * g) * (l * g) - D * q - 2 * (x1 * q) == (l * l - x1 - (x1 + D)) * q
  {
  }

  lemma AddY(l: int, h: int, v: int, x1: int, x3: int, y1: int)
    ensures (l * h * v) * ((x1 * (v * v)) * (h * h) - x3 * ((h * v) * (h * v))) - (y1 * (v * v * v)) * (h * h * h)
         == (l * (x1 - x3) - y1) * ((h * v) * (h * v) * (h * v))
  {
    var g, q := h * v, (h * v) * (h * v);
    Cubes(h, v);
    assert l * h * v == l * g;
    assert (x1 * (v * v)) * (h * h) == x1 * q by { assert (x1 * (v * v)) * (h * h) == x1 * ((v * v) * (h * h)); }
    assert (y1 * (v * v * v)) * (h * h * h) == y1 * (q * g) by {
      assert (y1 * (v * v * v)) * (h * h * h) == y1 * ((v * v * v) * (h * h * h));
    }
    AddYFlat(l, g, q, x1, x3, y1);
  }

  lemma AddYFlat(l: int, g: int, q: int, x1: int, x3: int, y1: int)
    ensures (l * g) * (x1 * q - x3 * q) - y1 * (q * g) == (l * (x1 - x3) - y1) * (q * g)
  {
  }

  /** From the parts to the new coordinates: the sum stands for the chord's third point. */
  lemma AddWhole(u1: int, s1: int, h: int, t: int, h3: int, u1h2: int, d: Jac,
                 v: int, D: int, x1: int, y1: int, l: int, x3: int, y3: int, p: int)
    requires p > 0
    requires Res(u1, p) == Res(x1 * (v * v), p) && Res(s1, p) == Res(y1 * (v * v * v), p)
    requires Res(h, p) == Res(D * (v * v), p) && Res(t, p) == Res(l * (D * (v * v)) * v, p)
    requires Res(h3, p) == Res(h * h * h, p) && Res(u1h2, p) == Res(u1 * (h * h), p)
    requires Res(d.x, p) == Res(t * t - h3 - 2 * u1h2, p) && Res(d.y, p) == Res(t * (u1h2 - d.x) - s1 * h3, p)
    requires Res(d.z, p) == Res(h * v, p)
    requires Res(x3, p) == Res(l * l - x1 - (x1 + D), p) && Res(y3, p) == Res(l * (x1 - x3) - y1, p)
    ensures Res(d.x, p) == Res(x3 * (d.z * d.z), p)
    ensures Res(d.y, p) == Res(y3 * (d.z * d.z * d.z), p)
  {
    hide Res;
    var k := D * (v * v);
    var g, c := k * v, (x1 * (v * v)) * (k * k);
    ResMul(h, h, k, k, p);
    ResMul(h * h, h, k * k, k, p);
    ResMul(h, v, k, v, p);
    ResMul(d.z, d.z, g, g, p);
    ResMul(d.z * d.z, d.z, g * g, g, p);
    ResMul(u1, h * h, x1 * (v * v), k * k, p);
    // x
    ResMul(t, t, l * k * v, l * k * v, p);
    ResMul(2, u1h2, 2, c, p);
    ResAdd(t * t, h3, (l * k * v) * (l * k * v), k * k * k, p);
    ResAdd(t * t - h3, 2 * u1h2, (l * k * v) * (l * k * v) - k * k * k, 2 * c, p);
    AddX(l, k, v, D, x1);
    ResMul(l * l - x1 - (x1 + D), g * g, x3, g * g, p);
    ResMul(x3, d.z * d.z, x3, g * g, p);
    // y
    ResAdd(u1h2, d.x, c, x3 * (g * g), p);
    ResMul(t, u1h2 - d.x, l * k * v, c - x3 * (g * g), p);
    ResMul(s1, h3, y1 * (v * v * v), k * k * k, p);
    ResAdd(t * (u1h2 - d.x), s1 * h3, (l * k * v) * (c - x3 * (g * g)), (y1 * (v * v * v)) * (k * k * k), p);
    AddY(l, k, v, x1, x3, y1);
    ResMul(l * (x1 - x3) - y1, g * g * g, y3, g * g * g, p);
    ResMul(y3, d.z * d.z * d.z, y3, g * g * g, p);
  }

  /** Two coordinates in range are equal exactly when their difference, scaled by a nonzero factor, vanishes. */
  lemma DifferenceVanishes(x1: int, x2: int, w: int, h: int, p: int)
    requires Field(p) && 0 <= x1 < p && 0 <= x2 < p && Res(w, p) != 0
    requires 0 <= h < p && Res(h, p) == Res((x2 - x1) * w, p)
    ensures h == 0 <==> x1 == x2
    ensures Res(x2 - x1, p) == 0 <==> x1 == x2
  {
    hide Res;
    ResSmall(h, p);
    if x1 == x2 {
      ResSmall(0, p);
    } else {
      if Res(x2 - x1, p) == 0 {
        ResSmall(0, p);
        ResAdd(x2 - x1, x1, 0, x1, p);
        ResSmall(x1, p);
        ResSmall(x2, p);
      }
      NoZeroDivisors(x2 - x1, w, p);
    }
  }

  /** The numbers h and t of the code are the differences of the coordinates, brought to the common denominator. */
  lemma AddDifferences(q: Jac, r: Jac, a: Point, b: Point, p: int, h: int, t: int, u1: int, s1: int)
    requires p > 0 && a.Affine? && b.Affine? && Stands(q, a, p) && Stands(r, b, p)
    requires Res(h, p) == Res(r.x * (q.z * q.z) - q.x * (r.z * r.z), p)
    requires Res(t, p) == Res(r.y * q.z * (q.z * q.z) - q.y * r.z * (r.z * r.z), p)
    requires Res(u1, p) == Res(q.x * (r.z * r.z), p) && Res(s1, p) == Res(q.y * r.z * (r.z * r.z), p)
    ensures var v := q.z * r.z;
      && Res(u1, p) == Res(a.x * (v * v), p) && Res(s1, p) == Res(a.y * (v * v * v), p)
      && Res(h, p) == Res((b.x - a.x) * (v * v), p) && Res(t, p) == Res((b.y - a.y) * (v * v * v), p)
  {
    hide Res;
    var v := q.z * r.z;
    Common(a.x, a.y, q.z, r.z, q.x, q.y, p);
    Common(b.x, b.y, r.z, q.z, r.x, r.y, p);
    assert r.z * q.z == v;
    ResAdd(r.x * (q.z * q.z), q.x * (r.z * r.z), b.x * (v * v), a.x * (v * v), p);
    ResAdd(r.y * q.z * (q.z * q.z), q.y * r.z * (r.z * r.z), b.y * (v * v * v), a.y * (v * v * v), p);
    assert b.x * (v * v) - a.x * (v * v) == (b.x - a.x) * (v * v);
    assert b.y * (v * v * v) - a.y * (v * v * v) == (b.y - a.y) * (v * v * v);
  }

  /** t in terms of the slope. */
  lemma SlopeTimes(t: int, E: int, D: int, v: int, l: int, p: int)
    requires p > 0 && Res(t, p) == Res(E * (v * v * v), p) && Res(l * D, p) == Res(E, p)
    ensures Res(t, p) == Res(l * (D * (v * v)) * v, p)
  {
    hide Res;
    ResMul(l * D, v * v * v, E, v * v * v, p);
    assert l * D * (v * v * v) == l * (D * (v * v)) * v;
  }

  /** The chord case of addition, from the residues the code computed. */
  lemma ChordStands(q: Jac, r: Jac, a: Point, b: Point, p: int,
                    u1: int, s1: int, h: int, t: int, h3: int, u1h2: int, d: Jac)
    requires Field(p) && a.Affine? && b.Affine? && PointOk(a, p) && InRange(d, p) && 0 < h < p
    requires Res(q.z * r.z, p) != 0 && Res(b.x - a.x, p) != 0 && a.x != b.x
    requires var v := q.z * r.z;
      && Res(u1, p) == Res(a.x * (v * v), p) && Res(s1, p) == Res(a.y * (v * v * v), p)
      && Res(h, p) == Res((b.x - a.x) * (v * v), p) && Res(t, p) == Res((b.y - a.y) * (v * v * v), p)
    requires Res(h3, p) == Res(h * h * h, p) && Res(u1h2, p) == Res(u1 * (h * h), p)
    requires Res(d.x, p) == Res(t * t - h3 - 2 * u1h2, p) && Res(d.y, p) == Res(t * (u1h2 - d.x) - s1 * h3, p)
    requires Res(d.z, p) == Res(h * q.z * r.z, p)
    ensures Stands(d, Add(a, b, p), p)
  {
    hide Res, Slope;
    var v, D, E := q.z * r.z, b.x - a.x, b.y - a.y;
    var l, third := Slope(E, D, p), Add(a, b, p);
    SlopeLaw(E, D, p);
    SlopeTimes(t, E, D, v, l, p);
    MulAssoc(h, q.z, r.z);
    ResRes(l * l - a.x - b.x, p);
    ResRes(l * (a.x - third.x) - a.y, p);
    AddWhole(u1, s1, h, t, h3, u1h2, d, v, D, a.x, a.y, l, third.x, third.y, p);
    ResSmall(h, p);
    NoZeroDivisors(h, v, p);
    ResSmall(d.z, p);
  }

  /** jacAdd of two finite points. */
  lemma FiniteAddStands(q: Jac, r: Jac, a: Point, b: Point, p: int)
    requires Field(p) && Stands(q, a, p) && Stands(r, b, p) && a.Affine? && b.Affine?
    ensures Stands(JacAdd(q, r, p), Add(a, b, p), p)
  {
    hide Res, JacDouble, JacAdd, Double, Third;
    var u1, s1, h, t, h3, u1h2 := JacAddResidues(q, r, p);
    var v := q.z * r.z;
    RangeResidues(q, a, p);
    RangeResidues(r, b, p);
    AddDifferences(q, r, a, b, p, h, t, u1, s1);
    NoZeroDivisors(q.z, r.z, p);
    PowersNonZero(v, p);
    DifferenceVanishes(a.x, b.x, v * v, h, p);
    DifferenceVanishes(a.y, b.y, v * v * v, t, p);
    if h != 0 {
      ChordStands(q, r, a, b, p, u1, s1, h, t, h3, u1h2, JacAdd(q, r, p));
    } else if t == 0 {
      DoubleStands(q, a, p);
    }
  }

  /** jacAdd is the affine addition. */
  lemma AddStands(q: Jac, r: Jac, a: Point, b: Point, p: int)
    requires Field(p) && Stands(q, a, p) && Stands(r, b, p)
    ensures Stands(JacAdd(q, r, p), Add(a, b, p), p)
  {
    if a.Affine? && b.Affine? { FiniteAddStands(q, r, a, b, p); }
  }

  // -------------------------------------------------------------- the curve

  function Cubic(x: int, b: int): int { x * x * x - 3 * x + b }

  /** y^2 = x^3 - 3x + b, or the point at infinity. */
  ghost predicate OnCurve(a: Point, b: int, p: int)
    requires p > 0
  {
    a.Affine? ==> Res(a.y * a.y, p) == Res(Cubic(a.x, b), p)
  }

  /** The cubic along a line of slope l through (x, y), T away from x. */
  lemma LineIdentity(x: int, y: int, l: int, T: int, b: int)
    ensures Cubic(x + T, b) - (y + l * T) * (y + l * T)
         == (Cubic(x, b) - y * y) + ((3 * x * x - 3 - 2 * y * l) + (T + 3 * x - l * l) * T) * T
  {
    assert (x + T) * (x + T) * (x + T) == x * x * x + 3 * x * x * T + 3 * x * T * T + T * T * T;
    assert (y + l * T) * (y + l * T) == y * y + 2 * y * l * T + l * l * T * T;
  }

  /** If the point is on the curve, the line meets it again exactly where the remaining factor vanishes. */
  lemma LineMeets(x: int, y: int, l: int, T: int, b: int, p: int)
    requires p > 0 && Res(y * y, p) == Res(Cubic(x, b), p)
    ensures var f := (3 * x * x - 3 - 2 * y * l) + (T + 3 * x - l * l) * T;
      Res(Cubic(x + T, b) - (y + l * T) * (y + l * T), p) == Res(f * T, p)
  {
    hide Res, Cubic;
    var f := (3 * x * x - 3 - 2 * y * l) + (T + 3 * x - l * l) * T;
    LineIdentity(x, y, l, T, b);
    ResAdd(Cubic(x, b), y * y, y * y, y * y, p);
    ResAdd(Cubic(x, b) - y * y, f * T, 0, f * T, p);
  }

  /** The third point is on the curve once that factor vanishes there. */
  lemma ThirdOnCurve(l: int, x1: int, y1: int, x2: int, b: int, p: int)
    requires p > 2 && Res(y1 * y1, p) == Res(Cubic(x1, b), p)
    requires var T := l * l - x1 - x2 - x1;
      Res((3 * x1 * x1 - 3 - 2 * y1 * l) + (T + 3 * x1 - l * l) * T, p) == 0
    ensures OnCurve(Third(l, x1, y1, x2, p), b, p)
  {
    hide Res, Cubic;
    var a := Third(l, x1, y1, x2, p);
    var T := l * l - x1 - x2 - x1;
    var f := (3 * x1 * x1 - 3 - 2 * y1 * l) + (T + 3 * x1 - l * l) * T;
    LineMeets(x1, y1, l, T, b, p);
    ResZeroTimes(f, T, p);
    var yT := y1 + l * T;
    ResSmall(0, p);
    ResAdd(Cubic(x1 + T, b) - yT * yT, yT * yT, 0, yT * yT, p);
    // the ordinate is minus the line's
    ResRes(l * l - x1 - x2, p);
    ResRes(l * (x1 - a.x) - y1, p);
    ResAdd(x1, a.x, x1, x1 + T, p);
    ResMul(l, x1 - a.x, l, -T, p);
    ResAdd(l * (x1 - a.x), y1, l * (-T), y1, p);
    assert l * (-T) - y1 == -yT;
    ResMul(a.y, a.y, -yT, -yT, p);
    assert (-yT) * (-yT) == yT * yT;
    CubicRes(a.x, x1 + T, b, p);
  }

  lemma CubicRes(x: int, y: int, b: int, p: int)
    requires p > 0 && Res(x, p) == Res(y, p)
    ensures Res(Cubic(x, b), p) == Res(Cubic(y, b), p)
  {
    hide Res;
    ResMul(x, x, y, y, p);
    ResMul(x * x, x, y * y, y, p);
    ResMul(3, x, 3, y, p);
    ResAdd(x * x * x, 3 * x, y * y * y, 3 * y, p);
    ResAdd(x * x * x - 3 * x, b, y * y * y - 3 * y, b, p);
  }

  lemma DoubleOnCurve(a: Point, b: int, p: int)
    requires Field(p) && PointOk(a, p) && OnCurve(a, b, p)
    ensures OnCurve(Double(a, p), b, p) && PointOk(Double(a, p), p)
  {
    if a.Affine? && a.y != 0 {
      hide Res, Slope, Cubic;
      var l := Slope(3 * a.x * a.x - 3, 2 * a.y, p);
      ResSmall(a.y, p);
      ResSmall(2, p);
      NoZeroDivisors(2, a.y, p);
      SlopeLaw(3 * a.x * a.x - 3, 2 * a.y, p);
      var T := l * l - a.x - a.x - a.x;
      assert T + 3 * a.x - l * l == 0;
      ResAdd(3 * a.x * a.x - 3, 2 * a.y * l, l * (2 * a.y), 2 * a.y * l, p);
      assert l * (2 * a.y) - 2 * a.y * l == 0;
      ResSmall(0, p);
      ThirdOnCurve(l, a.x, a.y, a.x, b, p);
    }
  }

  /** The chord passes through the second point, so the remaining factor vanishes there. */
  lemma SecondPoint(x1: int, y1: int, x2: int, y2: int, l: int, b: int, p: int)
    requires Field(p) && Res(y1 * y1, p) == Res(Cubic(x1, b), p) && Res(y2 * y2, p) == Res(Cubic(x2, b), p)
    requires Res(x2 - x1, p) != 0 && Res(l * (x2 - x1), p) == Res(y2 - y1, p)
    ensures var D := x2 - x1;
      Res((3 * x1 * x1 - 3 - 2 * y1 * l) + (D + 3 * x1 - l * l) * D, p) == 0
  {
    hide Res, Cubic;
    var D := x2 - x1;
    var f, yD := (3 * x1 * x1 - 3 - 2 * y1 * l) + (D + 3 * x1 - l * l) * D, y1 + l * D;
    LineMeets(x1, y1, l, D, b, p);
    ResAdd(y1, l * D, y1, y2 - y1, p);
    ResMul(yD, yD, y2, y2, p);
    ResAdd(Cubic(x2, b), yD * yD, y2 * y2, y2 * y2, p);
    ResSmall(0, p);
    assert x1 + D == x2;
    Cancel(f, 0, D, p);
  }

  lemma ThirdFactor(c1: int, c2: int, D: int, T: int)
    requires T == -c2 - D
    ensures c1 + (T + c2) * T == c1 + (D + c2) * D
  {
    assert (-D) * (-c2 - D) == (D + c2) * D;
  }

  lemma AddOnCurve(a: Point, c: Point, b: int, p: int)
    requires Field(p) && PointOk(a, p) && PointOk(c, p) && OnCurve(a, b, p) && OnCurve(c, b, p)
    ensures OnCurve(Add(a, c, p), b, p) && PointOk(Add(a, c, p), p)
  {
    hide Res, Slope, Cubic;
    if a.Affine? && c.Affine? && a.x != c.x {
      var D := c.x - a.x;
      var l := Slope(c.y - a.y, D, p);
      var c1, c2, T := 3 * a.x * a.x - 3 - 2 * a.y * l, 3 * a.x - l * l, l * l - a.x - c.x - a.x;
      DistinctDiffer(a.x, c.x, p);
      SlopeLaw(c.y - a.y, D, p);
      SecondPoint(a.x, a.y, c.x, c.y, l, b, p);
      ThirdFactor(c1, c2, D, T);
      assert T + 3 * a.x - l * l == T + c2 && D + 3 * a.x - l * l == D + c2;
      ThirdOnCurve(l, a.x, a.y, c.x, b, p);
    } else if a.Affine? && c.Affine? && a.y == c.y {
      DoubleOnCurve(a, b, p);
    }
  }

  lemma DistinctDiffer(x1: int, x2: int, p: int)
    requires 0 <= x1 < p && 0 <= x2 < p && x1 != x2
    ensures Res(x2 - x1, p) != 0
  {
    hide Res;
    if Res(x2 - x1, p) == 0 {
      ResSmall(0, p);
      ResAdd(x2 - x1, x1, 0, x1, p);
      ResSmall(x1, p);
      ResSmall(x2, p);
    }
  }

  lemma {:induction false} TimesOnCurve(k: nat, g: Point, b: int, p: int)
    requires Field(p) && PointOk(g, p) && OnCurve(g, b, p)
    ensures OnCurve(Times(k, g, p), b, p) && PointOk(Times(k, g, p), p)
  {
    hide Res, Double, Add, Cubic;
    if k > 0 {
      var half := Times(k / 2, g, p);
      TimesOnCurve(k / 2, g, b, p);
      DoubleOnCurve(half, b, p);
      AddOnCurve(Double(half, p), g, b, p);
    }
  }

  // ----------------------------------------------------- scalar multiplication

  lemma HalveQuotient(d: nat, k: nat)
    requires k > 0
    ensures d / (2 * k) == (d / k) / 2
  {
    var q := (d / k) / 2;
    var r := (d / k) % 2;
    assert d == (2 * q + r) * k + d % k;
    assert d == q * (2 * k) + (r * k + d % k);
    assert r * k <= k && 0 <= r * k;
    ResUnique(d, q, r * k + d % k, 2 * k);
    assert d == (d / (2 * k)) * (2 * k) + d % (2 * k);
    assert (d / (2 * k) - q) * (2 * k) == 0;
  }

  /** One turn of the loop: the bits read so far, doubled, with the next bit added. */
  lemma TimesNext(k: nat, g: Point, p: int)
    requires p > 2
    ensures Times(k, g, p) ==
      (if k % 2 == 1 then Add(Double(Times(k / 2, g, p), p), g, p) else Double(Times(k / 2, g, p), p))
  {
    if k == 0 {
      assert Times(0, g, p) == Infinity;
    }
  }

  /** X / Z^2 and Y / Z^3, with the inverse of Z. */
  lemma ToAffine(q: Jac, a: Point, zi: int, zi2: int, p: int)
    requires Field(p) && Stands(q, a, p) && a.Affine? && zi == Inverse(q.z, p)
    requires Res(zi2, p) == Res(zi * zi, p)
    ensures Res(q.x * zi2, p) == a.x && Res(q.y * zi2 * zi, p) == a.y
  {
    hide Res, Inverse;
    RangeResidues(q, a, p);
    InverseLaw(q.z, p);
    var one := q.z * zi;
    ResSmall(1, p);
    ResMul(one, one, 1, 1, p);
    ResMul(one * one, one, 1, 1, p);
    Cubes(q.z, zi);
    // x
    ResMul(q.x, zi2, a.x * (q.z * q.z), zi * zi, p);
    MulAssoc(a.x, q.z * q.z, zi * zi);
    ResMul(a.x, one * one, a.x, 1, p);
    // y
    ResMul(zi2, zi, zi * zi, zi, p);
    MulAssoc(q.y, zi2, zi);
    ResMul(q.y, zi2 * zi, a.y * (q.z * q.z * q.z), zi * zi * zi, p);
    MulAssoc(a.y, q.z * q.z * q.z, zi * zi * zi);
    ResMul(a.y, one * one * one, a.y, 1, p);
  }

  lemma LoopStart(d: nat, gx: int, gy: int, p: int)
    requires Field(p) && 0 <= gx < p && 0 <= gy < p && d < Pow(2, 256)
    ensures Stands(Jac(gx, gy, 1), Affine(gx, gy), p) && Stands(Jac(0, 1, 0), Times(0, Affine(gx, gy), p), p)
    ensures Pow(2, 256) > 0 && d / Pow(2, 256) == 0 && p > 3
  {
    hide Pow;
    PowPositive(256);
    ResSmall(gx, p);
    ResSmall(gy, p);
  }

  /** The inverse the code takes, and what it makes of zero. */
  lemma InverseFacts(z: int, p: int)
    requires p > 3
    ensures Inverse(z, p) == Res(Pow(z, p - 2), p)
    ensures z == 0 ==> Inverse(z, p) == 0
  {
    PowNext(0, p - 3);
    ResSmall(0, p);
  }

  /** p256Public's loop and its last inversion, for any base point and field. */
  method ScalarMultiply(d: nat, gx: int, gy: int, p: int) returns (x: int, y: int)
    requires Field(p) && 0 <= gx < p && 0 <= gy < p && d < Pow(2, 256)
    ensures var a := Times(d, Affine(gx, gy), p);
      if a.Affine? then x == a.x && y == a.y else x == 0 && y == 0
  {
    hide Res, Mod, JsRem, JacDouble, JacAdd, Add, Double, Field, Times, Pow, Inverse;
    ghost var g := Affine(gx, gy);
    var base := Jac(gx, gy, 1);
    var r := Jac(0, 1, 0);
    LoopStart(d, gx, gy, p);
    ghost var k: nat := 0;
    var i := 256;
    while i > 0
      invariant 0 <= i <= 256
      invariant Pow(2, i) > 0 && k == d / Pow(2, i)
      invariant Stands(r, Times(k, g, p), p)
    {
      i := i - 1;
      PowPositive(i);
      PowNext(2, i);
      HalveQuotient(d, Pow(2, i));
      ghost var h := Times(k, g, p);
      DoubleStands(r, h, p);
      r := JacDouble(r, p);
      k := d / Pow(2, i);
      TimesNext(k, g, p);
      if (d / Pow(2, i)) % 2 == 1 {
        AddStands(r, base, Double(h, p), g, p);
        r := JacAdd(r, base, p);
      }
    }
    assert k == d by { assert Pow(2, 0) == 1 by { PowZero(2); } }
    var zi := ModPow(r.z, p - 2, p);
    InverseFacts(r.z, p);
    var zi2 := JsRem(zi * zi, p);
    JsRemIsCongruent(zi * zi, p);
    x := Mod(r.x * zi2, p);
    y := Mod(r.y * zi2 * zi, p);
    ModIsRes(r.x * zi2, p);
    ModIsRes(r.y * zi2 * zi, p);
    if Times(d, g, p).Affine? {
      ToAffine(r, Times(d, g, p), zi, zi2, p);
    } else {
      ResSmall(0, p);
      ResZeroTimes(zi2, r.x, p);
      MulAssoc(r.y, zi2, zi);
    }
  }

  lemma PowZero(b: int)
    ensures Pow(b, 0) == 1
  {
  }

  /** The generator satisfies the curve's equation. */
  lemma GeneratorOnCurve()
    ensures P > 3 && 0 <= GX < P && 0 <= GY < P && OnCurve(Affine(GX, GY), B, P)
  {
  }

  /**
   p256Public: for every scalar below 2^256 the affine point of double-and-add
   with the chord-and-tangent law, which is on the curve; (0, 0) stands for
   infinity, which the code cannot name.
   */
  method P256Public(d: nat) returns (x: int, y: int)
    requires Fermat.Prime(P) && d < Pow(2, 256)
    ensures var a := Times(d, Affine(GX, GY), P);
      if a.Affine? then x == a.x && y == a.y else x == 0 && y == 0
    ensures 0 <= x < P && 0 <= y < P
    ensures Times(d, Affine(GX, GY), P).Affine? ==> Res(y * y, P) == Res(x * x * x - 3 * x + B, P)
  {
    hide Res, Field, Times, Fermat.Prime;
    GeneratorOnCurve();
    PrimeIsField(P);
    TimesOnCurve(d, Affine(GX, GY), B, P);
    x, y := ScalarMultiply(d, GX, GY, P);
  }

  // --------------------------------------------------------------- from a seed

  lemma TwoTo256()
    ensures Pow(2, 256) == 0x1_0000000000000000000000000000000000000000000000000000000000000000
  {
    assert Pow(2, 8) == 256;
    hide Pow;
    PowAdd(2, 8, 8);
    PowAdd(2, 16, 16);
    PowAdd(2, 32, 32);
    PowAdd(2, 64, 64);
    PowAdd(2, 128, 128);
  }

  method BytesToBig(b: Bytes) returns (v: nat)
    ensures v == BigEndian(b)
  {
    v := 0;
    for i := 0 to |b|
      invariant v == BigEndian(b[..i])
    {
      assert b[..i + 1][..i] == b[..i];
      v := v * 256 + b[i];
    }
    assert b[..|b|] == b;
  }

  /** The seed reduced into the curve's order, never zero. */
  function Scalar(seed: Bytes): int { Res(BigEndian(seed), N - 1) + 1 }

  method SeedToScalar(seed: Bytes) returns (d: nat)
    ensures d == Scalar(seed) && 1 <= d < N
  {
    var big := BytesToBig(seed);
    ModIsRes(big, N - 1);
    hide Mod, Res;
    d := Mod(big, N - 1) + 1;
  }

  /** Every scalar from 1 to n - 1 is that of a 32-byte seed. */
  lemma SeedsReachAll(d: int) returns (seed: Bytes)
    requires 1 <= d < N
    ensures |seed| == 32 && Scalar(seed) == d
  {
    seed := ToBigEndian(d - 1, 32);
    BytesOf256();
    hide Pow256, ToBigEndian, BigEndian;
    BigEndianRoundTrip(d - 1, 32);
    ResSmall(d - 1, N - 1);
  }

  /** Of a 32-byte seed read as a number below n - 1 the scalar is the next number; of any other, that less n - 1. */
  lemma ScalarIsNext(seed: Bytes)
    requires |seed| == 32
    ensures Scalar(seed) == if BigEndian(seed) < N - 1 then BigEndian(seed) + 1 else BigEndian(seed) + 1 - (N - 1)
  {
    var v := BigEndian(seed);
    BytesOf256();
    BigEndianBack(seed);
    hide BigEndian, Pow256, ToBigEndian;
    if v < N - 1 { ResSmall(v, N - 1); } else { ResUnique(v, 1, v - (N - 1), N - 1); }
  }

  lemma EightBytes()
    ensures Pow256(8) == 0x1_0000_0000_0000_0000
  {
    assert Pow256(4) == 0x1_0000_0000;
    Pow256Adds(4, 4);
  }

  lemma BytesOf256()
    ensures N < Pow256(32) < 2 * (N - 1)
  {
    hide Pow256;
    EightBytes();
    Pow256Adds(8, 8);
    Pow256Adds(16, 16);
  }

  lemma {:induction false} Pow256Adds(m: nat, n: nat)
    ensures Pow256(m + n) == Pow256(m) * Pow256(n)
    decreases m
  {
    if m > 0 { Pow256Adds(m - 1, n); }
  }

  /**
   The public point of a seed: refused unless it has 32 bytes, and else the multiple of the
   generator by its scalar.
   */
  method SeedToPublic(seed: Bytes) returns (q: Option<Point>)
    requires Fermat.Prime(P)
    ensures q.Some? <==> |seed| == 32
    ensures q.Some? ==> 1 <= Scalar(seed) < N && q.value.Affine? && 0 <= q.value.x < P && 0 <= q.value.y < P
    ensures q.Some? ==>
      var a := Times(Scalar(seed), Affine(GX, GY), P);
      if a.Affine? then q.value == a && OnCurve(a, B, P) else q.value == Affine(0, 0)
  {
    hide Times, Fermat.Prime, Res, Pow;
    if |seed| != 32 { return None; }
    var d := SeedToScalar(seed);
    TwoTo256();
    var x, y := P256Public(d);
    q := Some(Affine(x, y));
  }
}
