/**
 The base32 text of a byte string: section 6 of RFC 4648, lower case, no padding.
 The reference is a numeral: the bytes as one number, shifted up to a whole number of
 five-bit groups and written in base 32.
 */
module Base32 {
  import opened ByteStrings

  const WORD: nat := 0x1_0000_0000

  type digit = x: nat | x < 32

  /** The alphabet: a to z, then 2 to 7. */
  function Letter(x: digit): char {
    if x < 26 then 'a' + x as char else '2' + (x - 26) as char
  }

  predicate IsLetter(c: char) { 'a' <= c <= 'z' || '2' <= c <= '7' }

  function FromDigits(ds: seq<digit>): nat {
    if |ds| == 0 then 0 else 32 * FromDigits(ds[..|ds| - 1]) + ds[|ds| - 1] as nat
  }

  function Two(k: nat): (r: nat)
    requires k <= 12
    ensures r > 0
  {
    [1, 2, 4, 8, 16, 32, 64, 128, 256, 512, 1024, 2048, 4096][k]
  }

  /** Bits missing to the next multiple of five. */
  function Pad(n: nat): (p: nat)
    ensures p < 5 && (8 * n + p) % 5 == 0
  {
    (5 - 8 * n % 5) % 5
  }

  /** The length of the text of n bytes: 8n over 5, rounded up. */
  function TextLength(n: nat): nat { (8 * n + 4) / 5 }

  /** The digits of RFC 4648: of the right length and of the right value. */
  ghost predicate Encodes(ds: seq<digit>, b: Bytes) {
    |ds| == TextLength(|b|) && FromDigits(ds) == BigEndian(b) * Two(Pad(|b|))
  }

  /** The number n in base 32, in len digits. */
  function ToDigits(n: nat, len: nat): (ds: seq<digit>)
    ensures |ds| == len
  {
    if len == 0 then [] else ToDigits(n / 32, len - 1) + [n % 32]
  }

  function Letters(ds: seq<digit>): (o: string)
    ensures |o| == |ds|
  {
    seq(|ds|, i requires 0 <= i < |ds| => Letter(ds[i]))
  }

  function DigitsOf(b: Bytes): seq<digit> { ToDigits(BigEndian(b) * Two(Pad(|b|)), TextLength(|b|)) }

  /** The base32 text of b. */
  function Text(b: Bytes): string { Letters(DigitsOf(b)) }

  // ----------------------------------------------------------------- numerals

  function Pow32(n: nat): nat { if n == 0 then 1 else 32 * Pow32(n - 1) }
  lemma {:induction false} DigitsBound(ds: seq<digit>)
    ensures FromDigits(ds) < Pow32(|ds|)
  {
    if |ds| > 0 { DigitsBound(ds[..|ds| - 1]); }
  }

  /** A numeral is its number: digits to number to digits. */
  lemma {:induction false} DigitsReadBack(ds: seq<digit>)
    ensures ToDigits(FromDigits(ds), |ds|) == ds
  {
    if |ds| > 0 {
      DigitsReadBack(ds[..|ds| - 1]);
      assert ds == ds[..|ds| - 1] + [ds[|ds| - 1]];
    }
  }

  lemma {:induction false} NumberReadsBack(n: nat, len: nat)
    requires n < Pow32(len)
    ensures FromDigits(ToDigits(n, len)) == n
  {
    if len > 0 {
      NumberReadsBack(n / 32, len - 1);
      assert ToDigits(n, len)[..len - 1] == ToDigits(n / 32, len - 1);
    }
  }

  lemma EncodingIsUnique(ds: seq<digit>, b: Bytes)
    requires Encodes(ds, b)
    ensures ds == DigitsOf(b)
  {
    DigitsReadBack(ds);
  }

  // ------------------------------------------------------------- the accumulator

  lemma QuotientIs(n: nat, m: nat, q: nat, r: nat)
    requires r < m && n == m * q + r
    ensures n / m == q
  {
    var d := n / m - q;
    assert m * d == r - n % m by {
      assert m * (n / m) == m * q + m * d;
    }
  }

  lemma DivDiv(n: nat, d: nat)
    requires d > 0
    ensures n / (32 * d) == n / d / 32
  {
    var q := n / d;
    Distribute(d, q / 32, q % 32);
    Scale(d, q % 32, 31);
    QuotientIs(n, 32 * d, q / 32, d * (q % 32) + n % d);
  }

  lemma Distribute(d: nat, p: nat, low: nat)
    ensures d * (32 * p + low) == (32 * d) * p + d * low
  {
  }

  lemma Scale(d: nat, low: nat, high: nat)
    requires low <= high
    ensures d * low <= d * high
  {
  }

  lemma DivPlus(t: nat, v: nat, d: nat)
    requires d > 0
    ensures (d * t + v) / d == t + v / d
  {
    assert d * (t + v / d) == d * t + d * (v / d);
    QuotientIs(d * t + v, d, t + v / d, v % d);
  }

  /** The five bits on top of what is left. */
  lemma TopBits(n: nat, bits: nat)
    requires 5 <= bits <= 12
    ensures n / Two(bits - 5) == 32 * (n / Two(bits)) + n / Two(bits - 5) % 32
  {
    assert Two(bits) == 32 * Two(bits - 5);
    hide Two;
    DivDiv(n, Two(bits - 5));
  }

  /** What wrapped off the 32-bit word is never read. */
  lemma WrapIsHarmless(n: nat, k: nat)
    requires k <= 7
    ensures n % WORD / Two(k) % 32 == n / Two(k) % 32
  {
    var v, q, d := n % WORD, n / WORD, Two(k);
    var c := [134217728, 67108864, 33554432, 16777216, 8388608, 4194304, 2097152, 1048576][k];
    assert WORD == d * (32 * c);
    hide Two;
    Regroup(d, c, q);
    var y := c * q;
    assert n == d * (32 * y) + v;
    DivPlus(32 * y, v, d);
    Mod32Plus(y, v / d);
  }

  lemma Regroup(d: nat, c: nat, q: nat)
    ensures d * (32 * c) * q == d * (32 * (c * q))
  {
    assert d * (32 * c) * q == d * ((32 * c) * q);
    assert (32 * c) * q == 32 * (c * q);
  }

  /** Bytes shifted in, with the word wrapping at 32 bits. */
  function Shifted(v: nat, b: byte): nat { (v * 256 + b) % WORD }

  lemma ShiftedWraps(n: nat, b: byte)
    ensures Shifted(n % WORD, b) == (256 * n + b) % WORD
  {
    var v, q := n % WORD, n / WORD;
    assert 256 * n + b == WORD * (256 * q) + (v * 256 + b);
    ModPlus(256 * q, v * 256 + b);
  }

  lemma ModPlus(t: nat, v: nat)
    ensures (WORD * t + v) % WORD == v % WORD
  {
    DivPlus(t, v, WORD);
  }

  // ------------------------------------------------------------------- the loop

  lemma DigitsSnoc(ds: seq<digit>, d: digit)
    ensures FromDigits(ds + [d]) == 32 * FromDigits(ds) + d
  {
    assert (ds + [d])[..|ds|] == ds;
  }

  /** The groups that are complete after a byte. */
  method TakeGroups(v: nat, ghost n: nat, bits0: nat, ds0: seq<digit>) returns (bits: nat, ds: seq<digit>)
    requires v == n % WORD && bits0 <= 12 && FromDigits(ds0) == n / Two(bits0)
    ensures bits < 5 && FromDigits(ds) == n / Two(bits) && 5 * |ds| + bits == 5 * |ds0| + bits0
  {
    hide Two, FromDigits;
    bits, ds := bits0, ds0;
    while bits >= 5
      invariant bits <= 12 && FromDigits(ds) == n / Two(bits) && 5 * |ds| + bits == 5 * |ds0| + bits0
    {
      var d: digit := v / Two(bits - 5) % 32;
      TopBits(n, bits);
      WrapIsHarmless(n, bits - 5);
      DigitsSnoc(ds, d);
      ds := ds + [d];
      bits := bits - 5;
    }
  }

  lemma EightMore(n: nat, b: byte, bits: nat)
    requires bits < 5
    ensures (256 * n + b) / Two(bits + 8) == n / Two(bits)
  {
    var d := Two(bits);
    assert Two(bits + 8) == 256 * d;
    hide Two;
    assert d * (n / d) + n % d == n;
    assert 256 * n + b == (256 * d) * (n / d) + (256 * (n % d) + b) by {
      assert (256 * d) * (n / d) == 256 * (d * (n / d));
    }
    assert n % d <= d - 1;
    QuotientIs(256 * n + b, 256 * d, n / d, 256 * (n % d) + b);
  }

  /** The text of a byte string, eight bits in and five bits out. */
  method B32(b: Bytes) returns (o: string)
    ensures o == Text(b)
  {
    hide Two, FromDigits, BigEndian, Letters, Pad, TextLength;
    var v, bits, i := 0, 0, 0;
    var ds: seq<digit> := [];
    NothingYet();
    assert b[..0] == [];
    while i < |b|
      invariant 0 <= i <= |b| && bits < 5
      invariant v == BigEndian(b[..i]) % WORD
      invariant FromDigits(ds) == BigEndian(b[..i]) / Two(bits)
      invariant 5 * |ds| + bits == 8 * i
    {
      ghost var n := BigEndian(b[..i]);
      ByteMore(b, i);
      ShiftedWraps(n, b[i]);
      EightMore(n, b[i], bits);
      v := Shifted(v, b[i]);
      bits := bits + 8;
      bits, ds := TakeGroups(v, 256 * n + b[i], bits, ds);
      i := i + 1;
    }
    assert b[..i] == b;
    if bits > 0 {
      ghost var n := BigEndian(b);
      var d: digit := v * Two(5 - bits) % WORD % 32;
      LastGroup(n, bits);
      DigitsSnoc(ds, d);
      ds := ds + [d];
    }
    PadIs(|b|, bits, |ds|);
    EncodingIsUnique(ds, b);
    o := Letters(ds);
  }

  lemma NothingYet()
    ensures FromDigits([]) == 0 && BigEndian([]) == 0 && Two(0) == 1
  {
  }

  lemma ByteMore(b: Bytes, i: nat)
    requires i < |b|
    ensures BigEndian(b[..i + 1]) == 256 * BigEndian(b[..i]) + b[i]
  {
    assert b[..i + 1][..i] == b[..i];
  }

  lemma PadIs(n: nat, bits: nat, length: nat)
    requires bits < 5 && 5 * length == if bits == 0 then 8 * n else 8 * n + 5 - bits
    ensures Pad(n) == (if bits == 0 then 0 else 5 - bits) && length == TextLength(n)
  {
  }

  lemma Mod32OfWrapped(a: nat)
    ensures a % WORD % 32 == a % 32
  {
    var t, w := a / WORD, a % WORD;
    assert a == 32 * (134217728 * t) + w;
  }

  /** The last, short group: its bits moved up. */
  lemma LastGroup(n: nat, bits: nat)
    requires 0 < bits < 5
    ensures n * Two(5 - bits) == 32 * (n / Two(bits)) + n % WORD * Two(5 - bits) % WORD % 32
  {
    var v, q, d, m := n % WORD, n / WORD, Two(bits), Two(5 - bits);
    assert d * m == 32;
    hide Two;
    assert n * m % 32 == n % d * m by { ShortRest(n, d, m); }
    assert n * m % 32 == v * m % 32 by {
      Regrouped(WORD, q, v, m);
      Mod32Plus(134217728 * (q * m), v * m);
    }
    Mod32OfWrapped(v * m);
    ShortRest(n, d, m);
  }

  lemma Mod32Plus(t: nat, v: nat)
    ensures (32 * t + v) % 32 == v % 32
  {
  }

  lemma ShortRest(n: nat, d: nat, m: nat)
    requires d > 0 && m > 0 && d * m == 32
    ensures n * m == 32 * (n / d) + n % d * m && n * m % 32 == n % d * m
  {
    ShortSum(n, d, m, n / d, n % d);
    Mod32Plus(n / d, n % d * m);
  }

  lemma ShortSum(n: nat, d: nat, m: nat, x: nat, r: nat)
    requires n == d * x + r && r < d && m > 0 && d * m == 32
    ensures n * m == 32 * x + r * m && r * m < 32
  {
    Below(m, r, d);
    Regrouped(d, x, r, m);
  }

  lemma Below(m: nat, r: nat, d: nat)
    requires r < d && m > 0
    ensures r * m < d * m
  {
  }

  lemma Regrouped(d: nat, x: nat, r: nat, m: nat)
    ensures (d * x + r) * m == (d * m) * x + r * m
    ensures (d * m) * x == d * (x * m)
  {
  }

  // ------------------------------------------------------------------ decoding

  /** The bytes whose text these digits are, the padding bits dropped. */
  function Decode(ds: seq<digit>): Bytes {
    var n := 5 * |ds| / 8;
    ToBigEndian(FromDigits(ds) / Two(5 * |ds| % 8), n)
  }

  lemma LengthsMeet(n: nat)
    ensures 5 * TextLength(n) == 8 * n + Pad(n)
    ensures 5 * TextLength(n) / 8 == n && 5 * TextLength(n) % 8 == Pad(n)
  {
  }

  lemma {:induction false} PowersMeet(n: nat, len: nat, p: nat)
    requires 5 * len == 8 * n + p && p < 5
    ensures Pow256(n) * Two(p) == Pow32(len)
    decreases n
  {
    hide Two, Pow256, Pow32;
    if n >= 5 {
      PowersMeet(n - 5, len - 8, p);
      EightGroups(len);
      FiveBytes(n);
      ScaleBoth(Pow256(n - 5), Two(p));
    } else {
      SmallPowers(n, len, p);
    }
  }

  lemma ScaleBoth(a: nat, b: nat)
    ensures (1099511627776 * a) * b == 1099511627776 * (a * b)
  {
  }

  lemma SmallPowers(n: nat, len: nat, p: nat)
    requires 5 * len == 8 * n + p && p < 5 && n < 5
    ensures Pow256(n) * Two(p) == Pow32(len)
  {
    if n == 0 {
      assert len == 0;
    } else if n == 1 {
      assert len == 2 && p == 2;
      assert Pow256(1) == 256 && Pow32(2) == 1024;
    } else if n == 2 {
      assert len == 4 && p == 4;
      assert Pow256(2) == 65536 && Pow32(4) == 1048576;
    } else if n == 3 {
      assert len == 5 && p == 1;
      assert Pow256(3) == 16777216 && Pow32(5) == 33554432;
    } else {
      assert len == 7 && p == 3;
      FourGroups(7);
      assert Pow32(3) == 32768;
      assert Pow256(4) == 4294967296 && Pow32(7) == 34359738368;
    }
  }

  lemma EightGroups(len: nat)
    requires len >= 8
    ensures Pow32(len) == 1099511627776 * Pow32(len - 8)
  {
    FourGroups(len);
    FourGroups(len - 4);
  }

  lemma FourGroups(len: nat)
    requires len >= 4
    ensures Pow32(len) == 1048576 * Pow32(len - 4)
  {
    assert Pow32(len) == 32 * Pow32(len - 1);
    assert Pow32(len - 1) == 32 * Pow32(len - 2);
    assert Pow32(len - 2) == 32 * Pow32(len - 3);
  }

  lemma FiveBytes(n: nat)
    requires n >= 5
    ensures Pow256(n) == 1099511627776 * Pow256(n - 5)
  {
    assert Pow256(n) == 256 * Pow256(n - 1);
    assert Pow256(n - 1) == 256 * Pow256(n - 2);
    assert Pow256(n - 2) == 256 * Pow256(n - 3);
    assert Pow256(n - 3) == 256 * Pow256(n - 4);
  }

  /** The digits of b are those of RFC 4648: right length, right value. */
  lemma DigitsEncode(b: Bytes)
    ensures Encodes(DigitsOf(b), b)
  {
    hide Two, Pow32, Pow256, BigEndian, FromDigits, ToDigits, Pad, TextLength;
    var p, len := Pad(|b|), TextLength(|b|);
    LengthsMeet(|b|);
    PowersMeet(|b|, len, p);
    BigEndianBack(b);
    Below(Two(p), BigEndian(b), Pow256(|b|));
    NumberReadsBack(BigEndian(b) * Two(p), len);
  }

  /** Decoding undoes encoding, for every byte string. */
  lemma DecodeUndoes(b: Bytes)
    ensures Decode(DigitsOf(b)) == b
  {
    DigitsEncode(b);
    LengthsMeet(|b|);
    hide Two, FromDigits, ToDigits;
    var p := Pad(|b|);
    assert BigEndian(b) * Two(p) / Two(p) == BigEndian(b) by {
      DivPlus(BigEndian(b), 0, Two(p));
      assert Two(p) * BigEndian(b) == BigEndian(b) * Two(p);
    }
    BigEndianBack(b);
  }

  lemma LettersDiffer(x: digit, y: digit)
    ensures IsLetter(Letter(x)) && (Letter(x) == Letter(y) ==> x == y)
  {
  }

  /** Different bytes have different texts. */
  lemma TextIsInjective(a: Bytes, b: Bytes)
    requires Text(a) == Text(b)
    ensures a == b
  {
    var x, y := DigitsOf(a), DigitsOf(b);
    assert |x| == |Text(a)| == |y|;
    forall i | 0 <= i < |x| ensures x[i] == y[i] {
      assert Text(a)[i] == Text(b)[i];
      LettersDiffer(x[i], y[i]);
    }
    assert x == y;
    DecodeUndoes(a);
    DecodeUndoes(b);
  }

  /** Digits are the text of some bytes exactly when their length is one a text has and their padding bits are zero. */
  lemma IsTextIff(ds: seq<digit>)
    ensures ds == DigitsOf(Decode(ds)) <==>
      |ds| == TextLength(5 * |ds| / 8) && FromDigits(ds) % Two(5 * |ds| % 8) == 0
  {
    var n, p := 5 * |ds| / 8, 5 * |ds| % 8;
    if |ds| == TextLength(n) {
      DecodedValue(ds);
      var b := Decode(ds);
      DigitsEncode(b);
      DigitsReadBack(ds);
      hide Two, Decode, FromDigits, BigEndian, ToDigits;
      RestIsZeroIff(FromDigits(ds), Two(p));
      assert Encodes(DigitsOf(b), b);
      assert ToDigits(FromDigits(ds), |ds|) == ds;
    }
  }

  lemma RestIsZeroIff(n: nat, d: nat)
    requires d > 0
    ensures n == n / d * d <==> n % d == 0
  {
    assert n / d * d == d * (n / d);
  }

  /** What is decoded has the number of the digits, less the padding bits. */
  lemma DecodedValue(ds: seq<digit>)
    requires |ds| == TextLength(5 * |ds| / 8)
    ensures var n, p := 5 * |ds| / 8, 5 * |ds| % 8;
      p == Pad(n) && |Decode(ds)| == n && BigEndian(Decode(ds)) == FromDigits(ds) / Two(p)
  {
    var n, p := 5 * |ds| / 8, 5 * |ds| % 8;
    LengthsMeet(n);
    DigitsBound(ds);
    PowersMeet(n, |ds|, p);
    hide Two, FromDigits, Pow32, Pow256;
    QuotientBelow(FromDigits(ds), Two(p), Pow256(n));
    BigEndianRoundTrip(FromDigits(ds) / Two(p), n);
  }

  lemma QuotientBelow(n: nat, d: nat, m: nat)
    requires d > 0 && n < m * d
    ensures n / d < m
  {
    var t := n / d;
    assert n == d * t + n % d;
    if t >= m { Scale(d, m, t); }
  }
}
