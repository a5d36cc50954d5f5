/**
 The two CRC-32 implementations of the build scripts: the table-driven one of the
 ZIP library and the bit-by-bit one that writes the icon. The reference is the
 serial register, fed one message bit at a time, least significant first.
 */
module Crc32 {

  type Word = bv32

  const POLYNOMIAL: Word := 0xEDB88320

  function Xor(a: Word, b: Word): Word { a ^ b }
  function Half(c: Word): Word { c >> 1 }
  function Low(c: Word): Word { c & 1 }
  function Tap(bit: Word): Word { if bit == 1 then POLYNOMIAL else 0 }

  /** The register shifted once: the reflected polynomial is added when the low bit falls out. */
  function Shift(c: Word): Word { Xor(Half(c), Tap(Low(c))) }

  function Shifts(c: Word, n: nat): Word
    decreases n
  {
    if n == 0 then c else Shifts(Shift(c), n - 1)
  }

  /** The register after the low n bits of b, one at a time. */
  function Serial(c: Word, b: Word, n: nat): Word
    decreases n
  {
    if n == 0 then c else Serial(Shift(Xor(c, Low(b))), Half(b), n - 1)
  }

  function Register(c: Word, data: seq<bv8>): Word {
    if data == [] then c else Serial(Register(c, data[..|data| - 1]), data[|data| - 1] as Word, 8)
  }

  /** CRC-32: all ones in, the register complemented out. */
  function Crc(data: seq<bv8>): Word {
    Xor(Register(0xFFFFFFFF, data), 0xFFFFFFFF)
  }

  // --------------------------------------------------------- the bit lemmas

  lemma XorPairs(a: Word, b: Word, p: Word, q: Word)
    ensures Xor(Xor(a, p), Xor(b, q)) == Xor(Xor(a, b), Xor(p, q))
  {
    hide Xor;
    XorAssoc(a, p, Xor(b, q));
    XorAssoc(p, b, q);
    XorSwap(p, b);
    XorAssoc(b, p, q);
    XorAssoc(a, b, Xor(p, q));
  }

  lemma XorAssoc(a: Word, b: Word, c: Word)
    ensures Xor(Xor(a, b), c) == Xor(a, Xor(b, c))
  {
  }

  lemma XorZero(a: Word)
    ensures Xor(a, 0) == a
  {
  }

  lemma XorSwap(a: Word, b: Word)
    ensures Xor(a, b) == Xor(b, a)
  {
  }

  lemma HalfOfXor(x: Word, y: Word)
    ensures Half(Xor(x, y)) == Xor(Half(x), Half(y))
    ensures Low(Xor(x, y)) == Xor(Low(x), Low(y))
  {
  }

  lemma TapOfXor(x: Word, y: Word)
    ensures Tap(Xor(Low(x), Low(y))) == Xor(Tap(Low(x)), Tap(Low(y)))
  {
    LowIsBit(x);
    LowIsBit(y);
    hide Low;
  }

  lemma LowIsBit(x: Word)
    ensures Low(x) == 0 || Low(x) == 1
    ensures Half(Low(x)) == 0 && Low(Low(x)) == Low(x)
  {
  }

  /** A shift is linear over exclusive or. */
  lemma ShiftLinear(x: Word, y: Word)
    ensures Shift(Xor(x, y)) == Xor(Shift(x), Shift(y))
  {
    hide Xor, Half, Low, Tap;
    HalfOfXor(x, y);
    TapOfXor(x, y);
    XorPairs(Half(x), Half(y), Tap(Low(x)), Tap(Low(y)));
  }

  lemma {:induction false} ShiftsLinear(x: Word, y: Word, n: nat)
    ensures Shifts(Xor(x, y), n) == Xor(Shifts(x, n), Shifts(y, n))
    decreases n
  {
    if n > 0 {
      hide Xor, Shift;
      ShiftLinear(x, y);
      ShiftsLinear(Shift(x), Shift(y), n - 1);
    }
  }

  /** Feeding the low bit and shifting the others in later is shifting them all in. */
  lemma ShiftFeeds(c: Word, b: Word)
    ensures Shift(Xor(c, b)) == Xor(Shift(Xor(c, Low(b))), Half(b))
  {
    hide Xor, Half, Low, Tap;
    HalfOfXor(c, b);
    HalfOfXor(c, Low(b));
    LowIsBit(b);
    XorZero(Half(c));
    XorZero(Half(b));
    XorPairs(Half(c), Half(b), Tap(Low(Xor(c, b))), 0);
    XorZero(Tap(Low(Xor(c, b))));
  }

  /** b has no bit above the low n. */
  predicate Fits(b: Word, n: nat)
    decreases n
  {
    if n == 0 then b == 0 else Fits(Half(b), n - 1)
  }

  lemma {:induction false} BytewiseIsSerial(c: Word, b: Word, n: nat)
    requires Fits(b, n)
    ensures Shifts(Xor(c, b), n) == Serial(c, b, n)
    decreases n
  {
    hide Xor, Shift, Half, Low;
    if n == 0 {
      XorZero(c);
    } else {
      ShiftFeeds(c, b);
      BytewiseIsSerial(Shift(Xor(c, Low(b))), Half(b), n - 1);
    }
  }

  // ------------------------------------------------------- the table's step

  function LowByte(x: Word): Word { x & 0xFF }
  function HighBytes(x: Word): Word { x & 0xFFFFFF00 }

  lemma SplitBytes(x: Word)
    ensures x == Xor(LowByte(x), HighBytes(x))
  {
  }

  lemma {:induction false} FitsIsHalves(b: Word, n: nat)
    ensures Fits(b, n) <==> Halves(b, n) == 0
    decreases n
  {
    hide Half;
    if n > 0 { FitsIsHalves(Half(b), n - 1); }
  }

  lemma ByteIsLow(b: bv8)
    ensures b as Word >> 8 == 0
  {
  }

  lemma DownOfXor(x: Word, y: Word)
    ensures Xor(x, y) >> 8 == Xor(x >> 8, y >> 8)
  {
    hide Xor, Halves;
    HalvesOfXor(x, y, 8);
    EightHalves(x);
    EightHalves(y);
    EightHalves(Xor(x, y));
  }

  lemma {:induction false} HalvesOfXor(x: Word, y: Word, n: nat)
    ensures Halves(Xor(x, y), n) == Xor(Halves(x, n), Halves(y, n))
    decreases n
  {
    hide Xor, Half;
    if n > 0 {
      HalfOfXor(x, y);
      HalvesOfXor(Half(x), Half(y), n - 1);
    }
  }

  lemma HighDown(x: Word)
    ensures HighBytes(x) >> 8 == x >> 8
  {
  }

  /** A byte fed to the register touches none of its upper bytes. */
  lemma ByteStaysLow(c: Word, b: bv8)
    ensures HighBytes(Xor(c, b as Word)) >> 8 == c >> 8
    ensures Fits(b as Word, 8)
  {
    hide Xor, HighBytes, Fits, Halves;
    ByteIsLow(b);
    HighDown(Xor(c, b as Word));
    DownOfXor(c, b as Word);
    XorZero(c >> 8);
    EightHalves(b as Word);
    FitsIsHalves(b as Word, 8);
  }

  lemma EightHalves(b: Word)
    ensures Halves(b, 8) == b >> 8
  {
    hide Half;
    assert Halves(b, 8) == Halves(Half(Half(Half(Half(b)))), 4);
    EightHalvings(b);
  }

  lemma EightHalvings(b: Word)
    ensures Half(Half(Half(Half(Half(Half(Half(Half(b)))))))) == b >> 8
  {
  }

  function Halves(c: Word, n: nat): Word
    decreases n
  {
    if n == 0 then c else Halves(Half(c), n - 1)
  }

  /** The low n bits are clear. */
  predicate Clear(c: Word, n: nat)
    decreases n
  {
    n == 0 || (Low(c) == 0 && Clear(Half(c), n - 1))
  }

  lemma {:induction false} ClearMovesDown(c: Word, n: nat)
    requires Clear(c, n)
    ensures Shifts(c, n) == Halves(c, n)
    decreases n
  {
    if n > 0 {
      hide Half, Low, Xor;
      XorZero(Half(c));
      ClearMovesDown(Half(c), n - 1);
    }
  }

  lemma FourClear(c: Word)
    requires c & 0xF == 0
    ensures Low(c) == 0 && Low(Half(c)) == 0
    ensures Low(Half(Half(c))) == 0 && Low(Half(Half(Half(c)))) == 0
  {
  }

  lemma HighIsClear(h: Word)
    ensures Clear(HighBytes(h), 8)
  {
    var c := HighBytes(h);
    var d := Half(Half(Half(Half(c))));
    assert c & 0xF == 0 && d & 0xF == 0;
    FourClear(c);
    FourClear(d);
    hide Half, Low, HighBytes;
    assert Clear(d, 4);
    assert Clear(c, 8);
  }

  /** With its low byte empty, the register only moves down. */
  lemma EmptyByteMovesDown(h: Word)
    ensures Shifts(HighBytes(h), 8) == HighBytes(h) >> 8
  {
    hide HighBytes, Shifts, Clear, Halves;
    HighIsClear(h);
    ClearMovesDown(HighBytes(h), 8);
    EightHalves(HighBytes(h));
  }

  /** One byte through the table is eight shifts of the register. */
  lemma TableStep(c: Word, b: bv8)
    ensures Serial(c, b as Word, 8) == Xor(Shifts(LowByte(Xor(c, b as Word)), 8), c >> 8)
  {
    var x := Xor(c, b as Word);
    ByteStaysLow(c, b);
    SplitBytes(x);
    hide Xor, Shift, LowByte, HighBytes, Fits, Serial;
    BytewiseIsSerial(c, b as Word, 8);
    ShiftsLinear(LowByte(x), HighBytes(x), 8);
    EmptyByteMovesDown(x);
  }

  // ------------------------------------------------- what a checksum is for

  lemma XorCancels(a: Word, b: Word, c: Word)
    requires Xor(a, c) == Xor(b, c)
    ensures a == b
  {
    hide Xor;
    XorAssoc(a, c, c);
    XorAssoc(b, c, c);
    XorSelf(c);
    XorZero(a);
    XorZero(b);
  }

  lemma XorSelf(c: Word)
    ensures Xor(c, c) == 0
  {
  }

  /** The top bit of a shifted register tells which bit fell out, so nothing is lost. */
  lemma ShiftLosesNothing(a: Word, b: Word)
    requires Shift(a) == Shift(b)
    ensures a == b
  {
  }

  lemma {:induction false} ShiftsLoseNothing(a: Word, b: Word, n: nat)
    requires Shifts(a, n) == Shifts(b, n)
    ensures a == b
    decreases n
  {
    hide Shift;
    if n > 0 {
      ShiftsLoseNothing(Shift(a), Shift(b), n - 1);
      ShiftLosesNothing(a, b);
    }
  }

  lemma ByteLosesNothing(c: Word, x: bv8, d: Word, y: bv8)
    requires Serial(c, x as Word, 8) == Serial(d, y as Word, 8)
    ensures x == y ==> c == d
    ensures c == d ==> x as Word == y as Word
  {
    hide Serial, Shifts, Fits, Xor;
    ByteStaysLow(c, x);
    ByteStaysLow(d, y);
    BytewiseIsSerial(c, x as Word, 8);
    BytewiseIsSerial(d, y as Word, 8);
    ShiftsLoseNothing(Xor(c, x as Word), Xor(d, y as Word), 8);
    if x == y { XorCancels(c, d, x as Word); }
    if c == d {
      XorSwap(c, x as Word);
      XorSwap(c, y as Word);
      XorCancels(x as Word, y as Word, c);
    }
  }

  lemma {:induction false} TailLosesNothing(c: Word, d: Word, data: seq<bv8>)
    requires Register(c, data) == Register(d, data)
    ensures c == d
  {
    hide Serial;
    if data != [] {
      var k := |data| - 1;
      ByteLosesNothing(Register(c, data[..k]), data[k], Register(d, data[..k]), data[k]);
      TailLosesNothing(c, d, data[..k]);
    }
  }

  lemma {:induction false} RegisterJoins(c: Word, a: seq<bv8>, b: seq<bv8>)
    ensures Register(c, a + b) == Register(Register(c, a), b)
    decreases |b|
  {
    hide Serial;
    if b == [] {
      assert a + b == a;
    } else {
      assert (a + b)[..|a + b| - 1] == a + b[..|b| - 1];
      RegisterJoins(c, a, b[..|b| - 1]);
    }
  }

  lemma WordsOfBytes(x: bv8, y: bv8)
    ensures x as Word == y as Word ==> x == y
  {
  }

  /** A change confined to one byte, anywhere in any file, changes the checksum. */
  lemma OneByteChangeIsSeen(before: seq<bv8>, x: bv8, y: bv8, after: seq<bv8>)
    requires x != y
    ensures Crc(before + [x] + after) != Crc(before + [y] + after)
  {
    hide Serial, Xor;
    if Crc(before + [x] + after) == Crc(before + [y] + after) {
      var start: Word := 0xFFFFFFFF;
      XorCancels(Register(start, before + [x] + after), Register(start, before + [y] + after), start);
      RegisterJoins(start, before + [x], after);
      RegisterJoins(start, before + [y], after);
      TailLosesNothing(Register(start, before + [x]), Register(start, before + [y]), after);
      var c := Register(start, before);
      assert (before + [x])[..|before|] == before && (before + [y])[..|before|] == before;
      ByteLosesNothing(c, x, c, y);
      WordsOfBytes(x, y);
      assert false;
    }
  }

  // -------------------------------------------------------------- the scripts

  /** The shift as the ZIP library writes it. */
  function TableShift(c: Word): Word {
    if c & 1 != 0 then POLYNOMIAL ^ (c >> 1) else c >> 1
  }

  lemma TableShiftIsShift(c: Word)
    ensures TableShift(c) == Shift(c)
  {
    LowIsBit(c);
    if Low(c) == 0 {
      XorZero(Half(c));
    } else {
      XorSwap(Half(c), POLYNOMIAL);
    }
  }

  /** The shift as the icon writer does it. */
  function BitwiseShift(c: Word): Word {
    (c >> 1) ^ (if c & 1 != 0 then POLYNOMIAL else 0)
  }

  lemma BitwiseShiftIsShift(c: Word)
    ensures BitwiseShift(c) == Shift(c)
  {
    LowIsBit(c);
  }

  lemma {:induction false} ShiftsSnoc(c: Word, n: nat)
    ensures Shifts(c, n + 1) == Shift(Shifts(c, n))
    decreases n
  {
    hide Shift;
    if n > 0 { ShiftsSnoc(Shift(c), n - 1); }
  }

  method EightTableShifts(i: Word) returns (c: Word)
    ensures c == Shifts(i, 8)
  {
    hide Shift, TableShift;
    c := i;
    var j := 0;
    while j < 8
      invariant j <= 8 && c == Shifts(i, j)
    {
      TableShiftIsShift(c);
      ShiftsSnoc(i, j);
      c := TableShift(c);
      j := j + 1;
    }
  }

  /** Entry i of the table is the register i after eight shifts. */
  predicate IsTable(t: seq<Word>) {
    |t| == 256 && forall i :: 0 <= i < 256 ==> t[i] == Shifts(i as Word, 8)
  }

  method MakeTable() returns (t: array<Word>)
    ensures fresh(t) && IsTable(t[..])
  {
    hide Shifts;
    t := new Word[256];
    var i := 0;
    while i < 256
      invariant i <= 256
      invariant forall k :: 0 <= k < i ==> t[k] == Shifts(k as Word, 8)
    {
      t[i] := EightTableShifts(i as Word);
      i := i + 1;
    }
  }

  lemma LookUp(t: seq<Word>, c: Word)
    requires IsTable(t)
    ensures LowByte(c) as int < 256 == |t| && t[LowByte(c) as int] == Shifts(LowByte(c), 8)
  {
    hide Shifts;
    assert LowByte(c) < 256;
    assert (LowByte(c) as int) as Word == LowByte(c);
  }

  /** The checksum through the table, one lookup per byte. */
  method TableCrc(t: array<Word>, data: seq<bv8>) returns (crc: Word)
    requires IsTable(t[..])
    ensures crc == Crc(data)
  {
    hide Shifts, Serial, LowByte, Xor, IsTable;
    var c: Word := 0xFFFFFFFF;
    var i := 0;
    while i < |data|
      invariant i <= |data|
      invariant c == Register(0xFFFFFFFF, data[..i])
    {
      assert data[..i + 1][..i] == data[..i];
      TableStep(c, data[i]);
      LookUp(t[..], Xor(c, data[i] as Word));
      c := Xor(t[LowByte(Xor(c, data[i] as Word)) as int], c >> 8);
      i := i + 1;
    }
    assert data[..i] == data;
    crc := Xor(c, 0xFFFFFFFF);
  }

  /** The checksum bit by bit, with no table. */
  method BitwiseCrc(data: seq<bv8>) returns (crc: Word)
    ensures crc == Crc(data)
  {
    hide Shifts, Serial, Xor, Shift, BitwiseShift, Fits;
    var c: Word := 0xFFFFFFFF;
    var i := 0;
    while i < |data|
      invariant i <= |data|
      invariant c == Register(0xFFFFFFFF, data[..i])
    {
      assert data[..i + 1][..i] == data[..i];
      ByteStaysLow(c, data[i]);
      BytewiseIsSerial(c, data[i] as Word, 8);
      c := EightBitwiseShifts(Xor(c, data[i] as Word));
      i := i + 1;
    }
    assert data[..i] == data;
    crc := Xor(c, 0xFFFFFFFF);
  }

  method EightBitwiseShifts(x: Word) returns (c: Word)
    ensures c == Shifts(x, 8)
  {
    hide Shift, BitwiseShift;
    c := x;
    var j := 0;
    while j < 8
      invariant j <= 8 && c == Shifts(x, j)
    {
      BitwiseShiftIsShift(c);
      ShiftsSnoc(x, j);
      c := BitwiseShift(c);
      j := j + 1;
    }
  }

  /** The two scripts agree on every file. */
  method BothScripts(data: seq<bv8>) returns (table: Word, bitwise: Word)
    ensures table == bitwise == Crc(data)
  {
    var t := MakeTable();
    table := TableCrc(t, data);
    bitwise := BitwiseCrc(data);
  }

  // ------------------------------------------------------------- the check value

  lemma RegisterSnoc(data: seq<bv8>, b: bv8)
    ensures Register(0xFFFFFFFF, data + [b]) == Serial(Register(0xFFFFFFFF, data), b as Word, 8)
  {
    assert (data + [b])[..|data|] == data;
  }

  lemma ThreeMore(data: seq<bv8>, a: bv8, b: bv8, c: bv8, x: Word, y: Word, z: Word)
    requires Serial(Register(0xFFFFFFFF, data), a as Word, 8) == x
    requires Serial(x, b as Word, 8) == y && Serial(y, c as Word, 8) == z
    ensures Register(0xFFFFFFFF, data + [a, b, c]) == z
  {
    hide Register, Serial;
    RegisterSnoc(data, a);
    RegisterSnoc(data + [a], b);
    RegisterSnoc(data + [a] + [b], c);
    assert data + [a, b, c] == data + [a] + [b] + [c];
  }

  lemma Digit1()
    ensures Serial(0xFFFFFFFF, 0x31, 8) == 0x7C231048
  {
  }

  lemma Digit2()
    ensures Serial(0x7C231048, 0x32, 8) == 0xB0ACBB32
  {
  }

  lemma Digit3()
    ensures Serial(0xB0ACBB32, 0x33, 8) == 0x77B79C2D
  {
  }

  lemma Digit4()
    ensures Serial(0x77B79C2D, 0x34, 8) == 0x641C1F5C
  {
  }

  lemma Digit5()
    ensures Serial(0x641C1F5C, 0x35, 8) == 0x340AC5E3
  {
  }

  lemma Digit6()
    ensures Serial(0x340AC5E3, 0x36, 8) == 0xF68D2C9E
  {
  }

  lemma Digit7()
    ensures Serial(0xF68D2C9E, 0x37, 8) == 0xAFFC9660
  {
  }

  lemma Digit8()
    ensures Serial(0xAFFC9660, 0x38, 8) == 0x651F2550
  {
  }

  lemma Digit9()
    ensures Serial(0x651F2550, 0x39, 8) == 0x340BC6D9
  {
  }

  lemma RegisterOfNone(c: Word)
    ensures Register(c, []) == c
  {
  }

  lemma OneToThree()
    ensures Register(0xFFFFFFFF, [0x31, 0x32, 0x33]) == 0x77B79C2D
  {
    hide Register, Serial;
    RegisterOfNone(0xFFFFFFFF);
    Digit1();
    Digit2();
    Digit3();
    ThreeMore([], 0x31, 0x32, 0x33, 0x7C231048, 0xB0ACBB32, 0x77B79C2D);
    var three: seq<bv8> := [0x31, 0x32, 0x33];
    assert [] + three == three;
  }

  lemma FourToSix()
    ensures Register(0xFFFFFFFF, [0x31, 0x32, 0x33] + [0x34, 0x35, 0x36]) == 0xF68D2C9E
  {
    OneToThree();
    Digit4();
    Digit5();
    Digit6();
    hide Register, Serial;
    ThreeMore([0x31, 0x32, 0x33], 0x34, 0x35, 0x36, 0x641C1F5C, 0x340AC5E3, 0xF68D2C9E);
  }

  /** The published check value: the CRC-32 of the nine digits 1 to 9. */
  lemma CheckValue()
    ensures Crc([0x31, 0x32, 0x33] + [0x34, 0x35, 0x36] + [0x37, 0x38, 0x39]) == 0xCBF43926
  {
    FourToSix();
    Digit7();
    Digit8();
    Digit9();
    hide Register, Serial;
    ThreeMore([0x31, 0x32, 0x33] + [0x34, 0x35, 0x36], 0x37, 0x38, 0x39, 0xAFFC9660, 0x651F2550, 0x340BC6D9);
  }
}
