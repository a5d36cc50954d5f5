/**
 The memory-hard middle of scrypt, in place over arrays of 32-bit words, against
 sections 3 to 6 of RFC 7914. Salsa20/8 is specified by the column and row
 rounds of the Salsa20 definition, the row round being the column round of the
 transposed matrix.
 */
module Scrypt {
  import opened Modular

  type Word = bv32
  type Words = seq<Word>

  // ------------------------------------------------------------- Salsa20/8

  function Rotl(a: Word, k: nat): Word
    requires 0 < k < 32
  {
    (a << k) | (a >> (32 - k))
  }

  function Mix(x: Word, a: Word, b: Word, k: nat): Word
    requires 0 < k < 32
  {
    x ^ Rotl(Plus(a, b), k)
  }

  /** The quarter round of Salsa20 on four words. */
  function Quarter(y: (Word, Word, Word, Word)): (Word, Word, Word, Word) {
    var z1 := Mix(y.1, y.0, y.3, 7);
    var z2 := Mix(y.2, z1, y.0, 9);
    var z3 := Mix(y.3, z2, z1, 13);
    var z0 := Mix(y.0, z3, z2, 18);
    (z0, z1, z2, z3)
  }

  /** The sixteen words as a matrix, four to a row; columns start at the diagonal. */
  function ColumnRound(x: Words): (z: Words)
    requires |x| == 16
    ensures |z| == 16
  {
    var a := Quarter((x[0], x[4], x[8], x[12]));
    var b := Quarter((x[5], x[9], x[13], x[1]));
    var c := Quarter((x[10], x[14], x[2], x[6]));
    var d := Quarter((x[15], x[3], x[7], x[11]));
    [a.0, b.3, c.2, d.1,
     a.1, b.0, c.3, d.2,
     a.2, b.1, c.0, d.3,
     a.3, b.2, c.1, d.0]
  }

  function Transpose(x: Words): (z: Words)
    requires |x| == 16
    ensures |z| == 16
  {
    [x[0], x[4], x[8], x[12],
     x[1], x[5], x[9], x[13],
     x[2], x[6], x[10], x[14],
     x[3], x[7], x[11], x[15]]
  }

  function RowRound(x: Words): (z: Words)
    requires |x| == 16
    ensures |z| == 16
  {
    Transpose(ColumnRound(Transpose(x)))
  }

  function DoubleRounds(x: Words, n: nat): (z: Words)
    requires |x| == 16
    ensures |z| == 16
  {
    if n == 0 then x else RowRound(ColumnRound(DoubleRounds(x, n - 1)))
  }

  /** Addition modulo 2^32. */
  function Plus(a: Word, b: Word): Word { a + b }

  function AddWords(x: Words, y: Words): (z: Words)
    requires |x| == |y|
    ensures |z| == |x|
  {
    seq(|x|, i requires 0 <= i < |x| => Plus(x[i], y[i]))
  }

  function XorWords(x: Words, y: Words): (z: Words)
    requires |x| == |y|
    ensures |z| == |x|
  {
    seq(|x|, i requires 0 <= i < |x| => x[i] ^ y[i])
  }

  /** Salsa20/8: eight rounds, added to the input. */
  function Salsa(x: Words): (z: Words)
    requires |x| == 16
    ensures |z| == 16
  {
    AddWords(x, DoubleRounds(x, 4))
  }

  /** One quarter round where it stands in the matrix. */
  function QuarterAt(x: Words, a: nat, b: nat, c: nat, d: nat): (z: Words)
    requires |x| == 16 && a < 16 && b < 16 && c < 16 && d < 16
    ensures |z| == 16
  {
    var q := Quarter((x[a], x[b], x[c], x[d]));
    x[a := q.0][b := q.1][c := q.2][d := q.3]
  }

  lemma ColumnsInPlace(x: Words)
    requires |x| == 16
    ensures QuarterAt(QuarterAt(QuarterAt(QuarterAt(x, 0, 4, 8, 12), 5, 9, 13, 1), 10, 14, 2, 6), 15, 3, 7, 11)
         == ColumnRound(x)
  {
    hide Quarter;
  }

  lemma RowsInPlace(x: Words)
    requires |x| == 16
    ensures QuarterAt(QuarterAt(QuarterAt(QuarterAt(x, 0, 1, 2, 3), 5, 6, 7, 4), 10, 11, 8, 9), 15, 12, 13, 14)
         == RowRound(x)
  {
    hide Quarter;
  }

  /** Four statements of the source: x[b] ^= rotl(x[a] + x[d], 7) and so on. */
  method QuarterInPlace(x: array<Word>, a: nat, b: nat, c: nat, d: nat)
    requires x.Length == 16 && a < 16 && b < 16 && c < 16 && d < 16
    requires a != b && a != c && a != d && b != c && b != d && c != d
    modifies x
    ensures x[..] == QuarterAt(old(x[..]), a, b, c, d)
  {
    hide Mix;
    x[b] := Mix(x[b], x[a], x[d], 7);
    x[c] := Mix(x[c], x[b], x[a], 9);
    x[d] := Mix(x[d], x[c], x[b], 13);
    x[a] := Mix(x[a], x[d], x[c], 18);
  }

  method DoubleRoundInPlace(x: array<Word>)
    requires x.Length == 16
    modifies x
    ensures x[..] == RowRound(ColumnRound(old(x[..])))
  {
    hide QuarterAt, ColumnRound, RowRound;
    ghost var x0 := x[..];
    QuarterInPlace(x, 0, 4, 8, 12);
    QuarterInPlace(x, 5, 9, 13, 1);
    QuarterInPlace(x, 10, 14, 2, 6);
    QuarterInPlace(x, 15, 3, 7, 11);
    ColumnsInPlace(x0);
    QuarterInPlace(x, 0, 1, 2, 3);
    QuarterInPlace(x, 5, 6, 7, 4);
    QuarterInPlace(x, 10, 11, 8, 9);
    QuarterInPlace(x, 15, 12, 13, 14);
    RowsInPlace(ColumnRound(x0));
  }

  // ------------------------------------------------------ loops over words

  /** for (k...) dst[d + k] = src[s + k] */
  method CopyWords(dst: array<Word>, d: nat, src: array<Word>, s: nat, n: nat)
    requires d + n <= dst.Length && s + n <= src.Length && dst != src
    modifies dst
    ensures dst[..] == old(dst[..])[..d] + old(src[..])[s..s + n] + old(dst[..])[d + n..]
  {
    ghost var piece := src[s..s + n];
    for k := 0 to n
      invariant src[s..s + n] == piece
      invariant forall j :: d <= j < d + k ==> dst[j] == piece[j - d]
      invariant forall j :: (0 <= j < d || d + k <= j < dst.Length) ==> dst[j] == old(dst[j])
    {
      assert src[s + k] == piece[k];
      dst[d + k] := src[s + k];
    }
    Spliced(dst[..], old(dst[..]), d, piece);
  }

  /** for (k...) dst[d + k] ^= src[s + k] */
  method XorInto(dst: array<Word>, d: nat, src: array<Word>, s: nat, n: nat)
    requires d + n <= dst.Length && s + n <= src.Length && dst != src
    modifies dst
    ensures dst[..] == old(dst[..])[..d] + XorWords(old(dst[..])[d..d + n],
      old(src[..])[s..s + n]) + old(dst[..])[d + n..]
  {
    hide XorWords;
    ghost var x, y := dst[d..d + n], src[s..s + n];
    ghost var piece := XorWords(x, y);
    for k := 0 to n
      invariant src[s..s + n] == y
      invariant forall j :: d <= j < d + k ==> dst[j] == piece[j - d]
      invariant forall j :: (0 <= j < d || d + k <= j < dst.Length) ==> dst[j] == old(dst[j])
    {
      XorAt(x, y, k);
      assert dst[d + k] == x[k] && src[s + k] == y[k];
      dst[d + k] := dst[d + k] ^ src[s + k];
    }
    Spliced(dst[..], old(dst[..]), d, piece);
  }

  /** for (k...) b[k] = b[k] + x[k] */
  method AddInto(b: array<Word>, x: array<Word>)
    requires b.Length == x.Length && b != x
    modifies b
    ensures b[..] == AddWords(old(b[..]), x[..])
  {
    hide AddWords, Plus;
    ghost var sum := AddWords(b[..], x[..]);
    for k := 0 to b.Length
      invariant forall j :: 0 <= j < k ==> b[j] == sum[j]
      invariant forall j :: k <= j < b.Length ==> b[j] == old(b[j])
    {
      AddAt(old(b[..]), x[..], k);
      b[k] := Plus(b[k], x[k]);
    }
  }

  lemma XorAt(x: Words, y: Words, i: nat)
    requires i < |x| == |y|
    ensures XorWords(x, y)[i] == x[i] ^ y[i]
  {
  }

  lemma AddAt(x: Words, y: Words, i: nat)
    requires i < |x| == |y|
    ensures AddWords(x, y)[i] == Plus(x[i], y[i])
  {
    hide Plus;
  }

  lemma Spliced(now: Words, was: Words, d: nat, piece: Words)
    requires |now| == |was| && d + |piece| <= |was|
    requires forall j :: d <= j < d + |piece| ==> now[j] == piece[j - d]
    requires forall j :: (0 <= j < d || d + |piece| <= j < |was|) ==> now[j] == was[j]
    ensures now == was[..d] + piece + was[d + |piece|..]
  {
  }

  /** The loop of salsa20_8: four double rounds on the scratch words. */
  method RoundsInPlace(x: array<Word>)
    requires x.Length == 16
    modifies x
    ensures x[..] == DoubleRounds(old(x[..]), 4)
  {
    hide *;
    ghost var x0 := x[..];
    RoundsStart(x0);
    var i := 0;
    ghost var n := 0;
    while i < 8
      invariant 0 <= n <= 4 && i == 2 * n
      invariant x[..] == DoubleRounds(x0, n)
    {
      DoubleRoundInPlace(x);
      RoundsNext(x0, n);
      i, n := i + 2, n + 1;
    }
  }

  /** salsa20_8: the sixteen words of `b`, in place, with `x` as scratch. */
  method SalsaInPlace(b: array<Word>, x: array<Word>)
    requires b.Length == 16 && x.Length == 16 && b != x
    modifies b, x
    ensures b[..] == Salsa(old(b[..]))
  {
    hide *;
    ghost var b0 := b[..];
    Whole(x[..], b0);
    Whole(b0, b0);
    CopyWords(x, 0, b, 0, 16);
    RoundsInPlace(x);
    AddInto(b, x);
    SalsaIs(b0);
  }

  lemma SalsaIs(x: Words)
    requires |x| == 16
    ensures Salsa(x) == AddWords(x, DoubleRounds(x, 4))
  {
  }

  lemma RoundsStart(x: Words)
    requires |x| == 16
    ensures DoubleRounds(x, 0) == x
  {
  }

  lemma RoundsNext(x: Words, n: nat)
    requires |x| == 16
    ensures DoubleRounds(x, n + 1) == RowRound(ColumnRound(DoubleRounds(x, n)))
  {
  }

  // --------------------------------------------------------------- BlockMix

  function Block(s: Words, i: nat): (b: Words)
    requires 16 * i + 16 <= |s|
    ensures |b| == 16
  {
    s[16 * i..16 * i + 16]
  }

  /** X of scryptBlockMix after i of its steps (section 4 of RFC 7914). */
  function Chain(s: Words, r: nat, i: nat): (x: Words)
    requires r > 0 && |s| == 32 * r && i <= 2 * r
    ensures |x| == 16
  {
    if i == 0 then Block(s, 2 * r - 1) else Salsa(XorWords(Chain(s, r, i - 1), Block(s, i - 1)))
  }

  /** Y[first], Y[first + 2], ... : n blocks, where Y[i] is X after step i. */
  function EveryOther(s: Words, r: nat, first: nat, n: nat): (y: Words)
    requires r > 0 && |s| == 32 * r && first <= 1 && n <= r
    ensures |y| == 16 * n
  {
    if n == 0 then [] else EveryOther(s, r, first, n - 1) + Chain(s, r, 2 * (n - 1) + first + 1)
  }

  /** scryptBlockMix: the even blocks, then the odd ones. */
  function BlockMix(s: Words, r: nat): (y: Words)
    requires r > 0 && |s| == 32 * r
    ensures |y| == 32 * r
  {
    EveryOther(s, r, 0, r) + EveryOther(s, r, 1, r)
  }

  /** Y as it lies in memory. */
  ghost function Chains(s: Words, r: nat, n: nat): (y: Words)
    requires r > 0 && |s| == 32 * r && n <= 2 * r
    ensures |y| == 16 * n
  {
    if n == 0 then [] else Chains(s, r, n - 1) + Chain(s, r, n)
  }

  lemma {:induction false} ChainsBlock(s: Words, r: nat, n: nat, t: nat)
    requires r > 0 && |s| == 32 * r && t < n <= 2 * r
    ensures Chains(s, r, n)[16 * t..16 * t + 16] == Chain(s, r, t + 1)
  {
    hide Chain;
    if t < n - 1 {
      ChainsBlock(s, r, n - 1, t);
      assert Chains(s, r, n)[16 * t..16 * t + 16] == Chains(s, r, n - 1)[16 * t..16 * t + 16];
    }
  }

  /** What a splice leaves, away from where it lies and where it lies. */
  lemma SpliceSlices(now: Words, was: Words, d: nat, piece: Words, i: nat, j: nat)
    requires d + |piece| <= |was| && now == was[..d] + piece + was[d + |piece|..]
    requires i <= j <= |was| && (j <= d || d + |piece| <= i)
    ensures |now| == |was| && now[i..j] == was[i..j] && now[d..d + |piece|] == piece
  {
  }

  lemma Adjacent(s: Words, i: nat, j: nat, k: nat)
    requires i <= j <= k <= |s|
    ensures s[i..k] == s[i..j] + s[j..k]
  {
  }

  /** The n words at `off`. */
  function Lane(w: Words, off: nat, n: nat): (l: Words)
    requires off + n <= |w|
    ensures |l| == n
  {
    w[off..off + n]
  }

  /** Nothing but the n words at `off` differs. */
  ghost predicate SameOutside(w: Words, w': Words, off: nat, n: nat) {
    off + n <= |w| == |w'| && w'[..off] == w[..off] && w'[off + n..] == w[off + n..]
  }

  lemma SliceOfSlice(w: Words, off: nat, n: nat, i: nat, j: nat)
    requires off + n <= |w| && i <= j <= n
    ensures w[off..off + n][i..j] == w[off + i..off + j]
  {
    var a, b := w[off..off + n][i..j], w[off + i..off + j];
    assert forall k :: 0 <= k < |a| ==> a[k] == b[k];
  }

  lemma Whole(was: Words, piece: Words)
    requires |was| == |piece|
    ensures was[..0] + piece + was[0 + |piece|..] == piece && was[0..|was|] == was
  {
  }

  lemma ChainStart(s: Words, r: nat)
    requires r > 0 && |s| == 32 * r
    ensures Chain(s, r, 0) == s[32 * r - 16..32 * r] && Chains(s, r, 0) == []
  {
  }

  lemma ChainNext(s: Words, r: nat, i: nat)
    requires r > 0 && |s| == 32 * r && i < 2 * r
    ensures Chain(s, r, i + 1) == Salsa(XorWords(Chain(s, r, i), s[16 * i..16 * i + 16]))
  {
    hide Salsa, XorWords;
  }

  /** One turn of blockMix's first loop, on the block of `b` at `o`. */
  method ChainStep(b: array<Word>, o: nat, x: array<Word>, y: array<Word>, i: nat, scratch: array<Word>)
    requires o + 16 <= b.Length && x.Length == 16 && scratch.Length == 16 && i * 16 + 16 <= y.Length
    requires b != x && b != y && b != scratch && x != y && x != scratch && y != scratch
    modifies x, y, scratch
    ensures x[..] == Salsa(XorWords(old(x[..]), b[..][o..o + 16]))
    ensures y[..] == old(y[..])[..i * 16] + x[..] + old(y[..])[i * 16 + 16..]
  {
    hide Salsa, XorWords;
    ghost var x0 := x[..];
    XorInto(x, 0, b, o, 16);
    Whole(x0, XorWords(x0, b[..][o..o + 16]));
    SalsaInPlace(x, scratch);
    CopyWords(y, i * 16, x, 0, 16);
    Whole(x[..], x[..]);
  }

  lemma ChainsNext(y: Words, y': Words, s: Words, r: nat, i: nat)
    requires r > 0 && |s| == 32 * r && i < 2 * r && |y| == 32 * r && y[..16 * i] == Chains(s, r, i)
    requires y' == y[..i * 16] + Chain(s, r, i + 1) + y[i * 16 + 16..]
    ensures y'[..16 * (i + 1)] == Chains(s, r, i + 1)
  {
    hide Chain;
    assert y'[..16 * (i + 1)] == y[..i * 16] + Chain(s, r, i + 1);
  }

  /** The first loop of blockMix: Y filled with the chain. */
  method FillChain(b: array<Word>, off: nat, r: nat, x: array<Word>, y: array<Word>, scratch: array<Word>)
    requires r > 0 && off + 32 * r <= b.Length && x.Length == 16 && scratch.Length == 16 && y.Length == 32 * r
    requires b != x && b != y && b != scratch && x != y && x != scratch && y != scratch
    modifies x, y, scratch
    ensures y[..] == Chains(Lane(b[..], off, 32 * r), r, 2 * r)
  {
    hide *;
    ghost var b0, x0 := b[..], x[..];
    ghost var s := Lane(b0, off, 32 * r);
    CopyWords(x, 0, b, off + 32 * r - 16, 16);
    ChainBegins(b0, off, r, x0, x[..]);
    for i := 0 to 2 * r
      invariant b[..] == b0
      invariant ChainAt(s, r, i, x[..], y[..])
    {
      ghost var x1, y1 := x[..], y[..];
      ChainStep(b, off + i * 16, x, y, i, scratch);
      ChainTurn(b0, off, r, i, x1, x[..], y1, y[..]);
    }
    ChainEnds(s, r, x[..], y[..]);
  }

  /** After i turns: x is the i-th block of the chain, and y begins with the blocks so far. */
  ghost predicate ChainAt(s: Words, r: nat, i: nat, x: Words, y: Words) {
    r > 0 && |s| == 32 * r && |y| == 32 * r && i <= 2 * r && x == Chain(s, r, i) && y[..16 * i] == Chains(s, r, i)
  }

  lemma ChainBegins(b: Words, off: nat, r: nat, x0: Words, x: Words)
    requires r > 0 && off + 32 * r <= |b| && |x0| == 16
    requires x == x0[..0] + b[off + 32 * r - 16..off + 32 * r - 16 + 16] + x0[0 + 16..]
    ensures forall y: Words :: |y| == 32 * r ==> ChainAt(Lane(b, off, 32 * r), r, 0, x, y)
  {
    hide Chain, Chains;
    var s := Lane(b, off, 32 * r);
    SliceOfSlice(b, off, 32 * r, 32 * r - 16, 32 * r);
    ChainStart(s, r);
    Whole(x0, b[off + 32 * r - 16..off + 32 * r]);
  }

  lemma ChainTurn(b: Words, off: nat, r: nat, i: nat, x0: Words, x: Words, y0: Words, y: Words)
    requires r > 0 && off + 32 * r <= |b| && i < 2 * r && ChainAt(Lane(b, off, 32 * r), r, i, x0, y0)
    requires |x0| == 16 && x == Salsa(XorWords(x0, b[off + i * 16..off + i * 16 + 16]))
    requires y == y0[..i * 16] + x + y0[i * 16 + 16..]
    ensures ChainAt(Lane(b, off, 32 * r), r, i + 1, x, y)
  {
    hide Chain, Chains, Salsa, XorWords;
    var s := Lane(b, off, 32 * r);
    SliceOfSlice(b, off, 32 * r, 16 * i, 16 * i + 16);
    ChainNext(s, r, i);
    ChainsNext(y0, y, s, r, i);
  }

  lemma ChainEnds(s: Words, r: nat, x: Words, y: Words)
    requires ChainAt(s, r, 2 * r, x, y)
    ensures y == Chains(s, r, 2 * r)
  {
    hide Chain, Chains;
    assert y[..16 * (2 * r)] == y;
  }

  lemma UnshuffleStep(b0: Words, b1: Words, b2: Words, off: nat, r: nat, i: nat, even: Words, odd: Words)
    requires i < r && off + 32 * r <= |b0| && |even| == 16 && |odd| == 16
    requires b1 == b0[..off + i * 16] + even + b0[off + i * 16 + 16..]
    requires b2 == b1[..off + (r + i) * 16] + odd + b1[off + (r + i) * 16 + 16..]
    ensures SameOutside(b0, b2, off, 32 * r)
    ensures Lane(b2, off, 16 * (i + 1)) == Lane(b0, off, 16 * i) + even
    ensures Lane(b2, off + 16 * r, 16 * (i + 1)) == Lane(b0, off + 16 * r, 16 * i) + odd
  {
    hide SameOutside, Lane;
    UnshuffleOutside(b0, b1, b2, off, r, i, even, odd);
    UnshuffleEven(b0, b1, b2, off, r, i, even, odd);
    UnshuffleOdd(b0, b1, b2, off, r, i, even, odd);
  }

  lemma UnshuffleOutside(b0: Words, b1: Words, b2: Words, off: nat, r: nat, i: nat, even: Words, odd: Words)
    requires i < r && off + 32 * r <= |b0| && |even| == 16 && |odd| == 16
    requires b1 == b0[..off + i * 16] + even + b0[off + i * 16 + 16..]
    requires b2 == b1[..off + (r + i) * 16] + odd + b1[off + (r + i) * 16 + 16..]
    ensures SameOutside(b0, b2, off, 32 * r)
  {
    var p, q := off + i * 16, off + (r + i) * 16;
    SpliceSlices(b1, b0, p, even, 0, off);
    SpliceSlices(b1, b0, p, even, off + 32 * r, |b0|);
    SpliceSlices(b2, b1, q, odd, 0, off);
    SpliceSlices(b2, b1, q, odd, off + 32 * r, |b0|);
  }

  lemma UnshuffleEven(b0: Words, b1: Words, b2: Words, off: nat, r: nat, i: nat, even: Words, odd: Words)
    requires i < r && off + 32 * r <= |b0| && |even| == 16 && |odd| == 16
    requires b1 == b0[..off + i * 16] + even + b0[off + i * 16 + 16..]
    requires b2 == b1[..off + (r + i) * 16] + odd + b1[off + (r + i) * 16 + 16..]
    ensures Lane(b2, off, 16 * (i + 1)) == Lane(b0, off, 16 * i) + even
  {
    var p, q := off + i * 16, off + (r + i) * 16;
    SpliceSlices(b1, b0, p, even, off, p);
    SpliceSlices(b2, b1, q, odd, off, p + 16);
    Adjacent(b1, off, p, p + 16);
  }

  lemma UnshuffleOdd(b0: Words, b1: Words, b2: Words, off: nat, r: nat, i: nat, even: Words, odd: Words)
    requires i < r && off + 32 * r <= |b0| && |even| == 16 && |odd| == 16
    requires b1 == b0[..off + i * 16] + even + b0[off + i * 16 + 16..]
    requires b2 == b1[..off + (r + i) * 16] + odd + b1[off + (r + i) * 16 + 16..]
    ensures Lane(b2, off + 16 * r, 16 * (i + 1)) == Lane(b0, off + 16 * r, 16 * i) + odd
  {
    var p, q := off + i * 16, off + (r + i) * 16;
    SpliceSlices(b1, b0, p, even, off + 16 * r, q);
    SpliceSlices(b2, b1, q, odd, off + 16 * r, q);
    Adjacent(b2, off + 16 * r, q, q + 16);
  }

  /** The words at `off` hold the first i even blocks, then, from the middle, the first i odd ones. */
  ghost predicate Unshuffled(w: Words, off: nat, s: Words, r: nat, i: nat) {
    && r > 0 && |s| == 32 * r && i <= r && off + 32 * r <= |w|
    && Lane(w, off, 16 * i) == EveryOther(s, r, 0, i)
    && Lane(w, off + 16 * r, 16 * i) == EveryOther(s, r, 1, i)
  }

  lemma UnshuffledNext(b0: Words, b1: Words, b2: Words, off: nat, s: Words, r: nat, i: nat, y: Words)
    requires Unshuffled(b0, off, s, r, i) && i < r && y == Chains(s, r, 2 * r)
    requires b1 == b0[..off + i * 16] + y[(2 * i) * 16..(2 * i) * 16 + 16] + b0[off + i * 16 + 16..]
    requires b2 == b1[..off + (r + i) * 16] + y[(2 * i + 1) * 16..(2 * i + 1) * 16 + 16] + b1[off + (r + i) * 16 + 16..]
    ensures Unshuffled(b2, off, s, r, i + 1) && SameOutside(b0, b2, off, 32 * r)
  {
    hide Chain, Chains;
    ChainsBlock(s, r, 2 * r, 2 * i);
    ChainsBlock(s, r, 2 * r, 2 * i + 1);
    UnshuffleStep(b0, b1, b2, off, r, i, Chain(s, r, 2 * i + 1), Chain(s, r, 2 * i + 2));
  }

  lemma UnshuffledEnds(w: Words, off: nat, s: Words, r: nat)
    requires r > 0 && |s| == 32 * r && off + 32 * r <= |w|
    ensures Unshuffled(w, off, s, r, 0)
    ensures Unshuffled(w, off, s, r, r) ==> Lane(w, off, 32 * r) == BlockMix(s, r)
    ensures SameOutside(w, w, off, 32 * r)
  {
    hide Chain;
    Adjacent(w, off, off + 16 * r, off + 32 * r);
  }

  lemma SameOutsideTrans(w: Words, w1: Words, w2: Words, off: nat, n: nat)
    requires SameOutside(w, w1, off, n) && SameOutside(w1, w2, off, n)
    ensures SameOutside(w, w2, off, n)
  {
  }

  /** The second loop of blockMix: the even blocks first, the odd ones after them. */
  method Unshuffle(b: array<Word>, off: nat, r: nat, y: array<Word>, ghost s: Words)
    requires r > 0 && off + 32 * r <= b.Length && y.Length == 32 * r && b != y && |s| == 32 * r
    requires y[..] == Chains(s, r, 2 * r)
    modifies b
    ensures Lane(b[..], off, 32 * r) == BlockMix(s, r)
    ensures SameOutside(old(b[..]), b[..], off, 32 * r)
  {
    hide *;
    ghost var was, chain := b[..], y[..];
    UnshuffledEnds(was, off, s, r);
    for i := 0 to r
      invariant y[..] == chain
      invariant SameOutside(was, b[..], off, 32 * r) && Unshuffled(b[..], off, s, r, i)
    {
      ghost var b0 := b[..];
      CopyWords(b, off + i * 16, y, (2 * i) * 16, 16);
      ghost var b1 := b[..];
      CopyWords(b, off + (r + i) * 16, y, (2 * i + 1) * 16, 16);
      UnshuffleTurn(was, b0, b1, b[..], off, s, r, i, chain);
    }
    UnshuffledEnds(b[..], off, s, r);
  }

  lemma UnshuffleTurn(was: Words, b0: Words, b1: Words, b2: Words, off: nat, s: Words, r: nat, i: nat, y: Words)
    requires SameOutside(was, b0, off, 32 * r) && Unshuffled(b0, off, s, r, i) && i < r && y == Chains(s, r, 2 * r)
    requires b1 == b0[..off + i * 16] + y[(2 * i) * 16..(2 * i) * 16 + 16] + b0[off + i * 16 + 16..]
    requires b2 == b1[..off + (r + i) * 16] + y[(2 * i + 1) * 16..(2 * i + 1) * 16 + 16] + b1[off + (r + i) * 16 + 16..]
    ensures SameOutside(was, b2, off, 32 * r) && Unshuffled(b2, off, s, r, i + 1)
  {
    UnshuffledNext(b0, b1, b2, off, s, r, i, y);
    hide SameOutside;
    SameOutsideTrans(was, b0, b2, off, 32 * r);
  }

  /** blockMix: scryptBlockMix on the 32r words at `off`, and nothing else. */
  method BlockMixInPlace(b: array<Word>, off: nat, r: nat, x: array<Word>, y: array<Word>, scratch: array<Word>)
    requires r > 0 && off + 32 * r <= b.Length && x.Length == 16 && scratch.Length == 16 && y.Length == 32 * r
    requires b != x && b != y && b != scratch && x != y && x != scratch && y != scratch
    modifies b, x, y, scratch
    ensures Lane(b[..], off, 32 * r) == BlockMix(Lane(old(b[..]), off, 32 * r), r)
    ensures SameOutside(old(b[..]), b[..], off, 32 * r)
  {
    hide BlockMix, Chains;
    ghost var s := Lane(b[..], off, 32 * r);
    FillChain(b, off, r, x, y, scratch);
    Unshuffle(b, off, r, y, s);
  }

  // ------------------------------------------------------------------ ROMix

  /** A block read as a little-endian number. */
  function LittleEndian(ws: Words): nat {
    if ws == [] then 0 else (ws[0] as nat) + 0x1_0000_0000 * LittleEndian(ws[1..])
  }

  /** Integerify: the last 64-octet block as a little-endian number. */
  function Integerify(s: Words, r: nat): nat
    requires r > 0 && |s| == 32 * r
  {
    LittleEndian(Block(s, 2 * r - 1))
  }

  /** V[i] of scryptROMix: the input mixed i times. */
  function MixedTimes(s: Words, r: nat, i: nat): (x: Words)
    requires r > 0 && |s| == 32 * r
    ensures |x| == 32 * r
  {
    if i == 0 then s else BlockMix(MixedTimes(s, r, i - 1), r)
  }

  /** X of the second loop of scryptROMix after i steps. */
  function LookedUp(s: Words, r: nat, N: nat, i: nat): (x: Words)
    requires r > 0 && |s| == 32 * r && N > 0
    ensures |x| == 32 * r
  {
    if i == 0 then MixedTimes(s, r, N)
    else
      var x := LookedUp(s, r, N, i - 1);
      BlockMix(XorWords(x, MixedTimes(s, r, Integerify(x, r) % N)), r)
  }

  /** scryptROMix (section 5 of RFC 7914). */
  function ROMix(s: Words, r: nat, N: nat): (x: Words)
    requires r > 0 && |s| == 32 * r && N > 0
    ensures |x| == 32 * r
  {
    LookedUp(s, r, N, N)
  }

  /** For N dividing 2^32, the first word of the block decides Integerify mod N. */
  lemma IndexIsLowWord(s: Words, r: nat, N: nat, q: nat)
    requires r > 0 && |s| == 32 * r && N > 0 && N * q == 0x1_0000_0000
    ensures Integerify(s, r) % N == (s[32 * r - 16] as nat) % N
  {
    var b := Block(s, 2 * r - 1);
    var rest := LittleEndian(b[1..]);
    LowWord(b[0] as nat, rest, N, q);
  }

  lemma LowWord(low: nat, rest: nat, N: nat, q: nat)
    requires N > 0 && N * q == 0x1_0000_0000
    ensures (low + 0x1_0000_0000 * rest) % N == low % N
  {
    assert 0x1_0000_0000 * rest == (q * rest) * N;
    ResShift(low, q * rest, N);
  }

  /** V as it lies in memory: n rows of 32r words. */
  ghost function Rows(s: Words, r: nat, n: nat): (v: Words)
    requires r > 0 && |s| == 32 * r
    ensures |v| == n * (32 * r)
  {
    if n == 0 then [] else Rows(s, r, n - 1) + MixedTimes(s, r, n - 1)
  }

  lemma {:induction false} RowAt(s: Words, r: nat, n: nat, j: nat, d: nat)
    requires r > 0 && |s| == 32 * r && j < n && d == j * (32 * r)
    ensures d + 32 * r <= |Rows(s, r, n)|
    ensures Rows(s, r, n)[d..d + 32 * r] == MixedTimes(s, r, j)
  {
    hide MixedTimes;
    var a, last := Rows(s, r, n - 1), MixedTimes(s, r, n - 1);
    assert Rows(s, r, n) == a + last;
    if j == n - 1 {
      assert (a + last)[d..d + 32 * r] == last;
    } else {
      RowAt(s, r, n - 1, j, d);
      assert (a + last)[d..d + 32 * r] == a[d..d + 32 * r];
    }
  }

  lemma RowsNext(v: Words, v': Words, s: Words, r: nat, i: nat, d: nat)
    requires r > 0 && |s| == 32 * r && d == i * (32 * r) && d + 32 * r <= |v| && v[..d] == Rows(s, r, i)
    requires v' == v[..d] + MixedTimes(s, r, i) + v[d + 32 * r..]
    ensures d + 32 * r == (i + 1) * (32 * r) && v'[..d + 32 * r] == Rows(s, r, i + 1)
  {
    hide MixedTimes;
    assert v'[..d + 32 * r] == v[..d] + MixedTimes(s, r, i);
  }

  lemma MixedNext(s: Words, r: nat, i: nat)
    requires r > 0 && |s| == 32 * r
    ensures MixedTimes(s, r, 0) == s && MixedTimes(s, r, i + 1) == BlockMix(MixedTimes(s, r, i), r)
    ensures Rows(s, r, 0) == []
  {
  }

  lemma LookedUpNext(s: Words, r: nat, N: nat, i: nat, j: nat)
    requires r > 0 && |s| == 32 * r && N > 0 && j == Integerify(LookedUp(s, r, N, i), r) % N
    ensures LookedUp(s, r, N, i + 1) == BlockMix(XorWords(LookedUp(s, r, N, i), MixedTimes(s, r, j)), r)
  {
  }

  lemma SpliceIsLane(w: Words, w': Words, off: nat, piece: Words)
    requires off + |piece| <= |w| && w' == w[..off] + piece + w[off + |piece|..]
    ensures SameOutside(w, w', off, |piece|) && Lane(w', off, |piece|) == piece
  {
  }

  /** The first loop of roMix: V filled, the lane mixed N times. */
  method FillRows(b: array<Word>, off: nat, r: nat, N: nat, v: array<Word>,
                  x: array<Word>, y: array<Word>, scratch: array<Word>)
    requires r > 0 && off + 32 * r <= b.Length && v.Length == N * (32 * r)
    requires x.Length == 16 && scratch.Length == 16 && y.Length == 32 * r
    requires b != x && b != y && b != scratch && x != y && x != scratch && y != scratch
    requires v != b && v != x && v != y && v != scratch
    modifies b, v, x, y, scratch
    ensures v[..] == Rows(Lane(old(b[..]), off, 32 * r), r, N)
    ensures Lane(b[..], off, 32 * r) == MixedTimes(Lane(old(b[..]), off, 32 * r), r, N)
    ensures SameOutside(old(b[..]), b[..], off, 32 * r)
  {
    hide *;
    var words := 32 * r;
    ghost var was := b[..];
    ghost var s := Lane(was, off, words);
    UnshuffledEnds(was, off, s, r);
    MixedNext(s, r, 0);
    assert v[..][..0] == [];
    var d := 0;
    for i := 0 to N
      invariant d == i * words
      invariant v[..][..d] == Rows(s, r, i)
      invariant Lane(b[..], off, words) == MixedTimes(s, r, i)
      invariant SameOutside(was, b[..], off, words)
    {
      RowFits(i, N, words);
      ghost var v0, b0 := v[..], b[..];
      CopyWords(v, d, b, off, words);
      LaneIs(b0, off, words);
      RowsNext(v0, v[..], s, r, i, d);
      BlockMixInPlace(b, off, r, x, y, scratch);
      MixedNext(s, r, i);
      SameOutsideTrans(was, b0, b[..], off, words);
      d := d + words;
    }
    assert v[..][..d] == v[..];
  }

  lemma LaneIs(w: Words, off: nat, n: nat)
    requires off + n <= |w|
    ensures Lane(w, off, n) == w[off..off + n]
  {
  }

  lemma RowFits(j: nat, N: nat, words: nat)
    requires j < N
    ensures j * words + words <= N * words
  {
    assert (j + 1) * words <= N * words;
  }

  /** One turn of the second loop of roMix. */
  method LookUp(b: array<Word>, off: nat, r: nat, N: nat, ghost q: nat, v: array<Word>,
                x: array<Word>, y: array<Word>, scratch: array<Word>, ghost s: Words)
    requires r > 0 && off + 32 * r <= b.Length && v.Length == N * (32 * r) && N > 0 && N * q == 0x1_0000_0000
    requires x.Length == 16 && scratch.Length == 16 && y.Length == 32 * r
    requires b != x && b != y && b != scratch && x != y && x != scratch && y != scratch
    requires v != b && v != x && v != y && v != scratch
    requires |s| == 32 * r && v[..] == Rows(s, r, N)
    modifies b, x, y, scratch
    ensures var l := Lane(old(b[..]), off, 32 * r);
      Lane(b[..], off, 32 * r) == BlockMix(XorWords(l, MixedTimes(s, r, Integerify(l, r) % N)), r)
    ensures SameOutside(old(b[..]), b[..], off, 32 * r)
  {
    hide *;
    ghost var was, rows := b[..], v[..];
    var j := (b[off + 32 * r - 16] as nat) % N;
    RowFits(j, N, 32 * r);
    XorInto(b, off, v, j * (32 * r), 32 * r);
    ghost var b1 := b[..];
    BlockMixInPlace(b, off, r, x, y, scratch);
    LookTurn(was, b1, b[..], off, r, N, q, s, rows, j, j * (32 * r));
  }

  /** What one turn does to the words: the row that the low word names, mixed in. */
  lemma LookTurn(was: Words, b1: Words, b2: Words, off: nat, r: nat, N: nat, q: nat, s: Words, v: Words, j: nat, d: nat)
    requires r > 0 && off + 32 * r <= |was| && |s| == 32 * r && N > 0 && N * q == 0x1_0000_0000
    requires v == Rows(s, r, N) && j == (was[off + 32 * r - 16] as nat) % N && d == j * (32 * r) && d + 32 * r <= |v|
    requires b1 == was[..off] + XorWords(was[off..off + 32 * r], v[d..d + 32 * r]) + was[off + 32 * r..]
    requires |b1| == |was| == |b2| && Lane(b2, off, 32 * r) == BlockMix(Lane(b1, off, 32 * r), r) &&
      SameOutside(b1, b2, off, 32 * r)
    ensures var l := Lane(was, off, 32 * r);
      Lane(b2, off, 32 * r) == BlockMix(XorWords(l, MixedTimes(s, r, Integerify(l, r) % N)), r)
    ensures SameOutside(was, b2, off, 32 * r)
  {
    hide *;
    var l := Lane(was, off, 32 * r);
    LaneIs(was, off, 32 * r);
    assert l[32 * r - 16] == was[off + 32 * r - 16];
    IndexIsLowWord(l, r, N, q);
    RowAt(s, r, N, j, d);
    SpliceIsLane(was, b1, off, XorWords(l, MixedTimes(s, r, j)));
    SameOutsideTrans(was, b1, b2, off, 32 * r);
  }

  /** roMix: scryptROMix on the 32r words at `off`, and nothing else. */
  method ROMixInPlace(b: array<Word>, off: nat, r: nat, N: nat, ghost q: nat)
    requires r > 0 && off + 32 * r <= b.Length && N > 0 && N * q == 0x1_0000_0000
    modifies b
    ensures Lane(b[..], off, 32 * r) == ROMix(Lane(old(b[..]), off, 32 * r), r, N)
    ensures SameOutside(old(b[..]), b[..], off, 32 * r)
  {
    hide BlockMix, XorWords, MixedTimes, SameOutside, Lane, Integerify, Rows;
    var words := 32 * r;
    var v := new Word[N * words];
    var x := new Word[16];
    var y := new Word[words];
    var scratch := new Word[16];
    ghost var was := b[..];
    ghost var s := Lane(was, off, words);
    FillRows(b, off, r, N, v, x, y, scratch);
    for i := 0 to N
      invariant v[..] == Rows(s, r, N)
      invariant Lane(b[..], off, words) == LookedUp(s, r, N, i)
      invariant SameOutside(was, b[..], off, words)
    {
      ghost var b0 := b[..];
      LookUp(b, off, r, N, q, v, x, y, scratch, s);
      LookedUpNext(s, r, N, i, Integerify(Lane(b0, off, words), r) % N);
      SameOutsideTrans(was, b0, b[..], off, words);
    }
  }

  // ----------------------------------------------------------------- scrypt

  type Bytes = seq<bv8>

  function WordFrom(b0: bv8, b1: bv8, b2: bv8, b3: bv8): Word {
    (b0 as bv32) | ((b1 as bv32) << 8) | ((b2 as bv32) << 16) | ((b3 as bv32) << 24)
  }

  function WordAt(bytes: Bytes, i: nat): Word
    requires 4 * i + 4 <= |bytes|
  {
    WordFrom(bytes[4 * i], bytes[4 * i + 1], bytes[4 * i + 2], bytes[4 * i + 3])
  }

  /** bytesToWordsLE: a tail shorter than a word is dropped. */
  function WordsOf(bytes: Bytes): (w: Words)
    ensures |w| == |bytes| / 4
  {
    seq(|bytes| / 4, i requires 0 <= i < |bytes| / 4 => WordAt(bytes, i))
  }

  function BytesOfWord(w: Word): (b: Bytes)
    ensures |b| == 4
  {
    [(w & 0xff) as bv8, ((w >> 8) & 0xff) as bv8, ((w >> 16) & 0xff) as bv8, ((w >> 24) & 0xff) as bv8]
  }

  /** wordsToBytesLE. */
  function BytesOf(words: Words): (b: Bytes)
    ensures |b| == 4 * |words|
  {
    if words == [] then [] else BytesOf(words[..|words| - 1]) + BytesOfWord(words[|words| - 1])
  }

  lemma WordRoundTrip(w: Word)
    ensures WordAt(BytesOfWord(w), 0) == w
  {
  }

  /** Words written out and read back are the same words. */
  lemma {:induction false} WordsRoundTrip(words: Words)
    ensures WordsOf(BytesOf(words)) == words
  {
    if words != [] {
      var front, last := words[..|words| - 1], words[|words| - 1];
      var b := BytesOf(words);
      WordsRoundTrip(front);
      WordRoundTrip(last);
      hide WordAt, BytesOfWord;
      forall i | 0 <= i < |words| ensures WordsOf(b)[i] == words[i] {
        if i < |front| {
          SameBytesSameWord(b, BytesOf(front), i, i);
          assert WordsOf(BytesOf(front))[i] == front[i];
        } else {
          SameBytesSameWord(b, BytesOfWord(last), i, 0);
        }
      }
    }
  }

  lemma SameBytesSameWord(a: Bytes, b: Bytes, i: nat, j: nat)
    requires 4 * i + 4 <= |a| && 4 * j + 4 <= |b|
    requires a[4 * i..4 * i + 4] == b[4 * j..4 * j + 4]
    ensures WordAt(a, i) == WordAt(b, j)
  {
    hide WordFrom;
    assert a[4 * i] == a[4 * i..4 * i + 4][0] && a[4 * i + 1] == a[4 * i..4 * i + 4][1];
    assert a[4 * i + 2] == a[4 * i..4 * i + 4][2] && a[4 * i + 3] == a[4 * i..4 * i + 4][3];
  }

  /** The first n lanes of 32r words, each through scryptROMix on its own. */
  function Lanes(w: Words, r: nat, N: nat, n: nat): (l: Words)
    requires r > 0 && N > 0 && n * (32 * r) <= |w|
    ensures |l| == n * (32 * r)
  {
    if n == 0 then []
    else
      assert (n - 1) * (32 * r) + 32 * r == n * (32 * r);
      Lanes(w, r, N, n - 1) + ROMix(Lane(w, (n - 1) * (32 * r), 32 * r), r, N)
  }

  lemma LanesNext(w: Words, now: Words, now': Words, r: nat, N: nat, i: nat, d: nat)
    requires r > 0 && N > 0 && d == i * (32 * r) && d + 32 * r <= |w| == |now|
    requires now[..d] == Lanes(w, r, N, i) && now[d..] == w[d..]
    requires SameOutside(now, now', d, 32 * r)
    requires Lane(now', d, 32 * r) == ROMix(Lane(now, d, 32 * r), r, N)
    ensures d + 32 * r == (i + 1) * (32 * r)
    ensures now'[..d + 32 * r] == Lanes(w, r, N, i + 1) && now'[d + 32 * r..] == w[d + 32 * r..]
  {
    hide ROMix;
    assert Lane(now, d, 32 * r) == Lane(w, d, 32 * r) by {
      assert now[d..][..32 * r] == w[d..][..32 * r];
      assert now[d..][..32 * r] == now[d..d + 32 * r] && w[d..][..32 * r] == w[d..d + 32 * r];
    }
    assert now'[..d + 32 * r] == now'[..d] + Lane(now', d, 32 * r);
    assert now'[d + 32 * r..] == now[d + 32 * r..] == now[d..][32 * r..] == w[d..][32 * r..] == w[d + 32 * r..];
  }

  /** The loop of scrypt over its p lanes. */
  method MixLanes(w: array<Word>, r: nat, N: nat, ghost q: nat, p: nat)
    requires r > 0 && N > 0 && N * q == 0x1_0000_0000 && w.Length == p * (32 * r)
    modifies w
    ensures w[..] == Lanes(old(w[..]), r, N, p)
  {
    hide ROMix, SameOutside, Lane;
    ghost var w0 := w[..];
    var d := 0;
    for i := 0 to p
      invariant d == i * (32 * r) && d <= w.Length
      invariant w[..][..d] == Lanes(w0, r, N, i) && w[..][d..] == w0[d..]
    {
      RowFits(i, p, 32 * r);
      ghost var now := w[..];
      ROMixInPlace(w, d, r, N, q);
      LanesNext(w0, now, w[..], r, N, i, d);
      d := d + 32 * r;
    }
    assert w[..][..d] == w[..];
  }

  // --------------------------------------------------- the check on N

  /** Bitwise and of the low `k` bits. */
  function AndLow(a: nat, b: nat, k: nat): nat {
    if k == 0 then 0 else (if a % 2 == 1 && b % 2 == 1 then 1 else 0) + 2 * AndLow(a / 2, b / 2, k - 1)
  }

  lemma {:induction false} AndSelf(a: nat, k: nat)
    requires 0 < a < Pow(2, k)
    ensures AndLow(a, a, k) != 0
  {
    if a / 2 > 0 { AndSelf(a / 2, k - 1); }
  }

  ghost predicate PowerOfTwo(N: int, k: nat) {
    exists j: nat :: j < k && N == Pow(2, j)
  }

  /** N & (N - 1) is zero exactly for the powers of two. */
  lemma {:induction false} PowerOfTwoTest(N: nat, k: nat)
    requires 0 < N < Pow(2, k)
    ensures AndLow(N, N - 1, k) == 0 <==> PowerOfTwo(N, k)
  {
    if N == 1 {
      AndZero(k);
      assert 0 < k && N == Pow(2, 0);
    } else if N % 2 == 1 {
      AndSelf(N / 2, k - 1);
      assert (N - 1) / 2 == N / 2;
      forall j: nat | j < k ensures N != Pow(2, j) { if j > 0 { PowNext(2, j - 1); } }
    } else {
      PowerOfTwoTest(N / 2, k - 1);
      assert (N - 1) / 2 == N / 2 - 1;
      if j: nat :| j < k - 1 && N / 2 == Pow(2, j) {
        PowNext(2, j);
        assert j + 1 < k && N == Pow(2, j + 1);
      }
      if j: nat :| j < k && N == Pow(2, j) {
        PowNext(2, j - 1);
        assert j - 1 < k - 1 && N / 2 == Pow(2, j - 1);
      }
    }
  }

  lemma {:induction false} AndZero(k: nat)
    ensures AndLow(1, 0, k) == 0 && AndLow(0, 0, k) == 0
  {
    if k > 0 { AndZero(k - 1); }
  }

  datatype Outcome = Derived(key: Bytes) | Refused(why: string)


  /** scrypt of RFC 7914 section 6 around any PBKDF2. */
  function ScryptSpec(password: Bytes, salt: Bytes, N: nat, r: nat, p: nat, dkLen: nat,
                      pbkdf2: (Bytes, Bytes, nat, nat) -> Bytes): Bytes
    requires r > 0 && N > 0 && |pbkdf2(password, salt, 1, p * 128 * r)| == p * 128 * r
  {
    var w := WordsOf(pbkdf2(password, salt, 1, p * 128 * r));
    assert |w| == p * (32 * r) by { assert p * 128 * r == 4 * (p * (32 * r)); }
    pbkdf2(password, BytesOf(Lanes(w, r, N, p)), 1, dkLen)
  }

  /** The 32 bits JavaScript's bitwise operators see of a number. */
  function Low32(n: int): nat { n % 0x1_0000_0000 }

  /**
   scrypt. PBKDF2 and memory are the platform's: the first gives the length it was told
   to give, and no array has 2^37 words, which is what stops an N whose low 32 bits alone
   pass the test.
   */
  method Scrypt(password: Bytes, salt: Bytes, N: int, r: int, p: int, dkLen: int,
                pbkdf2: (Bytes, Bytes, nat, nat) -> Bytes, allocates: nat -> bool) returns (res: Outcome)
    requires forall n: nat :: |pbkdf2(password, salt, 1, n)| == n
    requires forall n: nat :: n >= 0x20_0000_0000 ==> !allocates(n)
    ensures res.Derived? <==>
      N > 1 && PowerOfTwo(N, 32) && r > 0 && p > 0 && dkLen > 0 && allocates(32 * r * N)
    ensures res.Derived? ==> res.key == ScryptSpec(password, salt, N, r, p, dkLen, pbkdf2)
  {
    hide Lanes, WordsOf, BytesOf, AndLow, PowerOfTwo, Pow;
    TwoTo32();
    if 0 < N < 0x1_0000_0000 { PowerOfTwoTest(N, 32); }
    if !(N > 1) || AndLow(Low32(N), Low32(N - 1), 32) != 0 {
      if N >= 0x1_0000_0000 { TooLargeIsNoPower(N); }
      return Refused("scrypt: N must be a power of two above 1");
    }
    if !(r > 0) || !(p > 0) || !(dkLen > 0) {
      return Refused("scrypt: r, p and dkLen must be positive");
    }
    var b := pbkdf2(password, salt, 1, p * 128 * r);
    if !allocates(32 * r * N) {
      return Refused("Invalid typed array length");
    }
    AllocatedIsSmall(r, N, allocates);
    ghost var q := Divides2To32(N);
    assert p * 128 * r == 4 * (p * (32 * r));
    var words := WordsOf(b);
    var w := new Word[|words|](i requires 0 <= i < |words| => words[i]);
    assert w[..] == words;
    MixLanes(w, r, N, q, p);
    res := Derived(pbkdf2(password, BytesOf(w[..]), 1, dkLen));
  }

  lemma TooLargeIsNoPower(N: int)
    requires N >= 0x1_0000_0000
    ensures !PowerOfTwo(N, 32)
  {
    hide Pow;
    TwoTo32();
    forall j: nat | j < 32 ensures N != Pow(2, j) {
      PowAdd(2, j, 32 - j);
      PowPositive(j);
      PowPositive(32 - j);
      PowNext(2, 31 - j);
      PowPositive(31 - j);
      TwiceIsMore(Pow(2, j), Pow(2, 31 - j));
    }
  }

  lemma TwiceIsMore(a: int, b: int)
    requires a > 0 && b > 0
    ensures a * (2 * b) > a
  {
  }

  lemma AllocatedIsSmall(r: nat, N: nat, allocates: nat -> bool)
    requires r > 0 && allocates(32 * r * N) && forall n: nat :: n >= 0x20_0000_0000 ==> !allocates(n)
    ensures N < 0x1_0000_0000
  {
    assert 32 * r * N >= 32 * N;
  }

  lemma TwoTo32()
    ensures Pow(2, 32) == 0x1_0000_0000
  {
    assert Pow(2, 8) == 256;
    PowAdd(2, 8, 8);
    PowAdd(2, 16, 16);
  }

  lemma Divides2To32(N: nat) returns (q: nat)
    requires PowerOfTwo(N, 32)
    ensures N * q == 0x1_0000_0000
  {
    var j: nat :| j < 32 && N == Pow(2, j);
    hide Pow;
    TwoTo32();
    PowAdd(2, j, 32 - j);
    PowPositive(32 - j);
    q := Pow(2, 32 - j);
  }
}
