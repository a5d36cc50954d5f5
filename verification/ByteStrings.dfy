/** Bytes as the numbers below 256, and byte strings as big-endian numbers. */
module ByteStrings {
  type byte = x: nat | x < 256
  type Bytes = seq<byte>

  /** Bytes as one number, the most significant first. */
  function BigEndian(s: Bytes): nat {
    if s == [] then 0 else BigEndian(s[..|s| - 1]) * 256 + s[|s| - 1]
  }

  function Pow256(k: nat): nat { if k == 0 then 1 else 256 * Pow256(k - 1) }

  /** The number n in k bytes. */
  function ToBigEndian(n: nat, k: nat): (s: Bytes)
    ensures |s| == k
  {
    if k == 0 then [] else ToBigEndian(n / 256, k - 1) + [n % 256]
  }

  /** Number to bytes to number. */
  lemma {:induction false} BigEndianRoundTrip(n: nat, k: nat)
    requires n < Pow256(k)
    ensures BigEndian(ToBigEndian(n, k)) == n
  {
    if k > 0 {
      BigEndianRoundTrip(n / 256, k - 1);
      assert ToBigEndian(n, k)[..k - 1] == ToBigEndian(n / 256, k - 1);
    }
  }

  /** Bytes to number to bytes. */
  lemma {:induction false} BigEndianBack(s: Bytes)
    ensures BigEndian(s) < Pow256(|s|) && ToBigEndian(BigEndian(s), |s|) == s
  {
    if s != [] {
      BigEndianBack(s[..|s| - 1]);
      assert s == s[..|s| - 1] + [s[|s| - 1]];
    }
  }

  /** Byte strings one after another. */
  function Concat(chunks: seq<Bytes>): Bytes {
    if chunks == [] then [] else Concat(chunks[..|chunks| - 1]) + chunks[|chunks| - 1]
  }

  lemma LastByte(s: Bytes)
    requires |s| > 0
    ensures BigEndian(s) == BigEndian(s[..|s| - 1]) * 256 + s[|s| - 1]
  {
  }

  lemma Scaled(x: int, m: nat)
    ensures x * Pow256(m + 1) == 256 * (x * Pow256(m))
  {
  }

  /** The first byte counts most. */
  lemma {:induction false} FirstByteLeads(b: Bytes)
    requires |b| > 0
    ensures BigEndian(b) == b[0] * Pow256(|b| - 1) + BigEndian(b[1..])
  {
    var k := |b| - 1;
    if k > 0 {
      hide BigEndian, Pow256;
      FirstByteLeads(b[..k]);
      LastByte(b);
      LastByte(b[1..]);
      assert b[1..][..k - 1] == b[..k][1..];
      Scaled(b[0], k - 1);
    }
  }
}
