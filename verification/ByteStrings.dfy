/** Bytes, and the numbers that strings of them spell. */
module ByteStrings {
  type byte = x: int | 0 <= x < 256
  type Bytes = seq<byte>

  /** A 32-bit unsigned number. */
  type u32 = x: int | 0 <= x < 0x1_0000_0000

  /** `n` bytes of `v`, most significant first. */
  function BigEndian(v: nat, n: nat): (s: Bytes)
    ensures |s| == n
  {
    if n == 0 then [] else BigEndian(v / 256, n - 1) + [v % 256]
  }

  function Pow256(n: nat): (p: nat)
    ensures p > 0
  {
    if n == 0 then 1 else 256 * Pow256(n - 1)
  }

  /** The number that `s` spells in base 256, most significant byte first. */
  function FromBigEndian(s: Bytes): (v: nat)
    ensures v < Pow256(|s|)
  {
    if s == [] then 0 else FromBigEndian(s[..|s| - 1]) * 256 + s[|s| - 1]
  }

  lemma {:induction false} BigEndianRoundTrip(v: nat, n: nat)
    requires v < Pow256(n)
    ensures FromBigEndian(BigEndian(v, n)) == v
  {
    if n > 0 {
      BigEndianRoundTrip(v / 256, n - 1);
      assert BigEndian(v, n)[..n - 1] == BigEndian(v / 256, n - 1);
    }
  }

  lemma {:induction false} LeadingByte(c: byte, s: Bytes)
    ensures FromBigEndian([c] + s) == c * Pow256(|s|) + FromBigEndian(s)
  {
    if s == [] {
      assert [c] + s == [c] && [c][..0] == [];
    } else {
      var k := |s| - 1;
      LeadingByte(c, s[..k]);
      assert ([c] + s)[..k + 1] == [c] + s[..k];
      assert Pow256(|s|) == 256 * Pow256(k);
      assert (c * Pow256(k)) * 256 == c * Pow256(|s|);
    }
  }

  /** Pieces put together. */
  function Concat(chunks: seq<Bytes>): Bytes {
    if chunks == [] then [] else Concat(chunks[..|chunks| - 1]) + chunks[|chunks| - 1]
  }
}
