/** Variable-length integers of the compressed B-tree.

    The first byte alone fixes the length of an encoding, and 0xFC is never a
    first byte: the pair codec uses that byte as its duplicate marker. */
module IntCodec {
  import opened ByteStrings

  const MAX_1BYTE: nat := 0x7F
  const MAX_2BYTE: nat := 0x407F
  const MAX_3BYTE: nat := 0x20407F
  const MAX_4BYTE: nat := 0x1020407F
  const MAX_5BYTE: nat := 0x081020407F
  const MAX_6BYTE: nat := 0x01081020407F
  const MAX_7BYTE: nat := 0x0101081020407F
  const MAX_8BYTE: nat := 0x010101081020407F

  const SPARE_VAL: byte := 0xFC

  /** A key or a data item: its length is a 32-bit field. */
  type Item = s: Bytes | |s| < 0x1_0000_0000

  /** Bytes that `CompressInt` writes for `i`. */
  function CountInt(i: nat): (n: nat)
    ensures 1 <= n <= 9
    ensures i >= 1 ==> n <= i
  {
    if i <= MAX_1BYTE then 1
    else if i <= MAX_2BYTE then 2
    else if i <= MAX_3BYTE then 3
    else if i <= MAX_4BYTE then 4
    else if i <= MAX_5BYTE then 5
    else if i <= MAX_6BYTE then 6
    else if i <= MAX_7BYTE then 7
    else if i <= MAX_8BYTE then 8
    else 9
  }

  lemma CountMonotone(i: nat, j: nat)
    requires i <= j
    ensures CountInt(i) <= CountInt(j)
  {}

  lemma {:induction false} CountSubadditive(i: nat, j: nat)
    ensures CountInt(i + j) <= CountInt(i) + CountInt(j)
  {
    if i > j { CountSubadditive(j, i); } else { CountMonotone(i + j, 2 * j); }
  }

  /** Growing a length by `d` grows its encoding by at most `d`. */
  lemma {:induction false} CountGrowth(i: nat, d: nat)
    ensures CountInt(i + d) <= CountInt(i) + d
  {
    if d > 0 { CountSubadditive(i, d); }
  }

  /** The marker bits of a length class are clear in the value's top byte, so
      the source's bitwise or is an addition here. */
  function CompressInt(i: nat): (s: Bytes)
    requires i < 0x1_0000_0000_0000_0000
    ensures |s| == CountInt(i)
    ensures s[0] < SPARE_VAL
  {
    if i <= MAX_1BYTE then [i]
    else if i <= MAX_2BYTE then
      var v := i - (MAX_1BYTE + 1);
      [0x80 + v / 0x100] + BigEndian(v % 0x100, 1)
    else if i <= MAX_3BYTE then
      var v := i - (MAX_2BYTE + 1);
      [0xC0 + v / 0x1_0000] + BigEndian(v % 0x1_0000, 2)
    else if i <= MAX_4BYTE then
      var v := i - (MAX_3BYTE + 1);
      [0xE0 + v / 0x100_0000] + BigEndian(v % 0x100_0000, 3)
    else if i <= MAX_5BYTE then
      var v := i - (MAX_4BYTE + 1);
      [0xF0 + v / 0x1_0000_0000] + BigEndian(v % 0x1_0000_0000, 4)
    else if i <= MAX_6BYTE then [0xF8] + BigEndian(i - (MAX_5BYTE + 1), 5)
    else if i <= MAX_7BYTE then [0xF9] + BigEndian(i - (MAX_6BYTE + 1), 6)
    else if i <= MAX_8BYTE then [0xFA] + BigEndian(i - (MAX_7BYTE + 1), 7)
    else [0xFB] + BigEndian(i - (MAX_8BYTE + 1), 8)
  }

  /** The length classes: the largest number of each is a sum of powers of two. */
  lemma CountClasses(i: nat)
    ensures CountInt(i) <= 1 <==> i < 0x80
    ensures CountInt(i) <= 2 <==> i < 0x4000 + 0x80
    ensures CountInt(i) <= 3 <==> i < 0x20_0000 + 0x4000 + 0x80
    ensures CountInt(i) <= 4 <==> i < 0x1000_0000 + 0x20_0000 + 0x4000 + 0x80
    ensures CountInt(i) <= 5 <==> i < 0x8_0000_0000 + 0x1000_0000 + 0x20_0000 + 0x4000 + 0x80
    ensures CountInt(i) <= 6 <==>
      i < 0x100_0000_0000 + 0x8_0000_0000 + 0x1000_0000 + 0x20_0000 + 0x4000 + 0x80
    ensures CountInt(i) <= 7 <==>
      i < 0x1_0000_0000_0000 + 0x100_0000_0000 + 0x8_0000_0000 + 0x1000_0000 + 0x20_0000 + 0x4000 + 0x80
    ensures CountInt(i) <= 8 <==>
      i < 0x100_0000_0000_0000 + 0x1_0000_0000_0000 + 0x100_0000_0000 + 0x8_0000_0000 + 0x1000_0000 + 0x20_0000
          + 0x4000 + 0x80
  {}

  /** What the first encoding of `n` bytes spells, most significant byte first. */
  function ClassStart(n: nat): nat
    requires 1 <= n <= 9
  {
    if n == 1 then 0 else if n == 2 then 0x8000 else if n == 3 then 0xC0_0000 else if n == 4 then 0xE000_0000
    else if n == 5 then 0xF0_0000_0000 else if n == 6 then 0xF800_0000_0000 else if n == 7 then 0xF9_0000_0000_0000
    else if n == 8 then 0xFA00_0000_0000_0000 else 0xFB_0000_0000_0000_0000
  }

  /** The first number whose encoding has `n` bytes. */
  function ClassFirst(n: nat): nat
    requires 1 <= n <= 9
  {
    if n == 1 then 0 else if n == 2 then 0x80 else if n == 3 then 0x4080 else if n == 4 then 0x20_4080
    else if n == 5 then 0x1020_4080 else if n == 6 then 0x8_1020_4080 else if n == 7 then 0x108_1020_4080
    else if n == 8 then 0x1_0108_1020_4080 else 0x101_0108_1020_4080
  }

  /** Read as one number, most significant byte first, an encoding counts up with what
      it encodes, from where its class starts. */
  lemma {:induction false} EncodingSpells(i: nat)
    requires i < 0x1_0000_0000_0000_0000
    ensures var n := CountInt(i);
      ClassFirst(n) <= i && FromBigEndian(CompressInt(i)) == ClassStart(n) + (i - ClassFirst(n))
  {
    hide BigEndian, FromBigEndian, Pow256;
    PowersOf256();
    MorePowersOf256();
    if i <= MAX_1BYTE {
      OneByteSpells(i);
    } else if i <= MAX_2BYTE {
      var v := i - (MAX_1BYTE + 1);
      Spells(0x80 + v / 0x100, v % 0x100, 1);
    } else if i <= MAX_3BYTE {
      var v := i - (MAX_2BYTE + 1);
      Spells(0xC0 + v / 0x1_0000, v % 0x1_0000, 2);
    } else if i <= MAX_4BYTE {
      var v := i - (MAX_3BYTE + 1);
      Spells(0xE0 + v / 0x100_0000, v % 0x100_0000, 3);
    } else if i <= MAX_5BYTE {
      var v := i - (MAX_4BYTE + 1);
      Spells(0xF0 + v / 0x1_0000_0000, v % 0x1_0000_0000, 4);
    } else if i <= MAX_6BYTE {
      Spells(0xF8, i - (MAX_5BYTE + 1), 5);
    } else if i <= MAX_7BYTE {
      Spells(0xF9, i - (MAX_6BYTE + 1), 6);
    } else if i <= MAX_8BYTE {
      Spells(0xFA, i - (MAX_7BYTE + 1), 7);
    } else {
      Spells(0xFB, i - (MAX_8BYTE + 1), 8);
    }
  }

  lemma OneByteSpells(c: byte)
    ensures FromBigEndian([c]) == c
  {
    assert [c][..0] == [];
  }

  lemma {:induction false} Spells(c: byte, v: nat, n: nat)
    requires v < Pow256(n)
    ensures FromBigEndian([c] + BigEndian(v, n)) == c * Pow256(n) + v
  {
    LeadingByte(c, BigEndian(v, n));
    BigEndianRoundTrip(v, n);
  }

  lemma {:induction false} MorePowersOf256()
    ensures Pow256(5) == 0x100_0000_0000 && Pow256(6) == 0x1_0000_0000_0000
    ensures Pow256(7) == 0x100_0000_0000_0000 && Pow256(8) == 0x1_0000_0000_0000_0000
  {
    PowersOf256();
    assert Pow256(5) == 256 * Pow256(4);
    assert Pow256(6) == 256 * Pow256(5);
    assert Pow256(7) == 256 * Pow256(6);
    assert Pow256(8) == 256 * Pow256(7);
  }

  /** Length of the encoding that starts with byte `c`. */
  function DecompressCount(c: byte): (n: nat)
    ensures n >= 1
  {
    if c < 0x80 then 1
    else if c < 0xC0 then 2
    else if c < 0xE0 then 3
    else if c < 0xF0 then 4
    else if c < 0xF8 then 5
    else if c == 0xF8 then 6
    else if c == 0xF9 then 7
    else if c == 0xFA then 8
    else if c == 0xFB then 9
    else 0xFF
  }

  /** The first byte of any encoding tells its length; the four bytes that are none say
      so. */
  lemma {:induction false} FirstByteTells(i: nat, c: byte)
    requires i < 0x1_0000_0000_0000_0000
    ensures DecompressCount(CompressInt(i)[0]) == CountInt(i)
    ensures DecompressCount(c) > 9 <==> c >= SPARE_VAL
  {
    hide BigEndian;
  }

  /** The 32-bit decoder: a five-byte encoding wraps modulo 2^32 and a longer
      one yields zero. */
  function DecompressInt32(s: Bytes): u32
    requires |s| > 0 && |s| >= DecompressCount(s[0])
  {
    PowersOf256();
    match DecompressCount(s[0])
    case 1 => s[0]
    case 2 => (s[0] - 0x80) * 0x100 + FromBigEndian(s[1..2]) + (MAX_1BYTE + 1)
    case 3 => (s[0] - 0xC0) * 0x1_0000 + FromBigEndian(s[1..3]) + (MAX_2BYTE + 1)
    case 4 => (s[0] - 0xE0) * 0x100_0000 + FromBigEndian(s[1..4]) + (MAX_3BYTE + 1)
    case 5 => (FromBigEndian(s[1..5]) + (MAX_4BYTE + 1)) % 0x1_0000_0000
    case _ => 0
  }

  lemma {:induction false} PowersOf256()
    ensures Pow256(1) == 0x100 && Pow256(2) == 0x1_0000
    ensures Pow256(3) == 0x100_0000 && Pow256(4) == 0x1_0000_0000
  {
    assert Pow256(1) == 256 * Pow256(0);
    assert Pow256(2) == 256 * Pow256(1);
    assert Pow256(3) == 256 * Pow256(2);
    assert Pow256(4) == 256 * Pow256(3);
  }

  /** The tail of an encoding, cut out of a longer buffer. */
  lemma {:induction false} TailOf(c: byte, v: nat, n: nat, rest: Bytes)
    requires v < Pow256(n)
    ensures var s := [c] + BigEndian(v, n) + rest;
      |s| >= 1 + n && s[0] == c && FromBigEndian(s[1..1 + n]) == v
  {
    var s := [c] + BigEndian(v, n) + rest;
    assert s[1..1 + n] == BigEndian(v, n);
    BigEndianRoundTrip(v, n);
  }

  /** The encoding of `i`, whatever bytes follow it, is read back as `i`. */
  ghost predicate ReadsBack(i: u32, rest: Bytes) {
    var s := CompressInt(i) + rest;
    && DecompressCount(s[0]) == CountInt(i)
    && DecompressInt32(s) == i
  }

  lemma {:induction false} TwoByteRoundTrip(i: u32, rest: Bytes)
    requires MAX_1BYTE < i <= MAX_2BYTE
    ensures ReadsBack(i, rest)
  {
    PowersOf256();
    hide BigEndian, FromBigEndian, Pow256;
    var v := i - (MAX_1BYTE + 1);
    TailOf(0x80 + v / 0x100, v % 0x100, 1, rest);
  }

  lemma {:induction false} ThreeByteRoundTrip(i: u32, rest: Bytes)
    requires MAX_2BYTE < i <= MAX_3BYTE
    ensures ReadsBack(i, rest)
  {
    PowersOf256();
    hide BigEndian, FromBigEndian, Pow256;
    var v := i - (MAX_2BYTE + 1);
    TailOf(0xC0 + v / 0x1_0000, v % 0x1_0000, 2, rest);
  }

  lemma {:induction false} FourByteRoundTrip(i: u32, rest: Bytes)
    requires MAX_3BYTE < i <= MAX_4BYTE
    ensures ReadsBack(i, rest)
  {
    PowersOf256();
    hide BigEndian, FromBigEndian, Pow256;
    var v := i - (MAX_3BYTE + 1);
    TailOf(0xE0 + v / 0x100_0000, v % 0x100_0000, 3, rest);
  }

  lemma {:induction false} FiveByteRoundTrip(i: u32, rest: Bytes)
    requires MAX_4BYTE < i
    ensures ReadsBack(i, rest)
  {
    PowersOf256();
    hide BigEndian, FromBigEndian, Pow256;
    var v := i - (MAX_4BYTE + 1);
    assert v / 0x1_0000_0000 == 0 && v % 0x1_0000_0000 == v;
    TailOf(0xF0, v, 4, rest);
  }

  lemma {:induction false} IntRoundTrip(i: u32, rest: Bytes)
    ensures ReadsBack(i, rest)
  {
    if i <= MAX_1BYTE {
    } else if i <= MAX_2BYTE {
      TwoByteRoundTrip(i, rest);
    } else if i <= MAX_3BYTE {
      ThreeByteRoundTrip(i, rest);
    } else if i <= MAX_4BYTE {
      FourByteRoundTrip(i, rest);
    } else {
      FiveByteRoundTrip(i, rest);
    }
  }
}
