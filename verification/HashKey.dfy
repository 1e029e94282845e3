/** Hashes from bytes, and the strings they are stored under in the ledger. */
module HashKey {
  import opened ByteStrings
  import opened Arithmetic
  import opened UInt128
  import opened UInt256

  // ---------- from bytes ----------

  lemma {:induction false} BigEndianConcat(a: Bytes, b: Bytes)
    ensures FromBigEndian(a + b) == FromBigEndian(a) * Pow256(|b|) + FromBigEndian(b)
  {
    if b == [] {
      assert a + b == a;
    } else {
      var init, last := b[..|b| - 1], b[|b| - 1];
      assert (a + b)[..|a + b| - 1] == a + init;
      BigEndianConcat(a, init);
      Factor(FromBigEndian(a), FromBigEndian(init), Pow256(|init|), 256);
      Shuffle(FromBigEndian(a), Pow256(|init|));
    }
  }

  lemma Shuffle(x: nat, p: nat)
    ensures x * (256 * p) == (x * 256) * p
  {}

  lemma {:induction false} Pow256Is(n: nat)
    ensures Pow256(n) == Pow2(8 * n)
  {
    if n > 0 {
      Pow256Is(n - 1);
      Pow2Add(8, 8 * (n - 1));
      Pow2Words();
    }
  }

  /** One more byte: the shift frees the low eight bits, so the or adds. */
  lemma {:induction false} NextByte(v: nat, b: byte)
    ensures Or(Shl64(v % W64, 8), b) == (v * 256 + b) % W64
  {
    hide Or, Pow2;
    Pow2Words();
    var w := v % W64;
    var h, l := TopByte(w);
    OrDisjoint(l, b, 8);
    ByteMod(v, b, v / W64, h, l);
  }

  /** The byte that a shift by eight pushes out of a word, and what stays. */
  lemma {:induction false} TopByte(w: u64) returns (h: nat, l: nat)
    ensures w * 256 == h * W64 + l * 256 && l < 0x100_0000_0000_0000
    ensures (w * 256) % W64 == l * 256
  {
    h, l := w / 0x100_0000_0000_0000, w % 0x100_0000_0000_0000;
    ModIs(w * 256, W64, h, l * 256);
  }

  lemma {:induction false} ByteMod(v: nat, b: byte, k: nat, h: nat, l: nat)
    requires k == v / W64 && (v % W64) * 256 == h * W64 + l * 256 && l < 0x100_0000_0000_0000
    ensures (v * 256 + b) % W64 == l * 256 + b
  {
    ModIs(v * 256 + b, W64, k * 256 + h, l * 256 + b);
  }

  /** Shifts in one byte after another; what leaves the word is lost. */
  method ReadWord(rhs: Bytes) returns (w: u64)
    ensures w == FromBigEndian(rhs) % W64
  {
    hide Or, Shl64;
    w := 0;
    assert rhs[..0] == [];
    for i := 0 to |rhs|
      invariant w == FromBigEndian(rhs[..i]) % W64
    {
      assert rhs[..i + 1][..i] == rhs[..i];
      NextByte(FromBigEndian(rhs[..i]), rhs[i]);
      w := Or(Shl64(w, 8), rhs[i]);
    }
    assert rhs[..|rhs|] == rhs;
  }

  method FromBytes128(rhs: Bytes) returns (x: U128)
    ensures Val(x) == FromBigEndian(rhs) % W128
  {
    hide FromBigEndian, Pow2;
    Pow256Is(8);
    Pow2Words();
    var len := |rhs|;
    if len <= 8 {
      var lower := ReadWord(rhs);
      SmallBytes(rhs, 8);
      x := U128(0, lower);
      SmallMod(lower);
    } else {
      var start := len - 8;
      var lower := ReadWord(rhs[start..]);
      var upper := ReadWord(rhs[..start]);
      assert rhs == rhs[..start] + rhs[start..];
      BigEndianConcat(rhs[..start], rhs[start..]);
      WordsMod(FromBigEndian(rhs[..start]), FromBigEndian(rhs[start..]), W64);
      SmallBytes(rhs[start..], 8);
      x := U128(upper, lower);
    }
  }

  /** At most `n` bytes spell a number below 256 to the `n`. */
  lemma {:induction false} SmallBytes(s: Bytes, n: nat)
    requires |s| <= n
    ensures FromBigEndian(s) < Pow256(n)
    ensures FromBigEndian(s) % Pow256(n) == FromBigEndian(s)
  {
    hide FromBigEndian;
    Pow256Is(n);
    Pow256Is(|s|);
    Pow2Le(8 * |s|, 8 * n);
    ModIs(FromBigEndian(s), Pow256(n), 0, FromBigEndian(s));
  }

  /** Reducing the high part by the word size reduces the whole by its square. */
  lemma {:induction false} WordsMod(x: nat, y: nat, b: nat)
    requires b > 0
    ensures y < b ==> (x % b) * b + y == (x * b + y) % (b * b)
  {
    if y < b {
      Quotient(x, b);
      var h, l := x / b, x % b;
      Distribute(h, l, b);
      MulLe(l + 1, b, b);
      ModIs(x * b + y, b * b, h, l * b + y);
    }
  }

  method FromBytes256(rhs: Bytes) returns (x: U256)
    ensures Value(x) == FromBigEndian(rhs) % W256
    ensures |rhs| == 32 ==> Value(x) == FromBigEndian(rhs)
  {
    hide FromBigEndian, Pow2, Val;
    Pow256Is(16);
    Pow256Is(32);
    Pow2Words();
    var len := |rhs|;
    if len > 16 {
      var start := len - 16;
      var lower := FromBytes128(rhs[start..]);
      var upper := FromBytes128(rhs[..start]);
      assert rhs == rhs[..start] + rhs[start..];
      BigEndianConcat(rhs[..start], rhs[start..]);
      SmallBytes(rhs[start..], 16);
      WordsMod(FromBigEndian(rhs[..start]), FromBigEndian(rhs[start..]), W128);
      x := U256(upper, lower);
    } else {
      var lower := FromBytes128(rhs);
      SmallBytes(rhs, 16);
      ZeroVal();
      x := U256(ZERO, lower);
      ModIs(Value(x), W256, 0, Value(x));
    }
    if len == 32 { SmallBytes(rhs, 32); }
  }

  // ---------- to strings ----------

  function HexDigit(d: nat): char
    requires d < 16
  {
    "0123456789abcdef"[d]
  }

  /** Hexadecimal digits as a stream writes them, without leading zeros. */
  function Hex(v: nat): (s: string)
    ensures s != []
  {
    if v < 16 then [HexDigit(v)] else Hex(v / 16) + [HexDigit(v % 16)]
  }

  /** Fills up to a width of 16 with zeros on the left. */
  function Fill(s: string): (r: string)
    decreases 16 - |s|
  {
    if |s| >= 16 then s else Fill(['0'] + s)
  }

  function Str128(x: U128): string {
    Fill(Hex(x.upper)) + Fill(Hex(x.lower))
  }

  function Str(x: U256): string {
    Str128(x.upper) + Str128(x.lower)
  }

  function DigitValue(c: char): nat {
    if '0' <= c <= '9' then c as nat - '0' as nat
    else if 'a' <= c <= 'f' then c as nat - 'a' as nat + 10 else 0
  }

  /** The number that a string of hexadecimal digits spells. */
  function FromHex(s: string): nat {
    if s == [] then 0 else FromHex(s[..|s| - 1]) * 16 + DigitValue(s[|s| - 1])
  }

  lemma DigitRoundTrip(d: nat)
    requires d < 16
    ensures DigitValue(HexDigit(d)) == d
  {}

  lemma {:induction false} HexRoundTrip(v: nat, n: nat)
    requires v < Pow2(4 * n) && n > 0
    ensures FromHex(Hex(v)) == v && |Hex(v)| <= n
    decreases n
  {
    if v < 16 {
      DigitRoundTrip(v);
      assert [HexDigit(v)][..0] == [];
    } else {
      Pow2Add(4, 4 * (n - 1));
      Sixteen();
      hide Pow2;
      if n == 1 { Pow2Zero(); }
      HexRoundTrip(v / 16, n - 1);
      DigitRoundTrip(v % 16);
      var s := Hex(v / 16) + [HexDigit(v % 16)];
      assert s[..|s| - 1] == Hex(v / 16);
    }
  }

  lemma Sixteen()
    ensures Pow2(4) == 16
  {}

  lemma {:induction false} FillRoundTrip(s: string)
    ensures FromHex(Fill(s)) == FromHex(s)
    ensures |s| <= 16 ==> |Fill(s)| == 16
    decreases 16 - |s|
  {
    if |s| < 16 {
      ZeroFront(s);
      FillRoundTrip(['0'] + s);
    }
  }

  lemma {:induction false} ZeroFront(s: string)
    ensures FromHex(['0'] + s) == FromHex(s)
  {
    var t := ['0'] + s;
    if s == [] {
      assert t[..0] == [];
    } else {
      assert t[..|t| - 1] == ['0'] + s[..|s| - 1];
      ZeroFront(s[..|s| - 1]);
    }
  }

  lemma {:induction false} HexConcat(a: string, b: string)
    ensures FromHex(a + b) == FromHex(a) * Pow2(4 * |b|) + FromHex(b)
  {
    if b == [] {
      assert a + b == a;
    } else {
      var init, last := b[..|b| - 1], b[|b| - 1];
      assert (a + b)[..|a + b| - 1] == a + init;
      HexConcat(a, init);
      Sixteen();
      Pow2Add(4, 4 * |init|);
      hide Pow2;
      Factor(FromHex(a), FromHex(init), Pow2(4 * |init|), 16);
      Sixteenfold(FromHex(a), Pow2(4 * |init|));
    }
  }

  lemma Sixteenfold(x: nat, p: nat)
    ensures x * (16 * p) == (x * 16) * p
  {}

  lemma {:induction false} WordStr(v: u64)
    ensures |Fill(Hex(v))| == 16 && FromHex(Fill(Hex(v))) == v
  {
    Pow2Words();
    HexRoundTrip(v, 16);
    FillRoundTrip(Hex(v));
  }

  lemma {:induction false} HalfStr(x: U128)
    ensures |Str128(x)| == 32 && FromHex(Str128(x)) == Val(x)
  {
    WordStr(x.upper);
    WordStr(x.lower);
    Pow2Words();
    hide Pow2, Fill, Hex, FromHex;
    HexConcat(Fill(Hex(x.upper)), Fill(Hex(x.lower)));
  }

  /** Every hash has a string of 64 digits that spells it. */
  lemma {:induction false} StrRoundTrip(x: U256)
    ensures |Str(x)| == 64 && FromHex(Str(x)) == Value(x)
  {
    HalfStr(x.upper);
    HalfStr(x.lower);
    Pow2Words();
    hide Pow2, Str128, FromHex, Val;
    HexConcat(Str128(x.upper), Str128(x.lower));
  }

  /** Two hashes never share a ledger key. */
  lemma {:induction false} StrInjective(a: U256, b: U256)
    requires Str(a) == Str(b)
    ensures a == b
  {
    StrRoundTrip(a);
    StrRoundTrip(b);
    Less256Means(a, b);
  }
}
