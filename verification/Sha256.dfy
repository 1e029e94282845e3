/** SHA-256: the definition of FIPS 180-4 over whole messages, and the streaming
    implementation. */
module Sha256 {
  import opened Arithmetic
  import opened ByteStrings

  type Word = bv32

  // ---------- FIPS 180-4, section 4: functions and constants ----------

  function RotRight(x: Word, n: Word): Word
    requires 0 < n < 32
  {
    (x >> n) | (x << (32 - n))
  }

  function Ch(x: Word, y: Word, z: Word): Word {
    (x & y) ^ (!x & z)
  }

  function Maj(x: Word, y: Word, z: Word): Word {
    (x & y) ^ (x & z) ^ (y & z)
  }

  function BigSigma0(x: Word): Word {
    RotRight(x, 2) ^ RotRight(x, 13) ^ RotRight(x, 22)
  }

  function BigSigma1(x: Word): Word {
    RotRight(x, 6) ^ RotRight(x, 11) ^ RotRight(x, 25)
  }

  function SmallSigma0(x: Word): Word {
    RotRight(x, 7) ^ RotRight(x, 18) ^ (x >> 3)
  }

  function SmallSigma1(x: Word): Word {
    RotRight(x, 17) ^ RotRight(x, 19) ^ (x >> 10)
  }

  function Plus(x: Word, y: Word): Word {
    x + y
  }

  function Pick<T>(i: nat, a: T, b: T, c: T, d: T, e: T, f: T, g: T, h: T): T {
    if i == 0 then a else if i == 1 then b else if i == 2 then c else if i == 3 then d
    else if i == 4 then e else if i == 5 then f else if i == 6 then g else h
  }

  /** The round constants. */
  function K(t: nat): Word
    requires t < 64
  {
    if t < 8 then Pick(t, 0x428a2f98, 0x71374491, 0xb5c0fbcf, 0xe9b5dba5,
           0x3956c25b, 0x59f111f1, 0x923f82a4, 0xab1c5ed5)
    else if t < 16 then Pick(t - 8, 0xd807aa98, 0x12835b01, 0x243185be, 0x550c7dc3,
           0x72be5d74, 0x80deb1fe, 0x9bdc06a7, 0xc19bf174)
    else if t < 24 then Pick(t - 16, 0xe49b69c1, 0xefbe4786, 0x0fc19dc6, 0x240ca1cc,
           0x2de92c6f, 0x4a7484aa, 0x5cb0a9dc, 0x76f988da)
    else if t < 32 then Pick(t - 24, 0x983e5152, 0xa831c66d, 0xb00327c8, 0xbf597fc7,
           0xc6e00bf3, 0xd5a79147, 0x06ca6351, 0x14292967)
    else if t < 40 then Pick(t - 32, 0x27b70a85, 0x2e1b2138, 0x4d2c6dfc, 0x53380d13,
           0x650a7354, 0x766a0abb, 0x81c2c92e, 0x92722c85)
    else if t < 48 then Pick(t - 40, 0xa2bfe8a1, 0xa81a664b, 0xc24b8b70, 0xc76c51a3,
           0xd192e819, 0xd6990624, 0xf40e3585, 0x106aa070)
    else if t < 56 then Pick(t - 48, 0x19a4c116, 0x1e376c08, 0x2748774c, 0x34b0bcb5,
           0x391c0cb3, 0x4ed8aa4a, 0x5b9cca4f, 0x682e6ff3)
    else Pick(t - 56, 0x748f82ee, 0x78a5636f, 0x84c87814, 0x8cc70208,
           0x90befffa, 0xa4506ceb, 0xbef9a3f7, 0xc67178f2)
  }

  /** The first 64 primes. */
  function Prime(t: nat): nat
    requires t < 64
  {
    if t < 8 then Pick(t, 2, 3, 5, 7, 11, 13, 17, 19)
    else if t < 16 then Pick(t - 8, 23, 29, 31, 37, 41, 43, 47, 53)
    else if t < 24 then Pick(t - 16, 59, 61, 67, 71, 73, 79, 83, 89)
    else if t < 32 then Pick(t - 24, 97, 101, 103, 107, 109, 113, 127, 131)
    else if t < 40 then Pick(t - 32, 137, 139, 149, 151, 157, 163, 167, 173)
    else if t < 48 then Pick(t - 40, 179, 181, 191, 193, 197, 199, 211, 223)
    else if t < 56 then Pick(t - 48, 227, 229, 233, 239, 241, 251, 257, 263)
    else Pick(t - 56, 269, 271, 277, 281, 283, 293, 307, 311)
  }

  predicate IsPrime(n: nat) {
    n >= 2 && forall d :: 2 <= d < n ==> n % d != 0
  }

  predicate DividedBy(n: nat, p: nat)
    requires p > 0
  {
    n > p && n % p == 0
  }

  /** One of the primes up to 17 divides `n` and is not `n`. */
  predicate Sieved(n: nat) {
    || DividedBy(n, 2) || DividedBy(n, 3) || DividedBy(n, 5) || DividedBy(n, 7)
    || DividedBy(n, 11) || DividedBy(n, 13) || DividedBy(n, 17)
  }

  /** The eight entries of the table from the `t`-th on. */
  predicate Row(x: nat, t: nat)
    requires t <= 56
  {
    || x == Prime(t) || x == Prime(t + 1) || x == Prime(t + 2) || x == Prime(t + 3)
    || x == Prime(t + 4) || x == Prime(t + 5) || x == Prime(t + 6) || x == Prime(t + 7)
  }

  /** A number below the square of 19 is prime if it is not sieved. */
  lemma {:induction false} SieveFinds(n: nat)
    requires 2 <= n < 361
    ensures IsPrime(n) <==> !Sieved(n)
  {
    if !Sieved(n) {
      forall d | 2 <= d < n ensures n % d != 0 {
        if n % d == 0 { SmallerFactor(n, d, n / d); }
      }
    }
  }

  lemma {:induction false} SmallerFactor(n: nat, d: nat, q: nat)
    requires 2 <= d < n < 361 && n == d * q
    ensures Sieved(n)
  {
    hide Sieved;
    FactorSizes(n, d, q);
    if d < 19 { SmallFactor(n, d, q); } else { SmallFactor(n, q, d); }
  }

  lemma {:induction false} FactorSizes(n: nat, d: nat, q: nat)
    requires 2 <= d < n < 361 && n == d * q
    ensures q >= 2 && q < n && (d < 19 || q < 19)
  {
    MulLe(d, 1, q);
    MulLe(q, 1, d);
    if d >= 19 { MulLe(19, d, q); }
  }

  /** A factor below 19 has a prime factor up to 17. */
  lemma {:induction false} SmallFactor(n: nat, d: nat, q: nat)
    requires 2 <= d < 19 && 2 <= q && n == d * q && d < n
    ensures Sieved(n)
  {
    var p := if d % 2 == 0 then 2 else if d % 3 == 0 then 3 else if d == 5 then 5 else if d == 7 then 7
             else if d == 11 then 11 else if d == 13 then 13 else 17;
    assert d % p == 0 && d == d / p * p;
    Shuffle(d / p, p, q);
    ModIs(n, p, d / p * q, 0);
  }

  lemma Shuffle(a: nat, p: nat, q: nat)
    ensures (a * p) * q == (a * q) * p
  {}

  lemma {:induction false} Row0(x: nat)
    requires 2 <= x < 23
    ensures !Sieved(x) <==> Row(x, 0)
  {
    if x % 2 == 1 {
      assert x == 3 || x == 5 || x == 7 || x == 9 || x == 11 || x == 13 || x == 15 || x == 17 || x == 19
        || x == 21;
    }
  }

  lemma {:induction false} Row1(x: nat)
    requires 23 <= x < 59
    ensures !Sieved(x) <==> Row(x, 8)
  {
    if x % 2 == 1 {
      assert x == 23 || x == 25 || x == 27 || x == 29 || x == 31 || x == 33 || x == 35 || x == 37 || x == 39
        || x == 41 || x == 43 || x == 45 || x == 47 || x == 49 || x == 51 || x == 53 || x == 55 || x == 57;
    }
  }

  lemma {:induction false} Row2(x: nat)
    requires 59 <= x < 97
    ensures !Sieved(x) <==> Row(x, 16)
  {
    if x % 2 == 1 {
      assert x == 59 || x == 61 || x == 63 || x == 65 || x == 67 || x == 69 || x == 71 || x == 73 || x == 75
        || x == 77 || x == 79 || x == 81 || x == 83 || x == 85 || x == 87 || x == 89 || x == 91 || x == 93
        || x == 95;
    }
  }

  lemma {:induction false} Row3(x: nat)
    requires 97 <= x < 137
    ensures !Sieved(x) <==> Row(x, 24)
  {
    if x % 2 == 1 {
      assert x == 97 || x == 99 || x == 101 || x == 103 || x == 105 || x == 107 || x == 109 || x == 111
        || x == 113 || x == 115 || x == 117 || x == 119 || x == 121 || x == 123 || x == 125 || x == 127
        || x == 129 || x == 131 || x == 133 || x == 135;
    }
  }

  lemma {:induction false} Row4(x: nat)
    requires 137 <= x < 179
    ensures !Sieved(x) <==> Row(x, 32)
  {
    if x % 2 == 1 {
      assert x == 137 || x == 139 || x == 141 || x == 143 || x == 145 || x == 147 || x == 149 || x == 151
        || x == 153 || x == 155 || x == 157 || x == 159 || x == 161 || x == 163 || x == 165 || x == 167
        || x == 169 || x == 171 || x == 173 || x == 175 || x == 177;
    }
  }

  lemma {:induction false} Row5(x: nat)
    requires 179 <= x < 227
    ensures !Sieved(x) <==> Row(x, 40)
  {
    if x % 2 == 1 {
      assert x == 179 || x == 181 || x == 183 || x == 185 || x == 187 || x == 189 || x == 191 || x == 193
        || x == 195 || x == 197 || x == 199 || x == 201 || x == 203 || x == 205 || x == 207 || x == 209
        || x == 211 || x == 213 || x == 215 || x == 217 || x == 219 || x == 221 || x == 223 || x == 225;
    }
  }

  lemma {:induction false} Row6(x: nat)
    requires 227 <= x < 269
    ensures !Sieved(x) <==> Row(x, 48)
  {
    if x % 2 == 1 {
      assert x == 227 || x == 229 || x == 231 || x == 233 || x == 235 || x == 237 || x == 239 || x == 241
        || x == 243 || x == 245 || x == 247 || x == 249 || x == 251 || x == 253 || x == 255 || x == 257
        || x == 259 || x == 261 || x == 263 || x == 265 || x == 267;
    }
  }

  lemma {:induction false} Row7(x: nat)
    requires 269 <= x < 312
    ensures !Sieved(x) <==> Row(x, 56)
  {
    if x % 2 == 1 {
      assert x == 269 || x == 271 || x == 273 || x == 275 || x == 277 || x == 279 || x == 281 || x == 283
        || x == 285 || x == 287 || x == 289 || x == 291 || x == 293 || x == 295 || x == 297 || x == 299
        || x == 301 || x == 303 || x == 305 || x == 307 || x == 309 || x == 311;
    }
  }

  /** The rows of the table cover all numbers: in each range the numbers that are not
      sieved are those of the row. */
  lemma {:induction false} Rows(x: nat) returns (t: nat)
    requires 2 <= x < 312
    ensures t <= 56 && (!Sieved(x) <==> Row(x, t))
  {
    hide Sieved, Row;
    if x < 23 { t := 0; Row0(x); } else if x < 59 { t := 8; Row1(x); }
    else if x < 97 { t := 16; Row2(x); } else if x < 137 { t := 24; Row3(x); }
    else if x < 179 { t := 32; Row4(x); } else if x < 227 { t := 40; Row5(x); }
    else if x < 269 { t := 48; Row6(x); } else { t := 56; Row7(x); }
  }

  /** No entry of the table is sieved. */
  lemma {:induction false} EntryPrime(i: nat)
    requires i < 64
    ensures 2 <= Prime(i) <= 311 && !Sieved(Prime(i))
  {
    hide Sieved;
    var x := Prime(i);
    if i < 8 { Row0(x); } else if i < 16 { Row1(x); } else if i < 24 { Row2(x); } else if i < 32 { Row3(x); }
    else if i < 40 { Row4(x); } else if i < 48 { Row5(x); } else if i < 56 { Row6(x); } else { Row7(x); }
  }

  lemma {:induction false} Increasing(t: nat, u: nat)
    requires t < u < 64
    ensures Prime(t) < Prime(u)
    decreases u
  {
    NextPrime(u - 1);
    hide Prime;
    if t < u - 1 { Increasing(t, u - 1); }
  }

  lemma NextPrime(t: nat)
    requires t < 63
    ensures Prime(t) < Prime(t + 1)
  {}

  /** The table has the first 64 primes, in order: every prime up to the last one is in
      it, and nothing else. */
  lemma {:induction false} FirstPrimes(x: nat, t: nat, u: nat)
    requires x <= Prime(63) && t < u < 64
    ensures IsPrime(x) <==> exists i :: 0 <= i < 64 && Prime(i) == x
    ensures Prime(t) < Prime(u)
  {
    assert Prime(63) == 311;
    hide Sieved, IsPrime, Prime;
    Increasing(t, u);
    if x >= 2 {
      SieveFinds(x);
      var r := Rows(x);
    } else {
      TooSmall(x);
    }
    forall i | 0 <= i < 64 && Prime(i) == x ensures x >= 2 && !Sieved(x) { EntryPrime(i); }
  }

  lemma TooSmall(x: nat)
    requires x < 2
    ensures !IsPrime(x)
  {}

  /** The initial hash value. */
  function Initial(t: nat): Word {
    Pick(t, 0x6a09e667, 0xbb67ae85, 0x3c6ef372, 0xa54ff53a, 0x510e527f, 0x9b05688c, 0x1f83d9ab, 0x5be0cd19)
  }

  /** The integer part of the cube root of a number below 343. */
  function CubeFloor(p: nat): nat {
    if p < 8 then 1 else if p < 27 then 2 else if p < 64 then 3 else if p < 125 then 4
    else if p < 216 then 5 else 6
  }

  function SquareFloor(p: nat): nat {
    if p < 4 then 1 else if p < 9 then 2 else if p < 16 then 3 else 4
  }

  /** `frac` is the first 32 bits of the fractional part of the cube root of `p`. */
  predicate CubeRootBits(p: nat, frac: u32) {
    var x := CubeFloor(p) * 0x1_0000_0000 + frac;
    x * x * x <= p * 0x1_0000_0000_0000_0000_0000_0000 < (x + 1) * (x + 1) * (x + 1)
  }

  predicate SquareRootBits(p: nat, frac: u32) {
    var x := SquareFloor(p) * 0x1_0000_0000 + frac;
    x * x <= p * 0x1_0000_0000_0000_0000 < (x + 1) * (x + 1)
  }

  lemma {:induction false} Constants0(t: nat)
    requires 0 <= t < 8
    ensures CubeRootBits(Prime(t), K(t) as int)
  {
    assert CubeRootBits(2, 0x428a2f98);
    assert CubeRootBits(3, 0x71374491);
    assert CubeRootBits(5, 0xb5c0fbcf);
    assert CubeRootBits(7, 0xe9b5dba5);
    assert CubeRootBits(11, 0x3956c25b);
    assert CubeRootBits(13, 0x59f111f1);
    assert CubeRootBits(17, 0x923f82a4);
    assert CubeRootBits(19, 0xab1c5ed5);
    hide CubeRootBits;
    assert t == 0 || t == 1 || t == 2 || t == 3 || t == 4 || t == 5 || t == 6 || t == 7;
  }

  lemma {:induction false} Constants1(t: nat)
    requires 8 <= t < 16
    ensures CubeRootBits(Prime(t), K(t) as int)
  {
    assert CubeRootBits(23, 0xd807aa98);
    assert CubeRootBits(29, 0x12835b01);
    assert CubeRootBits(31, 0x243185be);
    assert CubeRootBits(37, 0x550c7dc3);
    assert CubeRootBits(41, 0x72be5d74);
    assert CubeRootBits(43, 0x80deb1fe);
    assert CubeRootBits(47, 0x9bdc06a7);
    assert CubeRootBits(53, 0xc19bf174);
    hide CubeRootBits;
    assert t == 8 || t == 9 || t == 10 || t == 11 || t == 12 || t == 13 || t == 14 || t == 15;
  }

  lemma {:induction false} Constants2(t: nat)
    requires 16 <= t < 24
    ensures CubeRootBits(Prime(t), K(t) as int)
  {
    assert CubeRootBits(59, 0xe49b69c1);
    assert CubeRootBits(61, 0xefbe4786);
    assert CubeRootBits(67, 0x0fc19dc6);
    assert CubeRootBits(71, 0x240ca1cc);
    assert CubeRootBits(73, 0x2de92c6f);
    assert CubeRootBits(79, 0x4a7484aa);
    assert CubeRootBits(83, 0x5cb0a9dc);
    assert CubeRootBits(89, 0x76f988da);
    hide CubeRootBits;
    assert t == 16 || t == 17 || t == 18 || t == 19 || t == 20 || t == 21 || t == 22 || t == 23;
  }

  lemma {:induction false} Constants3(t: nat)
    requires 24 <= t < 32
    ensures CubeRootBits(Prime(t), K(t) as int)
  {
    assert CubeRootBits(97, 0x983e5152);
    assert CubeRootBits(101, 0xa831c66d);
    assert CubeRootBits(103, 0xb00327c8);
    assert CubeRootBits(107, 0xbf597fc7);
    assert CubeRootBits(109, 0xc6e00bf3);
    assert CubeRootBits(113, 0xd5a79147);
    assert CubeRootBits(127, 0x06ca6351);
    assert CubeRootBits(131, 0x14292967);
    hide CubeRootBits;
    assert t == 24 || t == 25 || t == 26 || t == 27 || t == 28 || t == 29 || t == 30 || t == 31;
  }

  lemma {:induction false} Constants4(t: nat)
    requires 32 <= t < 40
    ensures CubeRootBits(Prime(t), K(t) as int)
  {
    assert CubeRootBits(137, 0x27b70a85);
    assert CubeRootBits(139, 0x2e1b2138);
    assert CubeRootBits(149, 0x4d2c6dfc);
    assert CubeRootBits(151, 0x53380d13);
    assert CubeRootBits(157, 0x650a7354);
    assert CubeRootBits(163, 0x766a0abb);
    assert CubeRootBits(167, 0x81c2c92e);
    assert CubeRootBits(173, 0x92722c85);
    hide CubeRootBits;
    assert t == 32 || t == 33 || t == 34 || t == 35 || t == 36 || t == 37 || t == 38 || t == 39;
  }

  lemma {:induction false} Constants5(t: nat)
    requires 40 <= t < 48
    ensures CubeRootBits(Prime(t), K(t) as int)
  {
    assert CubeRootBits(179, 0xa2bfe8a1);
    assert CubeRootBits(181, 0xa81a664b);
    assert CubeRootBits(191, 0xc24b8b70);
    assert CubeRootBits(193, 0xc76c51a3);
    assert CubeRootBits(197, 0xd192e819);
    assert CubeRootBits(199, 0xd6990624);
    assert CubeRootBits(211, 0xf40e3585);
    assert CubeRootBits(223, 0x106aa070);
    hide CubeRootBits;
    assert t == 40 || t == 41 || t == 42 || t == 43 || t == 44 || t == 45 || t == 46 || t == 47;
  }

  lemma {:induction false} Constants6(t: nat)
    requires 48 <= t < 56
    ensures CubeRootBits(Prime(t), K(t) as int)
  {
    assert CubeRootBits(227, 0x19a4c116);
    assert CubeRootBits(229, 0x1e376c08);
    assert CubeRootBits(233, 0x2748774c);
    assert CubeRootBits(239, 0x34b0bcb5);
    assert CubeRootBits(241, 0x391c0cb3);
    assert CubeRootBits(251, 0x4ed8aa4a);
    assert CubeRootBits(257, 0x5b9cca4f);
    assert CubeRootBits(263, 0x682e6ff3);
    hide CubeRootBits;
    assert t == 48 || t == 49 || t == 50 || t == 51 || t == 52 || t == 53 || t == 54 || t == 55;
  }

  lemma {:induction false} Constants7(t: nat)
    requires 56 <= t < 64
    ensures CubeRootBits(Prime(t), K(t) as int)
  {
    assert CubeRootBits(269, 0x748f82ee);
    assert CubeRootBits(271, 0x78a5636f);
    assert CubeRootBits(277, 0x84c87814);
    assert CubeRootBits(281, 0x8cc70208);
    assert CubeRootBits(283, 0x90befffa);
    assert CubeRootBits(293, 0xa4506ceb);
    assert CubeRootBits(307, 0xbef9a3f7);
    assert CubeRootBits(311, 0xc67178f2);
    hide CubeRootBits;
    assert t == 56 || t == 57 || t == 58 || t == 59 || t == 60 || t == 61 || t == 62 || t == 63;
  }

  /** The round constants are those of section 4.2.2: each comes from the cube root of
      a prime. */
  lemma {:induction false} RoundConstants(t: nat)
    requires t < 64
    ensures CubeRootBits(Prime(t), K(t) as int)
  {
    hide CubeRootBits, K, Prime;
    if t < 8 { Constants0(t); } else if t < 16 { Constants1(t); }
    else if t < 24 { Constants2(t); } else if t < 32 { Constants3(t); }
    else if t < 40 { Constants4(t); } else if t < 48 { Constants5(t); }
    else if t < 56 { Constants6(t); } else { Constants7(t); }
  }

  /** The initial hash value is that of section 5.3.3, from the square roots of the
      first eight primes. */
  lemma {:induction false} InitialConstants(t: nat)
    requires t < 8
    ensures SquareRootBits(Prime(t), Initial(t) as int)
  {
    assert SquareRootBits(2, 0x6a09e667);
    assert SquareRootBits(3, 0xbb67ae85);
    assert SquareRootBits(5, 0x3c6ef372);
    assert SquareRootBits(7, 0xa54ff53a);
    assert SquareRootBits(11, 0x510e527f);
    assert SquareRootBits(13, 0x9b05688c);
    assert SquareRootBits(17, 0x1f83d9ab);
    assert SquareRootBits(19, 0x5be0cd19);
    hide SquareRootBits;
    assert t == 0 || t == 1 || t == 2 || t == 3 || t == 4 || t == 5 || t == 6 || t == 7;
  }

  // ---------- section 5: padding ----------

  /** Zero bytes between the marker and the length. */
  function PadZeros(n: nat): (k: nat)
    ensures k < 64 && (n + 1 + k) % 64 == 56
  {
    (55 - n) % 64
  }

  /** It is the smallest number that leaves room for the length alone. */
  lemma PadSmallest(n: nat, k: nat)
    requires (n + 1 + k) % 64 == 56
    ensures PadZeros(n) <= k
  {}

  function Zeros(k: nat): (s: Bytes)
    ensures |s| == k && forall i :: 0 <= i < k ==> s[i] == 0
  {
    seq(k, i => 0)
  }

  /** Marker, zeros and the length in bits: a multiple of 64 bytes in all. */
  function Pad(msg: Bytes): (s: Bytes)
    ensures |s| % 64 == 0
  {
    PadLength(|msg| + 1 + PadZeros(|msg|));
    msg + [0x80] + Zeros(PadZeros(|msg|)) + BigEndian(8 * |msg|, 8)
  }

  lemma PadLength(n: nat)
    ensures n % 64 == 56 ==> (n + 8) % 64 == 0
  {}

  // ---------- section 6.2: the hash ----------

  function WordAt(block: Bytes, t: nat): Word
    requires |block| == 64 && t < 16
  {
    (block[4 * t] as bv32 << 24) | (block[4 * t + 1] as bv32 << 16) | (block[4 * t + 2] as bv32 << 8)
      | block[4 * t + 3] as bv32
  }

  function Schedule(block: Bytes, t: nat): Word
    requires |block| == 64
  {
    if t < 16 then WordAt(block, t)
    else
      Plus(Plus(Plus(SmallSigma1(Schedule(block, t - 2)), Schedule(block, t - 7)),
                SmallSigma0(Schedule(block, t - 15))), Schedule(block, t - 16))
  }

  /** Eight words: a hash value, or the working variables. */
  datatype Eight = Eight(a: Word, b: Word, c: Word, d: Word, e: Word, f: Word, g: Word, h: Word)

  function Round(v: Eight, k: Word, w: Word): Eight {
    var t1 := Plus(Plus(Plus(Plus(v.h, BigSigma1(v.e)), Ch(v.e, v.f, v.g)), k), w);
    var t2 := Plus(BigSigma0(v.a), Maj(v.a, v.b, v.c));
    Eight(Plus(t1, t2), v.a, v.b, v.c, Plus(v.d, t1), v.e, v.f, v.g)
  }

  function Rounds(v: Eight, block: Bytes, t: nat): Eight
    requires |block| == 64 && t <= 64
  {
    if t == 0 then v else Round(Rounds(v, block, t - 1), K(t - 1), Schedule(block, t - 1))
  }

  function AddEight(x: Eight, y: Eight): Eight {
    Eight(Plus(x.a, y.a), Plus(x.b, y.b), Plus(x.c, y.c), Plus(x.d, y.d),
          Plus(x.e, y.e), Plus(x.f, y.f), Plus(x.g, y.g), Plus(x.h, y.h))
  }

  function Compress(h: Eight, block: Bytes): Eight
    requires |block| == 64
  {
    AddEight(h, Rounds(h, block, 64))
  }

  function Start(): Eight {
    Eight(Initial(0), Initial(1), Initial(2), Initial(3),
          Initial(4), Initial(5), Initial(6), Initial(7))
  }

  /** The hash value after a whole number of blocks. */
  function HashBlocks(s: Bytes): Eight
    requires |s| % 64 == 0
    decreases |s|
  {
    if s == [] then Start()
    else Compress(HashBlocks(s[..|s| - 64]), s[|s| - 64..])
  }

  function ByteOf(w: Word, i: nat): byte
    requires i < 4
  {
    ((w >> (24 - 8 * i)) & 0xFF) as int
  }

  function WordBytes(w: Word): (s: Bytes)
    ensures |s| == 4
  {
    [ByteOf(w, 0), ByteOf(w, 1), ByteOf(w, 2), ByteOf(w, 3)]
  }

  function Digest(h: Eight): (s: Bytes)
    ensures |s| == 32
  {
    WordBytes(h.a) + WordBytes(h.b) + WordBytes(h.c) + WordBytes(h.d)
      + WordBytes(h.e) + WordBytes(h.f) + WordBytes(h.g) + WordBytes(h.h)
  }

  function Hash(msg: Bytes): (s: Bytes)
    ensures |s| == 32
  {
    Digest(HashBlocks(Pad(msg)))
  }

  // ---------- the streaming implementation ----------

  /** A 64-bit counter. */
  function Wrap64(n: nat): nat {
    n % 0x1_0000_0000_0000_0000
  }

  /** How far a message has been taken in: all of it but `open` is in whole blocks that
      have been hashed and counted. */
  ghost predicate InStep(msg: Bytes, open: Bytes, state: Eight, bitlen: nat) {
    && |open| <= |msg| && (|msg| - |open|) % 64 == 0
    && var full := |msg| - |open|;
       open == msg[full..] && state == HashBlocks(msg[..full]) && bitlen == Wrap64(8 * full)
  }

  class Sha256Ctx {
    const data: array<byte>
    var datalen: nat
    var bitlen: nat
    var state: Eight
    ghost var msg: Bytes

    constructor ()
      ensures Valid() && msg == [] && fresh(data)
    {
      data := new byte[64](i => 0);
      datalen, bitlen, state, msg := 0, 0, Start(), [];
      new;
      hide Start, InStep;
      NothingHashed();
    }

    /** The buffer holds what follows the last whole block of the message; the state is
        the hash value after the whole blocks, and the bit counter counts them. */
    ghost predicate Valid()
      reads this, data
    {
      data.Length == 64 && datalen < 64 && InStep(msg, data[..datalen], state, bitlen)
    }

    /** Expands the block in the buffer to 64 words. */
    method Expand() returns (m: array<Word>)
      requires data.Length == 64
      ensures fresh(m) && m.Length == 64
      ensures forall t :: 0 <= t < 64 ==> m[t] == Schedule(data[..], t)
    {
      hide Plus, SmallSigma0, SmallSigma1, WordAt, Schedule;
      m := new Word[64];
      ghost var block := data[..];
      for i := 0 to 16
        invariant forall t :: 0 <= t < i ==> m[t] == Schedule(block, t)
      {
        ScheduleStep(block, i);
        m[i] := WordAt(data[..], i);
      }
      for i := 16 to 64
        invariant forall t :: 0 <= t < i ==> m[t] == Schedule(block, t)
      {
        ScheduleStep(block, i);
        m[i] := Plus(Plus(Plus(SmallSigma1(m[i - 2]), m[i - 7]), SmallSigma0(m[i - 15])), m[i - 16]);
      }
    }

    /** Compresses the block in the buffer into the state. */
    method Transform()
      requires data.Length == 64
      modifies this`state
      ensures state == Compress(old(state), data[..])
    {
      hide Plus, BigSigma0, BigSigma1, Ch, Maj, Schedule, K, Rounds, Compress;
      var m := Expand();
      ghost var block := data[..];
      var v := state;
      RoundStep(state, block, 0);
      for i := 0 to 64
        invariant state == old(state) && v == Rounds(state, block, i) && block == data[..]
        invariant forall t :: 0 <= t < 64 ==> m[t] == Schedule(block, t)
      {
        RoundStep(state, block, i);
        var t1 := Plus(Plus(Plus(Plus(v.h, BigSigma1(v.e)), Ch(v.e, v.f, v.g)), K(i)), m[i]);
        var t2 := Plus(BigSigma0(v.a), Maj(v.a, v.b, v.c));
        v := v.(h := v.g, g := v.f, f := v.e, e := Plus(v.d, t1), d := v.c, c := v.b, b := v.a, a := Plus(t1, t2));
      }
      CompressIs(state, block, v);
      state := Eight(Plus(state.a, v.a), Plus(state.b, v.b), Plus(state.c, v.c), Plus(state.d, v.d),
                     Plus(state.e, v.e), Plus(state.f, v.f), Plus(state.g, v.g), Plus(state.h, v.h));
    }

    /** The state of the context, but for a buffer that may be full. */
    ghost predicate Filling()
      reads this, data
    {
      data.Length == 64 && datalen <= 64 && InStep(msg, data[..datalen], state, bitlen)
    }

    /** Takes in one byte. */
    method Put(b: byte)
      requires Valid()
      modifies this, data
      ensures Valid() && msg == old(msg) + [b]
    {
      hide HashBlocks, Wrap64;
      Appended(msg, b, |msg| - datalen);
      data[datalen] := b;
      datalen := datalen + 1;
      msg := msg + [b];
      if datalen == 64 {
        NextBlock();
      }
    }

    /** Takes a full buffer into the state. */
    method NextBlock()
      requires Filling() && datalen == 64
      modifies this`state, this`bitlen, this`datalen
      ensures Valid()
    {
      hide Compress, HashBlocks, Wrap64;
      ghost var full := |msg| - 64;
      assert data[..] == msg[full..];
      HashStep(msg, full);
      Transform();
      Counted(8 * full, 512);
      bitlen := Wrap64(bitlen + 512);
      datalen := 0;
      assert data[..0] == [];
    }

    method Update(bytes: Bytes)
      requires Valid() && |bytes| < 0x1_0000_0000
      modifies this, data
      ensures Valid() && msg == old(msg) + bytes
    {
      hide Valid;
      for i := 0 to |bytes|
        invariant Valid() && msg == old(msg) + bytes[..i]
      {
        assert bytes[..i + 1] == bytes[..i] + [bytes[i]];
        Put(bytes[i]);
      }
      assert bytes[..|bytes|] == bytes;
    }

    /** Writes the marker and zeros from `datalen` up to `end`. */
    method Mark(end: nat)
      requires data.Length == 64 && datalen < end <= 64
      modifies data
      ensures data[..end] == old(data[..datalen]) + [0x80] + Zeros(end - datalen - 1)
    {
      var i := datalen;
      data[i] := 0x80;
      i := i + 1;
      while i < end
        invariant datalen < i <= end
        invariant data[..i] == old(data[..datalen]) + [0x80] + Zeros(i - datalen - 1)
      {
        data[i] := 0;
        i := i + 1;
      }
    }

    /** Writes the bit counter into the last eight bytes. */
    method PutLength()
      requires data.Length == 64
      modifies data
      ensures data[..] == old(data[..56]) + BigEndian(bitlen, 8)
    {
      LengthBytes(bitlen);
      data[63] := bitlen % 0x100;
      data[62] := bitlen / 0x100 % 0x100;
      data[61] := bitlen / 0x1_0000 % 0x100;
      data[60] := bitlen / 0x100_0000 % 0x100;
      data[59] := bitlen / 0x1_0000_0000 % 0x100;
      data[58] := bitlen / 0x100_0000_0000 % 0x100;
      data[57] := bitlen / 0x1_0000_0000_0000 % 0x100;
      data[56] := bitlen / 0x100_0000_0000_0000 % 0x100;
    }

    /** Marks the end when the buffer has no room for the length: the rest of the
        buffer becomes a block of its own, and the next one starts with zeros. */
    method MarkLong()
      requires Valid() && datalen >= 56
      modifies this`state, data
      ensures data[..56] == Zeros(56)
      ensures var whole := |msg| - datalen;
        var block := msg[whole..] + [0x80] + Zeros(63 - datalen);
        |block| == 64 && state == Compress(HashBlocks(msg[..whole]), block)
    {
      hide HashBlocks, Compress, Zeros;
      ghost var whole := |msg| - datalen;
      Mark(64);
      ghost var block := data[..64];
      assert block == data[..];
      Transform();
      ghost var compressed := state;
      for i := 0 to 56
        invariant data[..i] == Zeros(i) && state == compressed
      {
        data[i] := 0;
        ZerosStep(i);
        assert data[..i + 1] == data[..i] + [0];
      }
    }

    /** Pads up to where the length goes; `before` is what has been hashed by then. */
    method MarkEnd() returns (ghost before: Bytes)
      requires Valid()
      modifies this`state, data
      ensures |before| % 64 == 0 && state == HashBlocks(before)
      ensures Pad(msg) == before + (data[..56] + BigEndian(8 * |msg|, 8))
    {
      hide HashBlocks, Compress, Zeros, BigEndian, PadZeros, Pad;
      ghost var whole := |msg| - datalen;
      before := msg[..whole];
      if datalen < 56 {
        Mark(56);
        PadShort(msg, whole);
      } else {
        MarkLong();
        PadLong(msg, whole);
        ghost var block := msg[whole..] + [0x80] + Zeros(63 - datalen);
        HashMore(before, block);
        before := before + block;
      }
    }

    /** Ends the message. The total number of bits has to fit the counter. */
    method Final() returns (hash: Bytes)
      requires Valid() && 8 * |msg| < 0x1_0000_0000_0000_0000
      modifies this, data
      ensures hash == Hash(msg) && msg == old(msg)
    {
      hide HashBlocks, Compress, BigEndian, Digest, Pad, Wrap64;
      AllCounted(|msg|, datalen);
      ghost var before := MarkEnd();
      bitlen := Wrap64(bitlen + datalen * 8);
      PutLength();
      HashMore(before, data[..]);
      Transform();
      hash := Digest(state);
    }
  }

  /** Adding the bits of the last, open block gives the length of the message. */
  lemma AllCounted(n: nat, open: nat)
    requires open <= n && 8 * n < 0x1_0000_0000_0000_0000
    ensures Wrap64(Wrap64(8 * (n - open)) + open * 8) == 8 * n
  {}

  lemma ZerosStep(k: nat)
    ensures Zeros(k + 1) == Zeros(k) + [0] && Zeros(0) == []
  {}

  lemma {:induction false} HashMore(s: Bytes, block: Bytes)
    requires |s| % 64 == 0 && |block| == 64
    ensures (|s| + 64) % 64 == 0 && HashBlocks(s + block) == Compress(HashBlocks(s), block)
  {
    hide HashBlocks, Compress;
    HashStep(s + block, |s|);
    assert (s + block)[..|s|] == s && (s + block)[|s|..] == block;
  }

  /** One block ends a message whose last bytes leave room for the length. */
  lemma {:induction false} PadShort(msg: Bytes, whole: nat)
    requires whole <= |msg| < whole + 56 && whole % 64 == 0
    ensures Pad(msg) == msg[..whole]
      + ((msg[whole..] + [0x80] + Zeros(55 - (|msg| - whole))) + BigEndian(8 * |msg|, 8))
  {
    assert PadZeros(|msg|) == 55 - (|msg| - whole);
    hide PadZeros, Zeros, BigEndian;
  }

  /** Otherwise two blocks do. */
  lemma {:induction false} PadLong(msg: Bytes, whole: nat)
    requires whole + 56 <= |msg| < whole + 64 && whole % 64 == 0
    ensures Pad(msg) == (msg[..whole] + (msg[whole..] + [0x80] + Zeros(63 - (|msg| - whole))))
      + (Zeros(56) + BigEndian(8 * |msg|, 8))
  {
    var k := 63 - (|msg| - whole);
    assert PadZeros(|msg|) == k + 56;
    assert Zeros(k + 56) == Zeros(k) + Zeros(56);
    hide PadZeros, Zeros, BigEndian;
  }

  /** The bytes of a 64-bit number, most significant first. */
  lemma {:induction false} LengthBytes(v: nat)
    ensures BigEndian(v, 8) == [
      v / 0x100_0000_0000_0000 % 0x100, v / 0x1_0000_0000_0000 % 0x100, v / 0x100_0000_0000 % 0x100,
      v / 0x1_0000_0000 % 0x100, v / 0x100_0000 % 0x100, v / 0x1_0000 % 0x100, v / 0x100 % 0x100, v % 0x100]
  {
    var a := v / 0x100;
    var b := a / 0x100;
    var c := b / 0x100;
    var d := c / 0x100;
    var e := d / 0x100;
    var f := e / 0x100;
    var g := f / 0x100;
    assert b == v / 0x1_0000 && c == v / 0x100_0000 && d == v / 0x1_0000_0000;
    assert e == v / 0x100_0000_0000 && f == v / 0x1_0000_0000_0000 && g == v / 0x100_0000_0000_0000;
    assert BigEndian(g, 1) == [g % 0x100];
    assert BigEndian(f, 2) == BigEndian(g, 1) + [f % 0x100];
    assert BigEndian(e, 3) == BigEndian(f, 2) + [e % 0x100];
    assert BigEndian(d, 4) == BigEndian(e, 3) + [d % 0x100];
    assert BigEndian(c, 5) == BigEndian(d, 4) + [c % 0x100];
    assert BigEndian(b, 6) == BigEndian(c, 5) + [b % 0x100];
    assert BigEndian(a, 7) == BigEndian(b, 6) + [a % 0x100];
    assert BigEndian(v, 8) == BigEndian(a, 7) + [v % 0x100];
  }

  lemma ScheduleStep(block: Bytes, t: nat)
    requires |block| == 64
    ensures Schedule(block, t) ==
      if t < 16 then WordAt(block, t)
      else Plus(Plus(Plus(SmallSigma1(Schedule(block, t - 2)), Schedule(block, t - 7)),
                     SmallSigma0(Schedule(block, t - 15))), Schedule(block, t - 16))
  {}

  lemma RoundStep(v: Eight, block: Bytes, t: nat)
    requires |block| == 64 && t < 64
    ensures Rounds(v, block, t + 1) == Round(Rounds(v, block, t), K(t), Schedule(block, t))
    ensures Rounds(v, block, 0) == v
  {}

  lemma {:induction false} CompressIs(h: Eight, block: Bytes, v: Eight)
    requires |block| == 64 && v == Rounds(h, block, 64)
    ensures Compress(h, block) == AddEight(h, v)
  {
    hide Rounds;
  }

  lemma {:induction false} NothingHashed()
    ensures InStep([], [], Start(), 0)
  {
    hide Start;
  }

  lemma Appended(msg: Bytes, b: byte, full: nat)
    requires full <= |msg|
    ensures (msg + [b])[..full] == msg[..full] && (msg + [b])[full..] == msg[full..] + [b]
  {}

  /** One more block. */
  lemma HashStep(s: Bytes, full: nat)
    requires |s| == full + 64 && full % 64 == 0
    ensures HashBlocks(s) == Compress(HashBlocks(s[..full]), s[full..])
    ensures s[..|s|] == s && s[|s|..] == []
  {}

  lemma Counted(n: nat, k: nat)
    ensures Wrap64(Wrap64(n) + k) == Wrap64(n + k)
    ensures Wrap64(0) == 0
  {}

  /** However a message is cut into updates, the digest is that of the whole. */
  method HashMessage(pieces: seq<Bytes>) returns (hash: Bytes)
    requires forall i :: 0 <= i < |pieces| ==> |pieces[i]| < 0x1_0000_0000
    requires 8 * |Concat(pieces)| < 0x1_0000_0000_0000_0000
    ensures hash == Hash(Concat(pieces))
  {
    hide *;
    ConcatNone();
    var ctx := new Sha256Ctx();
    assert pieces[..0] == [];
    for i := 0 to |pieces|
      invariant ctx.Valid() && ctx.msg == Concat(pieces[..i]) && fresh(ctx) && fresh(ctx.data)
    {
      ConcatStep(pieces, i);
      ctx.Update(pieces[i]);
    }
    assert pieces[..|pieces|] == pieces;
    hash := ctx.Final();
  }

  lemma ConcatNone()
    ensures Concat([]) == []
  {}

  lemma {:induction false} ConcatStep(pieces: seq<Bytes>, i: nat)
    requires i < |pieces|
    ensures Concat(pieces[..i + 1]) == Concat(pieces[..i]) + pieces[i]
  {
    assert pieces[..i + 1][..i] == pieces[..i];
  }
}
