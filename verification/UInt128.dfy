/** 128-bit unsigned integers built from two machine words. */
module UInt128 {
  import opened Arithmetic
  const W32: nat := 0x1_0000_0000
  const W64: nat := 0x1_0000_0000_0000_0000
  const W128: nat := 0x1_0000_0000_0000_0000_0000_0000_0000_0000
  const W256: nat := W128 * W128

  type u64 = x: int | 0 <= x < 0x1_0000_0000_0000_0000

  datatype U128 = U128(upper: u64, lower: u64)

  function Val(x: U128): (v: nat)
    ensures v < W128
  {
    x.upper * W64 + x.lower
  }

  // ---------- words ----------

  lemma {:induction false} Pow2Words()
    ensures Pow2(8) == 0x100 && Pow2(32) == W32 && Pow2(64) == W64 && Pow2(128) == W128 && Pow2(256) == W256
  {
    assert Pow2(4) == 16;
    hide Pow2;
    Square(4, 16);
    Square(8, 0x100);
    Square(16, 0x1_0000);
    Square(32, W32);
    Square(64, W64);
    Square(128, W128);
  }

  function Add64(a: u64, b: u64): u64 {
    (a + b) % W64
  }

  function Sub64(a: u64, b: u64): u64 {
    (a - b) % W64
  }

  function Shl64(a: u64, s: nat): u64
    requires s < 64
  {
    (a * Pow2(s)) % W64
  }

  function Shr64(a: u64, s: nat): (r: u64)
    requires s < 64
  {
    Quotient(a, Pow2(s));
    a / Pow2(s)
  }

  /** Bitwise or. */
  function Or(a: nat, b: nat): nat {
    if a == 0 then b else if b == 0 then a
    else 2 * Or(a / 2, b / 2) + if a % 2 == 1 || b % 2 == 1 then 1 else 0
  }

  /** Joining bits that do not overlap adds them. */
  lemma {:induction false} OrDisjoint(a: nat, b: nat, k: nat)
    requires b < Pow2(k)
    ensures Or(a * Pow2(k), b) == a * Pow2(k) + b
  {
    if k > 0 && a * Pow2(k) != 0 && b != 0 {
      var h := Pow2(k - 1);
      assert a * Pow2(k) == 2 * (a * h);
      OrDisjoint(a, b / 2, k - 1);
    }
  }

  // ---------- 128 bits ----------

  function Add(a: U128, b: U128): U128 {
    U128(Add64(Add64(a.upper, b.upper), if Add64(a.lower, b.lower) < a.lower then 1 else 0), Add64(a.lower, b.lower))
  }

  function Sub(a: U128, b: U128): U128 {
    U128(Sub64(Sub64(a.upper, b.upper), if Sub64(a.lower, b.lower) > a.lower then 1 else 0), Sub64(a.lower, b.lower))
  }

  predicate Less(a: U128, b: U128) {
    if a.upper == b.upper then a.lower < b.lower else a.upper < b.upper
  }

  lemma LessMeans(a: U128, b: U128)
    ensures Less(a, b) <==> Val(a) < Val(b)
    ensures a == b <==> Val(a) == Val(b)
  {}

  lemma WordSums(a: u64, b: u64)
    ensures Add64(a, b) == if a + b >= W64 then a + b - W64 else a + b
    ensures Sub64(a, b) == if a < b then a - b + W64 else a - b
  {}

  /** The words of a sum, and what is carried out of each. */
  lemma {:induction false} AddWords(a: U128, b: U128) returns (c: nat, d: nat)
    ensures Add(a, b).lower == a.lower + b.lower - c * W64 && Add(a, b).upper == a.upper + b.upper + c - d * W64
  {
    c := if a.lower + b.lower >= W64 then 1 else 0;
    d := if a.upper + b.upper + c >= W64 then 1 else 0;
    WordSums(a.lower, b.lower);
    WordSums(a.upper, b.upper);
    WordSums(Add64(a.upper, b.upper), c);
    hide Add64;
  }

  lemma {:induction false} AddMeans(a: U128, b: U128)
    ensures Val(Add(a, b)) == (Val(a) + Val(b)) % W128
  {
    hide Add;
    var c, d := AddWords(a, b);
    ModIs(Val(a) + Val(b), W128, d, Val(Add(a, b)));
  }

  lemma {:induction false} SubWords(a: U128, b: U128) returns (c: nat, d: int)
    ensures Sub(a, b).lower == a.lower - b.lower + c * W64 && Sub(a, b).upper == a.upper - b.upper - c + d * W64
  {
    c := if a.lower < b.lower then 1 else 0;
    d := if a.upper - b.upper - c < 0 then 1 else 0;
    WordSums(a.lower, b.lower);
    WordSums(a.upper, b.upper);
    WordSums(Sub64(a.upper, b.upper), c);
    hide Sub64;
  }

  lemma {:induction false} SubMeans(a: U128, b: U128)
    ensures Val(Sub(a, b)) == (Val(a) - Val(b)) % W128
  {
    hide Sub;
    var c, d := SubWords(a, b);
    ModIs(Val(a) - Val(b), W128, -d, Val(Sub(a, b)));
  }

  /** A word shifted left by `p` splits into what leaves it and what stays. */
  lemma {:induction false} WordLeft(b: nat, p: nat, q: nat, x: nat)
    requires b == p * q && p > 0 && q > 0 && x < b
    ensures x * p == (x / q) * b + (x % q) * p && (x * p) % b == (x % q) * p
    ensures x / q < p && (x % q) * p <= b - p
  {
    Quotient(x, q);
    QuotientBound(x, p, q);
    var h, l := x / q, x % q;
    assert x * p == h * b + l * p by { assert (h * q + l) * p == h * (p * q) + l * p; }
    Scaled(l, p, q);
    ModIs(x * p, b, h, l * p);
  }

  /** Shifting a two-word number left: `p` is the shift and `p * q` the word size. */
  lemma {:induction false} ShiftLeft(b: nat, p: nat, q: nat, hi: nat, lo: nat)
    requires b == p * q && p > 0 && q > 0 && hi < b && lo < b
    ensures (hi * p) % b + lo / q < b
    ensures ((hi * p) % b + lo / q) * b + (lo * p) % b == ((hi * b + lo) * p) % (b * b)
  {
    WordLeft(b, p, q, hi);
    WordLeft(b, p, q, lo);
    LeftCompose(b, p, hi, lo, hi / q, (hi * p) % b, lo / q, (lo * p) % b);
  }

  lemma {:induction false} LeftCompose(b: nat, p: nat, hi: nat, lo: nat, h1: nat, h0: nat, l1: nat, l0: nat)
    requires hi * p == h1 * b + h0 && lo * p == l1 * b + l0 && h0 + l1 < b && l0 < b
    ensures (h0 + l1) * b + l0 == ((hi * b + lo) * p) % (b * b)
  {
    var r := (h0 + l1) * b + l0;
    LeftSum(b, p, hi, lo, h1, h0, l1, l0);
    Appended(b, b, h0 + l1, l0);
    ModIs((hi * b + lo) * p, b * b, h1, r);
  }

  lemma {:induction false} LeftSum(b: nat, p: nat, hi: nat, lo: nat, h1: nat, h0: nat, l1: nat, l0: nat)
    requires hi * p == h1 * b + h0 && lo * p == l1 * b + l0
    ensures (hi * b + lo) * p == h1 * (b * b) + ((h0 + l1) * b + l0)
  {
    Factor(hi, lo, b, p);
    Distribute(h1, h0, b);
    assert (h1 * b + h0) * b == h1 * (b * b) + h0 * b;
  }

  /** A multiple of `p` below `p * q` leaves room for one more below `p`. */
  lemma {:induction false} Scaled(x: nat, p: nat, q: nat)
    requires x < q && p > 0
    ensures x * p <= p * q - p
  {
    assert (x + 1) * p <= q * p;
  }

  lemma {:induction false} QuotientBound(x: nat, p: nat, q: nat)
    requires x < p * q && q > 0
    ensures x / q < p
  {
    Quotient(x, q);
    MulLe(p, x / q, q);
  }

  /** Shifting a two-word number right. */
  lemma {:induction false} ShiftRight(b: nat, p: nat, q: nat, hi: nat, lo: nat)
    requires b == p * q && p > 0 && q > 0 && hi < b && lo < b
    ensures (hi * q) % b + lo / p < b
    ensures (hi / p) * b + (hi * q) % b + lo / p == (hi * b + lo) / p
  {
    Quotient(hi, p);
    Quotient(lo, p);
    QuotientBound(lo, q, p);
    WordLeft(b, q, p, hi);
    RightCompose(b, p, q, hi, lo, hi / p, (hi * q) % b, lo / p, lo % p);
  }

  lemma {:induction false} RightCompose(b: nat, p: nat, q: nat, hi: nat, lo: nat, h1: nat, h0: nat, l1: nat, l0: nat)
    requires b == p * q && hi * q == h1 * b + h0 && lo == l1 * p + l0 && l0 < p
    ensures h1 * b + h0 + l1 == (hi * b + lo) / p
  {
    calc {
      hi * b + lo;
      (hi * q) * p + (l1 * p + l0);
      (h1 * b + h0) * p + (l1 * p + l0);
      (h1 * b + h0 + l1) * p + l0;
    }
    QuotientIs(hi * b + lo, p, h1 * b + h0 + l1, l0);
  }

  function Shl(a: U128, rhs: U128): U128 {
    var shift := rhs.lower;
    if rhs.upper != 0 || shift >= 128 then U128(0, 0)
    else if shift == 64 then U128(a.lower, 0)
    else if shift == 0 then a
    else if shift < 64 then
      U128(Add64(Shl64(a.upper, shift), Shr64(a.lower, 64 - shift)), Shl64(a.lower, shift))
    else U128(Shl64(a.lower, shift - 64), 0)
  }

  function Shr(a: U128, rhs: U128): U128 {
    var shift := rhs.lower;
    if rhs.upper != 0 || shift >= 128 then U128(0, 0)
    else if shift == 64 then U128(0, a.upper)
    else if shift == 0 then a
    else if shift < 64 then
      U128(Shr64(a.upper, shift), Add64(Shl64(a.upper, 64 - shift), Shr64(a.lower, shift)))
    else U128(0, Shr64(a.upper, shift - 64))
  }

  lemma {:induction false} SplitWord(s: nat)
    requires 0 < s < 64
    ensures W64 == Pow2(s) * Pow2(64 - s) && W128 == W64 * W64
  {
    Pow2Words();
    Pow2Add(s, 64 - s);
  }

  /** Doubling `n` times a number that fits leaves nothing when `n` is the width. */
  lemma {:induction false} ShiftedOut(v: nat, n: nat, s: nat)
    requires s >= n
    ensures (v * Pow2(s)) % Pow2(n) == 0
    ensures v < Pow2(n) ==> v / Pow2(s) == 0
  {
    Pow2Add(s - n, n);
    var k := Pow2(s - n);
    assert v * Pow2(s) == (v * k) * Pow2(n) + 0;
    ModIs(v * Pow2(s), Pow2(n), v * k, 0);
    MulLe(1, k, Pow2(n));
    if v < Pow2(n) { QuotientIs(v, Pow2(s), 0, v); }
  }

  ghost predicate ShlOk(a: U128, rhs: U128) {
    Val(Shl(a, rhs)) == (Val(a) * Pow2(Val(rhs))) % W128
  }

  lemma {:induction false} ShlMeans(a: U128, rhs: U128)
    ensures ShlOk(a, rhs)
  {
    hide *;
    var s := Val(rhs);
    if s >= 128 {
      ShlFar(a, rhs);
    } else if s > 64 {
      ShlOver(a, rhs);
    } else if s == 64 {
      ShlWord(a, rhs);
    } else if s == 0 {
      ShlNone(a, rhs);
    } else {
      ShlNear(a, rhs);
    }
  }

  lemma {:induction false} ShlFar(a: U128, rhs: U128)
    requires Val(rhs) >= 128
    ensures ShlOk(a, rhs)
  {
    hide Pow2;
    Pow2Words();
    ShiftedOut(Val(a), 128, Val(rhs));
  }

  lemma {:induction false} ShlOver(a: U128, rhs: U128)
    requires 64 < Val(rhs) < 128
    ensures ShlOk(a, rhs)
  {
    hide Pow2;
    Pow2Words();
    Pow2Add(rhs.lower - 64, 64);
    LeftOver(W64, Pow2(rhs.lower - 64), a.upper, a.lower);
  }

  lemma {:induction false} ShlWord(a: U128, rhs: U128)
    requires Val(rhs) == 64
    ensures ShlOk(a, rhs)
  {
    hide Pow2;
    Pow2Words();
    ModIs(Val(a) * W64, W128, a.upper, a.lower * W64);
  }

  lemma {:induction false} ShlNone(a: U128, rhs: U128)
    requires Val(rhs) == 0
    ensures ShlOk(a, rhs)
  {
    Pow2Zero();
    ModIs(Val(a), W128, 0, Val(a));
  }

  lemma {:induction false} ShlNear(a: U128, rhs: U128)
    requires 0 < Val(rhs) < 64
    ensures ShlOk(a, rhs)
  {
    hide Pow2;
    var s := rhs.lower;
    SplitWord(s);
    ShiftLeft(W64, Pow2(s), Pow2(64 - s), a.upper, a.lower);
    WordSums(Shl64(a.upper, s), Shr64(a.lower, 64 - s));
  }

  /** Shifting left by more than a word: only the low word's low bits stay. */
  lemma {:induction false} LeftOver(b: nat, p: nat, hi: nat, lo: nat)
    requires b > 0 && lo < b
    ensures ((lo * p) % b) * b == ((hi * b + lo) * (p * b)) % (b * b)
  {
    Quotient(lo * p, b);
    LeftOverParts(b, p, hi, lo, (lo * p) / b, (lo * p) % b);
  }

  lemma {:induction false} LeftOverParts(b: nat, p: nat, hi: nat, lo: nat, h: nat, l: nat)
    requires b > 0 && lo * p == h * b + l && l < b
    ensures l * b == ((hi * b + lo) * (p * b)) % (b * b)
  {
    LeftOverSum(b, p, hi, lo, h, l);
    LeftOverMod(b, (hi * b + lo) * (p * b), hi * p + h, l);
  }

  lemma {:induction false} LeftOverMod(b: nat, x: nat, k: nat, l: nat)
    requires b > 0 && x == k * (b * b) + l * b && l < b
    ensures x % (b * b) == l * b
  {
    MulLe(l + 1, b, b);
    ModIs(x, b * b, k, l * b);
  }

  lemma {:induction false} LeftOverSum(b: nat, p: nat, hi: nat, lo: nat, h: nat, l: nat)
    requires lo * p == h * b + l
    ensures (hi * b + lo) * (p * b) == (hi * p + h) * (b * b) + l * b
  {
    var n := hi * p;
    assert (hi * b + lo) * p == n * b + (h * b + l);
    assert (hi * b + lo) * p == (n + h) * b + l;
    assert (hi * b + lo) * (p * b) == ((hi * b + lo) * p) * b;
    Distribute(n + h, l, b);
  }

  lemma Distribute(x: nat, l: nat, b: nat)
    ensures (x * b + l) * b == x * (b * b) + l * b
  {}

  /** Shifting right by more than a word. */
  lemma {:induction false} RightOver(b: nat, p: nat, hi: nat, lo: nat)
    requires b > 0 && p > 0 && lo < b
    ensures p * b > 0 && hi / p == (hi * b + lo) / (p * b)
  {
    Quotient(hi, p);
    var h, l := hi / p, hi % p;
    assert hi * b + lo == h * (p * b) + (l * b + lo) by {
      assert (h * p + l) * b == h * (p * b) + l * b;
    }
    MulLe(l + 1, p, b);
    assert l * b + lo < p * b;
    QuotientIs(hi * b + lo, p * b, h, l * b + lo);
  }

  ghost predicate ShrOk(a: U128, rhs: U128) {
    Val(Shr(a, rhs)) == Val(a) / Pow2(Val(rhs))
  }

  lemma {:induction false} ShrMeans(a: U128, rhs: U128)
    ensures ShrOk(a, rhs)
  {
    hide *;
    var s := Val(rhs);
    if s >= 128 {
      ShrFar(a, rhs);
    } else if s > 64 {
      ShrOver(a, rhs);
    } else if s == 64 {
      ShrWord(a, rhs);
    } else if s == 0 {
      ShrNone(a, rhs);
    } else {
      ShrNear(a, rhs);
    }
  }

  lemma {:induction false} ShrFar(a: U128, rhs: U128)
    requires Val(rhs) >= 128
    ensures ShrOk(a, rhs)
  {
    hide Pow2;
    Pow2Words();
    ShiftedOut(Val(a), 128, Val(rhs));
  }

  lemma {:induction false} ShrOver(a: U128, rhs: U128)
    requires 64 < Val(rhs) < 128
    ensures ShrOk(a, rhs)
  {
    hide Pow2;
    Pow2Words();
    Pow2Add(rhs.lower - 64, 64);
    RightOver(W64, Pow2(rhs.lower - 64), a.upper, a.lower);
  }

  lemma {:induction false} ShrWord(a: U128, rhs: U128)
    requires Val(rhs) == 64
    ensures ShrOk(a, rhs)
  {
    hide Pow2;
    Pow2Words();
    QuotientIs(Val(a), W64, a.upper, a.lower);
  }

  lemma {:induction false} ShrNone(a: U128, rhs: U128)
    requires Val(rhs) == 0
    ensures ShrOk(a, rhs)
  {
    Pow2Zero();
  }

  lemma {:induction false} ShrNear(a: U128, rhs: U128)
    requires 0 < Val(rhs) < 64
    ensures ShrOk(a, rhs)
  {
    hide Pow2;
    var s := rhs.lower;
    SplitWord(s);
    ShiftRight(W64, Pow2(s), Pow2(64 - s), a.upper, a.lower);
    WordSums(Shl64(a.upper, 64 - s), Shr64(a.lower, s));
  }

  // ---------- machine operands ----------

  /** A machine integer of either sign, up to 64 bits wide. */
  type Machine = t: int | -0x8000_0000_0000_0000 <= t < 0x1_0000_0000_0000_0000

  /** A machine integer as a 128-bit one: the low word takes it and its sign goes no
      further. */
  function FromInt(t: Machine): U128 {
    U128(0, t % W64)
  }

  function AddInt(a: U128, t: Machine): U128 {
    var w := t % W64;
    U128(Add64(a.upper, if Add64(a.lower, w) < a.lower then 1 else 0), Add64(a.lower, w))
  }

  function SubInt(a: U128, t: Machine): U128 {
    var w := t % W64;
    U128(Sub64(a.upper, if Sub64(a.lower, w) > a.lower then 1 else 0), Sub64(a.lower, w))
  }

  /** The value a machine integer turns into; a negative one is out by one word. */
  lemma {:induction false} FromIntMeans(t: Machine)
    ensures Val(FromInt(t)) == if t < 0 then t + W64 else t
  {
    ModIs(t, W64, if t < 0 then -1 else 0, if t < 0 then t + W64 else t);
  }

  /** Adding or subtracting a machine integer does what it says exactly when the
      integer is not negative. */
  lemma {:induction false} MachineMeans(a: U128, t: Machine)
    ensures AddInt(a, t) == Add(a, FromInt(t)) && SubInt(a, t) == Sub(a, FromInt(t))
    ensures Val(AddInt(a, t)) == (Val(a) + t) % W128 <==> t >= 0
    ensures Val(SubInt(a, t)) == (Val(a) - t) % W128 <==> t >= 0
  {
    FromIntMeans(t);
    AddMeans(a, FromInt(t));
    SubMeans(a, FromInt(t));
    WordSums(a.upper, 0);
    assert AddInt(a, t) == Add(a, FromInt(t)) && SubInt(a, t) == Sub(a, FromInt(t));
    hide Add, Sub, AddInt, SubInt, FromInt, Val;
    if t < 0 {
      OffByWord(Val(a) + t);
      OffByWord(Val(a) - t - W64);
    }
  }

  /** Numbers a word apart differ below 2 to the 128. */
  lemma OffByWord(x: int)
    ensures (x + W64) % W128 != x % W128
  {}

  // ---------- products, digit by digit ----------

  /** A number with four digits to base `e`. */
  function Digits(e: nat, a: nat, b: nat, c: nat, d: nat): nat {
    ((a * e + b) * e + c) * e + d
  }

  /** Base `e` to the fourth: what a product is reduced by. */
  function Fourth(e: nat): nat {
    e * e * e * e
  }

  lemma Merge(e: nat, x: nat, y: nat, u: nat, v: nat)
    ensures (x * e + y) + (u * e + v) == (x + u) * e + (y + v)
  {}

  lemma {:induction false} AddDigits(e: nat, a: nat, b: nat, c: nat, d: nat, a': nat, b': nat, c': nat, d': nat)
    ensures Digits(e, a, b, c, d) + Digits(e, a', b', c', d') == Digits(e, a + a', b + b', c + c', d + d')
  {
    Merge(e, a, b, a', b');
    Merge(e, a * e + b, c, a' * e + b', c');
    Merge(e, (a * e + b) * e + c, d, (a' * e + b') * e + c', d');
  }

  lemma {:induction false} ScaleDigits(e: nat, a: nat, b: nat, c: nat, d: nat, m: nat)
    ensures Digits(e, a, b, c, d) * m == Digits(e, a * m, b * m, c * m, d * m)
  {
    Factor(a, b, e, m);
    Factor(a * e + b, c, e, m);
    Factor((a * e + b) * e + c, d, e, m);
  }

  lemma Lift(e: nat, top: nat, x: nat, d: nat)
    ensures (top + x) * e + d == top * e + (x * e + d)
  {}

  lemma {:induction false} TimesFourth(e: nat, a: nat)
    ensures a * e * e * e * e == a * Fourth(e)
  {
    assert a * e * e == a * (e * e);
    var s := e * e;
    assert a * s * e == a * (s * e);
    var c := s * e;
    assert a * c * e == a * (c * e);
  }

  /** Moving up one place drops the top digit out of the four. */
  lemma {:induction false} MoveUp(e: nat, a: nat, b: nat, c: nat, d: nat)
    ensures Digits(e, a, b, c, d) * e == a * Fourth(e) + Digits(e, b, c, d, 0)
  {
    TimesFourth(e, a);
    hide Fourth;
    Lift(e, a * e, b, c);
    Lift(e, a * e * e, b * e + c, d);
    Lift(e, a * e * e * e, (b * e + c) * e + d, 0);
  }

  /** One more row of a product: what is above the four digits is a multiple of
      their range. */
  lemma {:induction false} AddRow(e: nat, k: nat, acc: nat, a: nat, b: nat, c: nat, d: nat,
                                  row: nat, a': nat, b': nat, c': nat, d': nat)
    requires acc == k * Fourth(e) + Digits(e, a, b, c, d)
    requires row == Digits(e, a', b', c', d')
    ensures acc * e + row == (k * e + a) * Fourth(e) + Digits(e, b + a', c + b', d + c', d')
  {
    hide Fourth, Digits;
    MoveUp(e, a, b, c, d);
    AddDigits(e, b, c, d, 0, a', b', c', d');
    MoveRow(e, k, Fourth(e), Digits(e, a, b, c, d), a, Digits(e, b, c, d, 0));
  }

  lemma {:induction false} MoveRow(e: nat, k: nat, f: nat, n: nat, a: nat, m: nat)
    requires n * e == a * f + m
    ensures (k * f + n) * e == (k * e + a) * f + m
  {
    Factor(k, n, f, e);
    Factor(1, a, k * e, f);
  }

  /** The product of two four-digit numbers, up to a multiple of the range. */
  lemma {:induction false} ProductDigits(e: nat, a0: nat, a1: nat, a2: nat, a3: nat, b0: nat, b1: nat, b2: nat, b3: nat)
    returns (k: nat)
    ensures Digits(e, a0, a1, a2, a3) * Digits(e, b0, b1, b2, b3)
      == k * Fourth(e) + Digits(e, a3 * b0 + a2 * b1 + a1 * b2 + a0 * b3, a3 * b1 + a2 * b2 + a1 * b3,
                                a3 * b2 + a2 * b3, a3 * b3)
  {
    var n := Digits(e, a0, a1, a2, a3);
    ScaleDigits(e, a0, a1, a2, a3, b0);
    ScaleDigits(e, a0, a1, a2, a3, b1);
    ScaleDigits(e, a0, a1, a2, a3, b2);
    ScaleDigits(e, a0, a1, a2, a3, b3);
    Horner(n, e, b0, b1, b2, b3);
    hide Digits, Fourth;
    var k1 := a0 * b0;
    AddRow(e, 0, n * b0, a0 * b0, a1 * b0, a2 * b0, a3 * b0, n * b1, a0 * b1, a1 * b1, a2 * b1, a3 * b1);
    var acc1 := (n * b0) * e + n * b1;
    var k2 := (0 * e + a0 * b0) * e + (a1 * b0 + a0 * b1);
    AddRow(e, 0 * e + a0 * b0, acc1, a1 * b0 + a0 * b1, a2 * b0 + a1 * b1, a3 * b0 + a2 * b1, a3 * b1,
           n * b2, a0 * b2, a1 * b2, a2 * b2, a3 * b2);
    var acc2 := acc1 * e + n * b2;
    AddRow(e, k2, acc2, a2 * b0 + a1 * b1 + a0 * b2, a3 * b0 + a2 * b1 + a1 * b2, a3 * b1 + a2 * b2, a3 * b2,
           n * b3, a0 * b3, a1 * b3, a2 * b3, a3 * b3);
    k := k2 * e + (a2 * b0 + a1 * b1 + a0 * b2);
  }

  lemma {:induction false} Horner(n: nat, e: nat, b0: nat, b1: nat, b2: nat, b3: nat)
    ensures n * Digits(e, b0, b1, b2, b3) == (((n * b0) * e + n * b1) * e + n * b2) * e + n * b3
  {
    ScaleDigits(e, b0, b1, b2, b3, n);
  }

  /** Carrying the high part of a digit. */
  lemma {:induction false} CarryDigits(e: nat, a: nat, b: nat, c: nat, d: nat, x: nat)
    ensures Digits(e, a, b, c, x * e + d) == Digits(e, a, b, c + x, d)
    ensures Digits(e, a, b, x * e + c, d) == Digits(e, a, b + x, c, d)
    ensures Digits(e, a, x * e + b, c, d) == Digits(e, a + x, b, c, d)
    ensures Digits(e, x * e + a, b, c, d) == x * Fourth(e) + Digits(e, a, b, c, d)
  {
    Factor(x, a, e, e);
    MoveUp(e, x, a, b, c);
    assert Digits(e, x, a, b, c) * e + d == x * Fourth(e) + Digits(e, a, b, c, d);
  }

  /** Digits below `e` make a number below the range. */
  lemma {:induction false} DigitsBound(e: nat, a: nat, b: nat, c: nat, d: nat)
    requires a < e && b < e && c < e && d < e
    ensures Digits(e, a, b, c, d) < Fourth(e)
  {
    Appended(e, e, a, b);
    Appended(e, e * e, a * e + b, c);
    Appended(e, e * e * e, (a * e + b) * e + c, d);
  }

  lemma {:induction false} Appended(e: nat, m: nat, x: nat, d: nat)
    requires x < m && d < e
    ensures x * e + d < m * e
  {
    MulLe(x + 1, m, e);
  }

  function Low(p: nat, e: nat): nat
    requires e > 0
  {
    p % e
  }

  function High(p: nat, e: nat): nat
    requires e > 0
  {
    p / e
  }

  lemma {:induction false} HighLow(p: nat, e: nat)
    requires e > 0
    ensures p == High(p, e) * e + Low(p, e) && Low(p, e) < e
  {
    Quotient(p, e);
  }

  /** The columns of a product, its single products cut into high and low parts. */
  datatype Columns = Columns(first: nat, second: nat, third: nat, fourth: nat)

  function ColumnsOf(e: nat, a: seq<nat>, b: seq<nat>): Columns
    requires e > 0 && |a| == |b| == 4
  {
    Columns(
      Low(a[3] * b[0], e) + High(a[3] * b[1], e) + Low(a[2] * b[1], e) + High(a[2] * b[2], e)
        + Low(a[1] * b[2], e) + High(a[1] * b[3], e) + Low(a[0] * b[3], e),
      Low(a[3] * b[1], e) + High(a[3] * b[2], e) + Low(a[2] * b[2], e) + High(a[2] * b[3], e) + Low(a[1] * b[3], e),
      Low(a[3] * b[2], e) + High(a[3] * b[3], e) + Low(a[2] * b[3], e),
      Low(a[3] * b[3], e))
  }

  /** The columns make up the product, up to a multiple of the range. */
  lemma {:induction false} ColumnsMean(e: nat, a: seq<nat>, b: seq<nat>) returns (k: nat)
    requires e > 0 && |a| == |b| == 4
    ensures Digits(e, a[0], a[1], a[2], a[3]) * Digits(e, b[0], b[1], b[2], b[3])
      == k * Fourth(e) + DigitsOf(e, ColumnsOf(e, a, b))
  {
    k := ProductDigits(e, a[0], a[1], a[2], a[3], b[0], b[1], b[2], b[3]);
    var x := CutProducts(e, a[3] * b[0], a[2] * b[1], a[1] * b[2], a[0] * b[3], a[3] * b[1], a[2] * b[2], a[1] * b[3],
                         a[3] * b[2], a[2] * b[3], a[3] * b[3]);
    Factor(k, x, 1, Fourth(e));
    k := k + x;
  }

  lemma {:induction false} CutProducts(e: nat, p30: nat, p21: nat, p12: nat, p03: nat, p31: nat, p22: nat, p13: nat,
                                       p32: nat, p23: nat, p33: nat) returns (k: nat)
    requires e > 0
    ensures Digits(e, p30 + p21 + p12 + p03, p31 + p22 + p13, p32 + p23, p33) == k * Fourth(e)
      + Digits(e, Low(p30, e) + High(p31, e) + Low(p21, e) + High(p22, e) + Low(p12, e) + High(p13, e) + Low(p03, e),
               Low(p31, e) + High(p32, e) + Low(p22, e) + High(p23, e) + Low(p13, e),
               Low(p32, e) + High(p33, e) + Low(p23, e), Low(p33, e))
  {
    var d, h3 := Cut(e, p33, 0, 0, 0);
    var c, h2 := Cut(e, p32, p23, 0, 0);
    var b, h1 := Cut(e, p31, p22, p13, 0);
    var a, h0 := Cut(e, p30, p21, p12, p03);
    k := h0;
    hide Digits, Fourth, High, Low;
    CarryDigits(e, h0 * e + a, h1 * e + b, h2 * e + c, d, h3);
    CarryDigits(e, h0 * e + a, h1 * e + b, c + h3, d, h2);
    assert h2 * e + c + h3 == h2 * e + (c + h3);
    CarryDigits(e, h0 * e + a, b + h2, c + h3, d, h1);
    assert h1 * e + b + h2 == h1 * e + (b + h2);
    CarryDigits(e, a + h1, b + h2, c + h3, d, h0);
    assert h0 * e + a + h1 == h0 * e + (a + h1);
  }

  /** A sum of products, as its low parts and its high parts. */
  lemma {:induction false} Cut(e: nat, p: nat, q: nat, r: nat, s: nat) returns (low: nat, high: nat)
    requires e > 0
    ensures low == Low(p, e) + Low(q, e) + Low(r, e) + Low(s, e)
    ensures high == High(p, e) + High(q, e) + High(r, e) + High(s, e)
    ensures p + q + r + s == high * e + low
  {
    HighLow(p, e);
    HighLow(q, e);
    HighLow(r, e);
    HighLow(s, e);
    hide High, Low;
    low, high := Low(p, e) + Low(q, e) + Low(r, e) + Low(s, e), High(p, e) + High(q, e) + High(r, e) + High(s, e);
    assert (High(p, e) + High(q, e) + High(r, e) + High(s, e)) * e
        == High(p, e) * e + High(q, e) * e + High(r, e) * e + High(s, e) * e;
  }

  /** The columns after carrying from the low ones up and masking each. */
  function Carried(e: nat, c: Columns): Columns
    requires e > 0
  {
    var third := c.third + High(c.fourth, e);
    var second := c.second + High(third, e);
    Columns(Low(c.first + High(second, e), e), Low(second, e), Low(third, e), Low(c.fourth, e))
  }

  function DigitsOf(e: nat, c: Columns): nat {
    Digits(e, c.first, c.second, c.third, c.fourth)
  }

  /** Carrying leaves digits below `e` and takes away a multiple of the range. */
  lemma {:induction false} CarriedDigits(e: nat, c: Columns) returns (k: nat)
    requires e > 0
    ensures DigitsOf(e, Carried(e, c)) < Fourth(e)
    ensures DigitsOf(e, c) == k * Fourth(e) + DigitsOf(e, Carried(e, c))
  {
    var third := c.third + High(c.fourth, e);
    var second := c.second + High(third, e);
    var first := c.first + High(second, e);
    HighLow(c.fourth, e);
    HighLow(third, e);
    HighLow(second, e);
    HighLow(first, e);
    hide High, Low;
    DigitsBound(e, Low(first, e), Low(second, e), Low(third, e), Low(c.fourth, e));
    hide Digits, Fourth;
    CarryOut(e, c.first, c.second, c.third, c.fourth);
    CarryOut(e, c.first, c.second, third, Low(c.fourth, e));
    CarryOut(e, c.first, second, Low(third, e), Low(c.fourth, e));
    CarryOut(e, first, Low(second, e), Low(third, e), Low(c.fourth, e));
    k := High(first, e);
  }

  lemma {:induction false} CarryOut(e: nat, a: nat, b: nat, c: nat, d: nat)
    requires e > 0
    ensures Digits(e, a, b, c, d) == Digits(e, a, b, c + High(d, e), Low(d, e))
    ensures Digits(e, a, b, c, d) == Digits(e, a, b + High(c, e), Low(c, e), d)
    ensures Digits(e, a, b, c, d) == Digits(e, a + High(b, e), Low(b, e), c, d)
    ensures Digits(e, a, b, c, d) == High(a, e) * Fourth(e) + Digits(e, Low(a, e), b, c, d)
  {
    HighLow(a, e);
    HighLow(b, e);
    HighLow(c, e);
    HighLow(d, e);
    hide Digits, Fourth, High, Low;
    CarryDigits(e, a, b, c, Low(d, e), High(d, e));
    CarryDigits(e, a, b, Low(c, e), d, High(c, e));
    CarryDigits(e, a, Low(b, e), c, d, High(b, e));
    CarryDigits(e, Low(a, e), b, c, d, High(a, e));
  }

  // ---------- 128-bit multiplication ----------

  function Limbs(x: U128): (s: seq<u64>)
    ensures |s| == 4 && forall i :: 0 <= i < 4 ==> s[i] < W32
  {
    [x.upper / W32, x.upper % W32, x.lower / W32, x.lower % W32]
  }

  lemma LimbsMean(x: U128)
    ensures var l := Limbs(x); Val(x) == Digits(W32, l[0], l[1], l[2], l[3])
    ensures Fourth(W32) == W128 && Fourth(W64) == W256
  {}

  function Times(a: nat, b: nat): nat {
    a * b
  }

  /** All single products, each below the word size. */
  method Products(top: seq<u64>, bottom: seq<u64>) returns (products: array2<u64>)
    requires |top| == |bottom| == 4 && forall i :: 0 <= i < 4 ==> top[i] < W32 && bottom[i] < W32
    ensures fresh(products) && products.Length0 == products.Length1 == 4
    ensures forall k, y :: 0 <= k < 4 && 0 <= y < 4 ==> products[k, y] == Times(top[3 - k], bottom[y])
  {
    hide Times;
    products := new u64[4, 4];
    for y := 4 downto 0
      invariant forall k, j :: 0 <= k < 4 && y <= j < 4 ==> products[k, j] == Times(top[3 - k], bottom[j])
    {
      for x := 4 downto 0
        invariant forall k, j :: 0 <= k < 4 && y < j < 4 ==> products[k, j] == Times(top[3 - k], bottom[j])
        invariant forall k :: 0 <= k < 4 - x ==> products[k, y] == Times(top[3 - k], bottom[y])
      {
        SmallProduct(top[x], bottom[y]);
        products[3 - x, y] := Times(top[x], bottom[y]);
      }
    }
  }

  lemma {:induction false} SmallProduct(a: nat, b: nat)
    requires a < W32 && b < W32
    ensures Times(a, b) < W64
  {
    MulLe(a, W32 - 1, b);
  }

  method Mul(a: U128, b: U128) returns (r: U128)
    ensures Val(r) == (Val(a) * Val(b)) % W128
  {
    hide Val, Limbs, Digits;
    var products := Products(Limbs(a), Limbs(b));
    var c := SumColumns(Limbs(a), Limbs(b), products);
    ProductMeans(a, b, c);
    r := Carry(c);
  }

  /** Sums the columns of the table in machine words: no sum wraps. */
  method SumColumns(ghost top: seq<u64>, ghost bottom: seq<u64>, products: array2<u64>) returns (c: Columns)
    requires |top| == |bottom| == 4 && products.Length0 == products.Length1 == 4
    requires forall k, y :: 0 <= k < 4 && 0 <= y < 4 ==> products[k, y] == Times(top[3 - k], bottom[y])
    ensures c == ColumnsOf(W32, top, bottom)
    ensures c.first < 8 * W32 && c.second < 8 * W32 && c.third < 8 * W32 && c.fourth < W32
  {
    var fourth32: u64 := products[0, 3] % W32;
    var third32: u64 := products[0, 2] % W32 + products[0, 3] / W32;
    var second32: u64 := products[0, 1] % W32 + products[0, 2] / W32;
    var first32: u64 := products[0, 0] % W32 + products[0, 1] / W32;

    third32 := third32 + products[1, 3] % W32;
    second32 := second32 + products[1, 2] % W32 + products[1, 3] / W32;
    first32 := first32 + products[1, 1] % W32 + products[1, 2] / W32;

    second32 := second32 + products[2, 3] % W32;
    first32 := first32 + products[2, 2] % W32 + products[2, 3] / W32;

    first32 := first32 + products[3, 3] % W32;
    c := Columns(first32, second32, third32, fourth32);
  }

  /** Moves carries up, masks each column and joins them. */
  method Carry(c: Columns) returns (r: U128)
    requires c.first < 8 * W32 && c.second < 8 * W32 && c.third < 8 * W32 && c.fourth < W32
    ensures Val(r) == DigitsOf(W32, Carried(W32, c))
  {
    hide Val, Digits;
    var third32: u64 := c.third + c.fourth / W32;
    var second32: u64 := c.second + third32 / W32;
    var first32: u64 := c.first + second32 / W32;
    r := Combined(first32 % W32, second32 % W32, third32 % W32, c.fourth % W32);
  }

  lemma {:induction false} ProductMeans(a: U128, b: U128, c: Columns)
    requires c == ColumnsOf(W32, Limbs(a), Limbs(b))
    ensures (Val(a) * Val(b)) % W128 == DigitsOf(W32, Carried(W32, c))
  {
    hide Val, Limbs, ColumnsOf, Digits, DigitsOf, Carried;
    var k := ColumnsMean(W32, Limbs(a), Limbs(b));
    var j := CarriedDigits(W32, c);
    LimbsMean(a);
    LimbsMean(b);
    hide Fourth;
    TwiceReduced(Val(a) * Val(b), k, j, W128, DigitsOf(W32, Carried(W32, c)));
  }

  lemma {:induction false} TwiceReduced(x: nat, k: nat, j: nat, m: nat, r: nat)
    requires x == k * m + (j * m + r) && r < m
    ensures x % m == r
  {
    Factor(k, j, m, 1);
    assert (k + j) * m == k * m + j * m;
    ModIs(x, m, k + j, r);
  }

  /** Four masked 32-bit digits, joined in pairs. */
  function Combined(first: u64, second: u64, third: u64, fourth: u64): (r: U128)
    requires first < W32 && second < W32 && third < W32 && fourth < W32
    ensures Val(r) == Digits(W32, first, second, third, fourth)
  {
    Pow2Words();
    OrDisjoint(first, second, 32);
    OrDisjoint(third, fourth, 32);
    U128(Or(first * W32, second), Or(third * W32, fourth))
  }

  // ---------- bit lengths ----------

  function BitLen(v: nat): nat {
    if v == 0 then 0 else 1 + BitLen(v / 2)
  }

  lemma {:induction false} BitLenMeans(v: nat)
    requires v > 0
    ensures BitLen(v) > 0 && Pow2(BitLen(v) - 1) <= v < Pow2(BitLen(v))
  {
    if v > 1 { BitLenMeans(v / 2); } else { assert BitLen(0) == 0 && Pow2(1) == 2; }
  }

  lemma {:induction false} BitLenDouble(x: nat, lo: nat)
    requires x > 0
    ensures BitLen(2 * x + lo) == 1 + BitLen(x + lo / 2)
  {
    assert (2 * x + lo) / 2 == x + lo / 2;
  }

  /** A number above a word is as long as its high part and the word. */
  lemma {:induction false} BitLenHigh(hi: nat, lo: nat, k: nat)
    requires hi > 0 && lo < Pow2(k)
    ensures BitLen(hi * Pow2(k) + lo) == BitLen(hi) + k
  {
    hide BitLen;
    if k > 0 {
      var h := Pow2(k - 1);
      var x := hi * h;
      assert hi * Pow2(k) == 2 * x;
      MulLe(1, hi, h);
      BitLenHigh(hi, lo / 2, k - 1);
      hide Pow2;
      BitLenDouble(x, lo);
    }
  }

  method Bits(x: U128) returns (out: nat)
    ensures out == BitLen(Val(x))
  {
    hide BitLen, Pow2;
    out := 0;
    var w := x.lower;
    if x.upper != 0 {
      out := 64;
      w := x.upper;
      Pow2Words();
      BitLenHigh(x.upper, x.lower, 64);
    }
    while w != 0
      invariant out + BitLen(w) == BitLen(Val(x))
    {
      BitLenStep(w);
      w := w / 2;
      out := out + 1;
    }
    BitLenStep(w);
  }

  lemma BitLenStep(v: nat)
    ensures BitLen(v) == if v == 0 then 0 else 1 + BitLen(v / 2)
  {}

  // ---------- 128-bit division ----------

  datatype Division<T> = Quotients(q: T, r: T) | DivisionByZero

  const ZERO := U128(0, 0)
  const ONE := U128(0, 1)

  /** A quotient and remainder, with values as given. */
  ghost predicate Divides(n: nat, d: nat, q: nat, r: nat) {
    n == q * d + r && r < d
  }

  lemma {:induction false} DividesUnique(n: nat, d: nat, q: nat, r: nat)
    requires Divides(n, d, q, r)
    ensures q == n / d && r == n % d
  {
    QuotientIs(n, d, q, r);
    ModIs(n, d, q, r);
  }

  /** The leading bits of `v`, all but the last `x`. */
  function Prefix(v: nat, x: nat): nat {
    Quotient(v, Pow2(x));
    v / Pow2(x)
  }

  lemma {:induction false} PrefixStep(v: nat, x: nat)
    requires x > 0
    ensures Prefix(v, x - 1) == 2 * Prefix(v, x) + Prefix(v, x - 1) % 2
    ensures Prefix(v, x - 1) <= v
  {
    var p := Pow2(x - 1);
    Quotient(v, p);
    var w := v / p;
    Quotient(w, 2);
    PrefixHalf(v, p, w / 2, w % 2, v % p);
  }

  lemma {:induction false} PrefixHalf(v: nat, p: nat, h: nat, bit: nat, low: nat)
    requires v == (2 * h + bit) * p + low && low < p && bit < 2
    ensures v / (2 * p) == h
  {
    MulLe(bit, 1, p);
    assert v == h * (2 * p) + (bit * p + low);
    QuotientIs(v, 2 * p, h, bit * p + low);
  }

  /** Bringing one more bit down. */
  lemma {:induction false} BringDown(n: nat, d: nat, q: nat, r: nat, bit: nat)
    requires Divides(n, d, q, r) && bit < 2
    ensures var r' := 2 * r + bit;
      && r' <= 2 * n + bit && 2 * q <= 2 * n + bit
      && if r' >= d then Divides(2 * n + bit, d, 2 * q + 1, r' - d) && 2 * q + 1 <= 2 * n + bit
         else Divides(2 * n + bit, d, 2 * q, r')
  {
    MulLe(1, d, q);
    MulLe(1, d, 2 * q + 1);
  }

  /** Doubling and adding below the range, without wrapping. */
  lemma {:induction false} SmallSteps(a: U128)
    ensures 2 * Val(a) < W128 ==> Val(Shl(a, ONE)) == 2 * Val(a)
    ensures Val(a) + 1 < W128 ==> Val(Add(a, ONE)) == Val(a) + 1
    ensures Val(Shr(a, ONE)) == Val(a) / 2
  {
    ShlMeans(a, ONE);
    ShrMeans(a, ONE);
    AddMeans(a, ONE);
    Pow2One();
    hide Shl, Shr, Add, Pow2;
    assert Val(ONE) == 1;
    hide Val;
    SmallMod(Val(a) * 2);
    SmallMod(Val(a) + 1);
  }

  lemma SmallMod(v: nat)
    ensures v < W128 ==> v % W128 == v
  {}

  lemma {:induction false} BitAt(v: U128, x: nat)
    requires x < 128
    ensures Shr(v, U128(0, x)).lower % 2 == Prefix(Val(v), x) % 2
  {
    var r := Shr(v, U128(0, x));
    ShrMeans(v, U128(0, x));
    assert Val(r) == Prefix(Val(v), x);
    EvenWord(r);
  }

  lemma EvenWord(r: U128)
    ensures Val(r) % 2 == r.lower % 2
  {}

  lemma {:induction false} ExactSub(a: U128, b: U128)
    requires Val(b) <= Val(a)
    ensures Val(Sub(a, b)) == Val(a) - Val(b)
  {
    SubMeans(a, b);
    hide Sub;
    SmallMod(Val(a) - Val(b));
  }

  /** One step of long division by shifting and subtracting. The remainder's shift
      stays below the prefix of `lhs` read so far, so it does not overflow. */
  method DivStep(lhs: U128, rhs: U128, x: nat, q: U128, r: U128) returns (q': U128, r': U128)
    requires 0 < x <= 128 && Divides(Prefix(Val(lhs), x), Val(rhs), Val(q), Val(r))
    ensures Divides(Prefix(Val(lhs), x - 1), Val(rhs), Val(q'), Val(r'))
  {
    hide Pow2, Prefix, Shl, Shr, Add, Sub, Val, Divides, Less;
    q' := Shl(q, ONE);
    r' := Shl(r, ONE);
    var bit := Shr(lhs, U128(0, x - 1)).lower % 2;
    BitAt(lhs, x - 1);
    PrefixStep(Val(lhs), x);
    BringDown(Prefix(Val(lhs), x), Val(rhs), Val(q), Val(r), bit);
    SmallSteps(q);
    SmallSteps(r);
    SmallSteps(r');
    if bit != 0 {
      r' := Add(r', ONE);
    }
    LessMeans(rhs, r');
    if Less(rhs, r') || r' == rhs {
      ExactSub(r', rhs);
      SmallSteps(q');
      r' := Sub(r', rhs);
      q' := Add(q', ONE);
    }
  }

  method DivMod(lhs: U128, rhs: U128) returns (d: Division<U128>)
    ensures d.DivisionByZero? <==> Val(rhs) == 0
    ensures d.Quotients? ==> Divides(Val(lhs), Val(rhs), Val(d.q), Val(d.r))
  {
    hide Pow2, BitLen, Prefix;
    LessMeans(lhs, rhs);
    if rhs == ZERO {
      return DivisionByZero;
    } else if rhs == ONE {
      return Quotients(lhs, ZERO);
    } else if lhs == rhs {
      return Quotients(ONE, ZERO);
    } else if lhs == ZERO || Less(lhs, rhs) {
      return Quotients(ZERO, lhs);
    }
    var q, r := ZERO, ZERO;
    var x := Bits(lhs);
    LengthBound(lhs);
    while x > 0
      invariant x <= 128 && Divides(Prefix(Val(lhs), x), Val(rhs), Val(q), Val(r))
    {
      q, r := DivStep(lhs, rhs, x, q, r);
      x := x - 1;
    }
    PrefixAll(Val(lhs));
    return Quotients(q, r);
  }

  lemma PrefixAll(v: nat)
    ensures Prefix(v, 0) == v
  {}

  lemma {:induction false} LengthBound(v: U128)
    requires Val(v) > 0
    ensures BitLen(Val(v)) <= 128 && Prefix(Val(v), BitLen(Val(v))) == 0
  {
    hide Pow2;
    var n := BitLen(Val(v));
    BitLenMeans(Val(v));
    QuotientIs(Val(v), Pow2(n), 0, Val(v));
    Pow2Words();
    Pow2Le(128, n - 1);
  }
}
