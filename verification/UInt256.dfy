/** 256-bit unsigned integers built from two 128-bit ones: block hashes, and the keys
    of the ledger. */
module UInt256 {
  import opened Arithmetic
  import opened UInt128

  datatype U256 = U256(upper: U128, lower: U128)

  function Value(x: U256): (v: nat)
    ensures v < W256
  {
    Val(x.upper) * W128 + Val(x.lower)
  }

  const ZERO256 := U256(ZERO, ZERO)
  const ONE256 := U256(ZERO, ONE)

  predicate Less256(a: U256, b: U256) {
    if a.upper == b.upper then Less(a.lower, b.lower) else Less(a.upper, b.upper)
  }

  lemma {:induction false} Less256Means(a: U256, b: U256)
    ensures Less256(a, b) <==> Value(a) < Value(b)
    ensures a == b <==> Value(a) == Value(b)
  {
    LessMeans(a.lower, b.lower);
    LessMeans(a.upper, b.upper);
  }

  function Flag(b: bool): U128 {
    if b then ONE else ZERO
  }

  function Add256(a: U256, b: U256): U256 {
    var low := Add(a.lower, b.lower);
    U256(Add(Add(a.upper, b.upper), Flag(Less(low, a.lower))), low)
  }

  function Sub256(a: U256, b: U256): U256 {
    var low := Sub(a.lower, b.lower);
    U256(Sub(Sub(a.upper, b.upper), Flag(Less(a.lower, low))), low)
  }

  lemma {:induction false} HalfSums(a: U128, b: U128)
    ensures Val(Add(a, b)) == if Val(a) + Val(b) >= W128 then Val(a) + Val(b) - W128 else Val(a) + Val(b)
    ensures Val(Sub(a, b)) == if Val(a) < Val(b) then Val(a) - Val(b) + W128 else Val(a) - Val(b)
  {
    AddMeans(a, b);
    SubMeans(a, b);
    hide Add, Sub, Val;
    HalfMod(Val(a), Val(b));
  }

  lemma HalfMod(x: nat, y: nat)
    requires x < W128 && y < W128
    ensures (x + y) % W128 == if x + y >= W128 then x + y - W128 else x + y
    ensures (x - y) % W128 == if x < y then x - y + W128 else x - y
  {}

  lemma {:induction false} Add256Means(a: U256, b: U256)
    ensures Value(Add256(a, b)) == (Value(a) + Value(b)) % W256
  {
    var low := Add(a.lower, b.lower);
    var c := if Val(a.lower) + Val(b.lower) >= W128 then 1 else 0;
    var d := if Val(a.upper) + Val(b.upper) + c >= W128 then 1 else 0;
    HalfSums(a.lower, b.lower);
    HalfSums(a.upper, b.upper);
    LessMeans(low, a.lower);
    HalfSums(Add(a.upper, b.upper), Flag(Less(low, a.lower)));
    assert Val(ONE) == 1 && Val(ZERO) == 0;
    assert Val(Flag(Less(low, a.lower))) == c;
    AddValue(a, b, Add256(a, b), c, d);
  }

  lemma {:induction false} AddValue(a: U256, b: U256, r: U256, c: int, d: int)
    requires Val(r.lower) == Val(a.lower) + Val(b.lower) - c * W128
    requires Val(r.upper) == Val(a.upper) + Val(b.upper) + c - d * W128
    ensures Value(r) == (Value(a) + Value(b)) % W256
  {
    hide Val;
    ModIs(Value(a) + Value(b), W256, d, Value(r));
  }

  lemma {:induction false} Sub256Means(a: U256, b: U256)
    ensures Value(Sub256(a, b)) == (Value(a) - Value(b)) % W256
  {
    var low := Sub(a.lower, b.lower);
    var c := if Val(a.lower) < Val(b.lower) then 1 else 0;
    var d := if Val(a.upper) - Val(b.upper) - c < 0 then 1 else 0;
    HalfSums(a.lower, b.lower);
    HalfSums(a.upper, b.upper);
    LessMeans(a.lower, low);
    HalfSums(Sub(a.upper, b.upper), Flag(Less(a.lower, low)));
    assert Val(ONE) == 1 && Val(ZERO) == 0;
    assert Val(Flag(Less(a.lower, low))) == c;
    SubValue(a, b, Sub256(a, b), c, d);
  }

  lemma {:induction false} SubValue(a: U256, b: U256, r: U256, c: int, d: int)
    requires Val(r.lower) == Val(a.lower) - Val(b.lower) + c * W128
    requires Val(r.upper) == Val(a.upper) - Val(b.upper) - c + d * W128
    ensures Value(r) == (Value(a) - Value(b)) % W256
  {
    hide Val;
    ModIs(Value(a) - Value(b), W256, -d, Value(r));
  }

  // ---------- shifts ----------

  function Num(n: u64): (x: U128)
    ensures Val(x) == n
  {
    U128(0, n)
  }

  function Shl256(a: U256, rhs: U256): U256 {
    var shift := rhs.lower;
    if rhs.upper != ZERO || !Less(shift, Num(256)) then ZERO256
    else if shift == Num(128) then U256(a.lower, ZERO)
    else if shift == ZERO then a
    else if Less(shift, Num(128)) then
      U256(Add(Shl(a.upper, shift), Shr(a.lower, Sub(Num(128), shift))), Shl(a.lower, shift))
    else U256(Shl(a.lower, Sub(shift, Num(128))), ZERO)
  }

  function Shr256(a: U256, rhs: U256): U256 {
    var shift := rhs.lower;
    if rhs.upper != ZERO || !Less(shift, Num(256)) then ZERO256
    else if shift == Num(128) then U256(ZERO, a.upper)
    else if shift == ZERO then a
    else if Less(shift, Num(128)) then
      U256(Shr(a.upper, shift), Add(Shl(a.upper, Sub(Num(128), shift)), Shr(a.lower, shift)))
    else U256(ZERO, Shr(a.upper, Sub(shift, Num(128))))
  }

  ghost predicate Shl256Ok(a: U256, rhs: U256) {
    Value(Shl256(a, rhs)) == (Value(a) * Pow2(Value(rhs))) % W256
  }

  ghost predicate Shr256Ok(a: U256, rhs: U256) {
    Value(Shr256(a, rhs)) == Value(a) / Pow2(Value(rhs))
  }

  /** What the comparisons of the shift amount decide. */
  lemma {:induction false} ShiftCases(rhs: U256)
    ensures rhs.upper != ZERO || !Less(rhs.lower, Num(256)) <==> Value(rhs) >= 256
    ensures rhs.upper == ZERO ==> Value(rhs) == Val(rhs.lower)
    ensures rhs.lower == Num(128) <==> Val(rhs.lower) == 128
    ensures rhs.lower == ZERO <==> Val(rhs.lower) == 0
    ensures Less(rhs.lower, Num(128)) <==> Val(rhs.lower) < 128
    ensures Val(rhs.lower) < 128 ==> Val(Sub(Num(128), rhs.lower)) == 128 - Val(rhs.lower)
    ensures Val(rhs.lower) >= 128 ==> Val(Sub(rhs.lower, Num(128))) == Val(rhs.lower) - 128
  {
    LessMeans(rhs.lower, Num(256));
    LessMeans(rhs.lower, Num(128));
    LessMeans(rhs.upper, ZERO);
    LessMeans(rhs.lower, ZERO);
    HalfSums(Num(128), rhs.lower);
    HalfSums(rhs.lower, Num(128));
  }

  lemma {:induction false} ShiftMeans(a: U256, rhs: U256)
    ensures Shl256Ok(a, rhs) && Shr256Ok(a, rhs)
  {
    hide *;
    ShiftCases(rhs);
    var s := Value(rhs);
    if s >= 256 {
      ShiftFar(a, rhs);
    } else if s > 128 {
      ShiftOver(a, rhs);
    } else if s == 128 {
      ShiftHalf(a, rhs);
    } else if s == 0 {
      ShiftNone(a, rhs);
    } else {
      ShiftNear(a, rhs);
    }
  }

  lemma {:induction false} ShiftFar(a: U256, rhs: U256)
    requires Value(rhs) >= 256
    ensures Shl256Ok(a, rhs) && Shr256Ok(a, rhs)
  {
    hide Pow2;
    Pow2Words();
    ShiftCases(rhs);
    ShiftedOut(Value(a), 256, Value(rhs));
  }

  lemma {:induction false} ShiftNone(a: U256, rhs: U256)
    requires Value(rhs) == 0
    ensures Shl256Ok(a, rhs) && Shr256Ok(a, rhs)
  {
    ShiftCases(rhs);
    Pow2Zero();
    ModIs(Value(a), W256, 0, Value(a));
  }

  lemma {:induction false} ShiftHalf(a: U256, rhs: U256)
    requires Value(rhs) == 128
    ensures Shl256Ok(a, rhs) && Shr256Ok(a, rhs)
  {
    hide Pow2;
    Pow2Words();
    ShiftCases(rhs);
    hide Val, Less;
    ModIs(Value(a) * W128, W256, Val(a.upper), Val(a.lower) * W128);
    QuotientIs(Value(a), W128, Val(a.upper), Val(a.lower));
  }

  lemma {:induction false} ShiftOver(a: U256, rhs: U256)
    requires 128 < Value(rhs) < 256
    ensures Shl256Ok(a, rhs) && Shr256Ok(a, rhs)
  {
    hide *;
    var t := Sub(rhs.lower, Num(128));
    OverShapes(a, rhs, t);
    ShlVal(a.lower, t);
    ShrVal(a.upper, t);
    OverPowers(Val(t));
    ValueParts(a);
    LeftOver(W128, Pow2(Val(t)), Val(a.upper), Val(a.lower));
    RightOver(W128, Pow2(Val(t)), Val(a.upper), Val(a.lower));
    OverValues(a, rhs, t);
  }

  lemma {:induction false} OverShapes(a: U256, rhs: U256, t: U128)
    requires 128 < Value(rhs) < 256 && t == Sub(rhs.lower, Num(128))
    ensures Val(t) == Value(rhs) - 128
    ensures Shl256(a, rhs) == U256(Shl(a.lower, t), ZERO)
    ensures Shr256(a, rhs) == U256(ZERO, Shr(a.upper, t))
  {
    ShiftCases(rhs);
    hide Shl, Shr, Sub, Less;
  }

  lemma {:induction false} OverPowers(k: nat)
    ensures Pow2(k + 128) == Pow2(k) * W128 && W256 == W128 * W128
  {
    hide Pow2;
    Pow2Words();
    Pow2Add(k, 128);
  }

  lemma {:induction false} OverValues(a: U256, rhs: U256, t: U128)
    requires Shl256(a, rhs) == U256(Shl(a.lower, t), ZERO) && Shr256(a, rhs) == U256(ZERO, Shr(a.upper, t))
    requires Val(Shl(a.lower, t)) * W128 == (Value(a) * Pow2(Value(rhs))) % W256
    requires Val(Shr(a.upper, t)) == Value(a) / Pow2(Value(rhs))
    ensures Shl256Ok(a, rhs) && Shr256Ok(a, rhs)
  {
    ZeroVal();
    hide Shl256, Shr256, Shl, Shr, Pow2, Val;
  }

  lemma {:induction false} ShiftNear(a: U256, rhs: U256)
    requires 0 < Value(rhs) < 128
    ensures Shl256Ok(a, rhs) && Shr256Ok(a, rhs)
  {
    ShlNear256(a, rhs);
    ShrNear256(a, rhs);
  }

  lemma {:induction false} NearShapes(a: U256, rhs: U256, s: U128, t: U128)
    requires 0 < Value(rhs) < 128 && s == rhs.lower && t == Sub(Num(128), s)
    ensures Val(s) == Value(rhs) && Val(t) == 128 - Val(s)
    ensures Shl256(a, rhs) == U256(Add(Shl(a.upper, s), Shr(a.lower, t)), Shl(a.lower, s))
    ensures Shr256(a, rhs) == U256(Shr(a.upper, s), Add(Shl(a.upper, t), Shr(a.lower, s)))
  {
    ShiftCases(rhs);
    hide Shl, Shr, Add, Sub, Less;
  }

  lemma {:induction false} ShlNear256(a: U256, rhs: U256)
    requires 0 < Value(rhs) < 128
    ensures Shl256Ok(a, rhs)
  {
    hide *;
    var s, t := rhs.lower, Sub(Num(128), rhs.lower);
    NearShapes(a, rhs, s, t);
    var x, y := Shl(a.upper, s), Shr(a.lower, t);
    NearPowers(Val(s), Val(t));
    ShlVal(a.upper, s);
    ShlVal(a.lower, s);
    ShrVal(a.lower, t);
    ValueParts(a);
    ShiftLeft(W128, Pow2(Val(s)), Pow2(Val(t)), Val(a.upper), Val(a.lower));
    HalfSums(x, y);
    ShlNearValue(a, rhs, s, Add(x, y));
  }

  lemma {:induction false} NearPowers(s: nat, t: nat)
    requires s + t == 128
    ensures W128 == Pow2(s) * Pow2(t) && W256 == W128 * W128
  {
    hide Pow2;
    Pow2Words();
    Pow2Add(s, t);
  }

  lemma {:induction false} ShlVal(a: U128, s: U128)
    ensures Val(Shl(a, s)) == (Val(a) * Pow2(Val(s))) % W128
  {
    ShlMeans(a, s);
    hide Val, Shl, Pow2;
  }

  lemma {:induction false} ShrVal(a: U128, s: U128)
    ensures Val(Shr(a, s)) == Val(a) / Pow2(Val(s))
  {
    ShrMeans(a, s);
    hide Val, Shr, Pow2;
  }

  lemma {:induction false} ValueParts(a: U256)
    ensures Value(a) == Val(a.upper) * W128 + Val(a.lower)
  {
    hide Val;
  }

  lemma {:induction false} ShlNearValue(a: U256, rhs: U256, s: U128, high: U128)
    requires Shl256(a, rhs) == U256(high, Shl(a.lower, s)) && Val(s) == Value(rhs)
    requires Val(high) * W128 + Val(Shl(a.lower, s)) == (Value(a) * Pow2(Val(s))) % W256
    ensures Shl256Ok(a, rhs)
  {
    hide Shl256, Shl, Pow2, Val;
  }

  lemma {:induction false} ShrNear256(a: U256, rhs: U256)
    requires 0 < Value(rhs) < 128
    ensures Shr256Ok(a, rhs)
  {
    hide *;
    var s, t := rhs.lower, Sub(Num(128), rhs.lower);
    NearShapes(a, rhs, s, t);
    var x, y := Shl(a.upper, t), Shr(a.lower, s);
    NearPowers(Val(s), Val(t));
    ShrVal(a.upper, s);
    ShlVal(a.upper, t);
    ShrVal(a.lower, s);
    ValueParts(a);
    ShiftRight(W128, Pow2(Val(s)), Pow2(Val(t)), Val(a.upper), Val(a.lower));
    HalfSums(x, y);
    ShrValue(a, rhs, s, Add(x, y));
  }

  lemma {:induction false} ShrValue(a: U256, rhs: U256, s: U128, low: U128)
    requires Shr256(a, rhs) == U256(Shr(a.upper, s), low) && Val(s) == Value(rhs)
    requires Val(Shr(a.upper, s)) * W128 + Val(low) == Value(a) / Pow2(Val(s))
    ensures Shr256Ok(a, rhs)
  {
    hide Shr256, Shr, Pow2, Val;
  }

  // ---------- multiplication ----------

  function Limbs256(x: U256): (s: seq<u64>)
    ensures |s| == 4
  {
    [x.upper.upper, x.upper.lower, x.lower.upper, x.lower.lower]
  }

  lemma Limbs256Mean(x: U256)
    ensures var l := Limbs256(x); Value(x) == Digits(W64, l[0], l[1], l[2], l[3])
    ensures Fourth(W64) == W256
  {}

  ghost predicate Entry(p: U128, a: u64, b: u64) {
    Val(p) == Times(a, b)
  }

  /** A product of two limbs fits in 128 bits. */
  method MulLimbs(a: u64, b: u64) returns (p: U128)
    ensures Entry(p, a, b)
  {
    p := Mul(Num(a), Num(b));
    LimbProduct(a, b);
  }

  lemma {:induction false} LimbProduct(a: u64, b: u64)
    ensures a * b % W128 == Times(a, b)
  {
    MulLe(a, W64 - 1, b);
    SmallMod(a * b);
  }

  lemma {:induction false} EntryHalves(p: U128, a: u64, b: u64)
    requires Entry(p, a, b)
    ensures p.lower == Low(Times(a, b), W64) && p.upper == High(Times(a, b), W64)
  {
    QuotientIs(Times(a, b), W64, p.upper, p.lower);
    ModIs(Times(a, b), W64, p.upper, p.lower);
  }

  /** Row `k` of the table has the products with limb `3 - k` of the other number. */
  method Products256(top: seq<u64>, bottom: seq<u64>) returns (products: array2<U128>)
    requires |top| == |bottom| == 4
    ensures fresh(products) && products.Length0 == products.Length1 == 4
    ensures forall k, x :: 0 <= k < 4 && 0 <= x < 4 ==> Entry(products[k, x], top[x], bottom[3 - k])
  {
    hide Entry;
    products := new U128[4, 4](((i, j) => ZERO));
    for y := 4 downto 0
      invariant forall k, x :: 0 <= k < 4 - y && 0 <= x < 4 ==> Entry(products[k, x], top[x], bottom[3 - k])
    {
      for x := 4 downto 0
        invariant forall k, j :: 0 <= k < 3 - y && 0 <= j < 4 ==> Entry(products[k, j], top[j], bottom[3 - k])
        invariant forall j :: x <= j < 4 ==> Entry(products[3 - y, j], top[j], bottom[y])
      {
        var p := MulLimbs(top[x], bottom[y]);
        products[3 - y, x] := p;
      }
    }
  }

  /** Adds one more word to a column; no column comes near the range. */
  method Plus(acc: U128, w: u64) returns (r: U128)
    requires Val(acc) + w < W128
    ensures Val(r) == Val(acc) + w
  {
    r := Add(acc, Num(w));
    HalfSums(acc, Num(w));
  }

  datatype Columns256 = Columns256(first: U128, second: U128, third: U128, fourth: U128)

  ghost function ColumnVals(c: Columns256): Columns {
    Columns(Val(c.first), Val(c.second), Val(c.third), Val(c.fourth))
  }

  /** Sums the columns of the table; no sum wraps. */
  method SumColumns256(ghost top: seq<u64>, ghost bottom: seq<u64>, products: array2<U128>) returns (c: Columns256)
    requires |top| == |bottom| == 4 && products.Length0 == products.Length1 == 4
    requires forall k, x :: 0 <= k < 4 && 0 <= x < 4 ==> Entry(products[k, x], top[x], bottom[3 - k])
    ensures ColumnVals(c) == ColumnsOf(W64, top, bottom)
  {
    hide Low, High, Val, Entry;
    forall k, x | 0 <= k < 4 && 0 <= x < 4
      ensures products[k, x].lower == Low(Times(top[x], bottom[3 - k]), W64)
      ensures products[k, x].upper == High(Times(top[x], bottom[3 - k]), W64)
    {
      EntryHalves(products[k, x], top[x], bottom[3 - k]);
    }
    var fourth64 := Num(products[0, 3].lower);
    var third64 := Plus(Num(products[0, 2].lower), products[0, 3].upper);
    var second64 := Plus(Num(products[0, 1].lower), products[0, 2].upper);
    var first64 := Plus(Num(products[0, 0].lower), products[0, 1].upper);

    third64 := Plus(third64, products[1, 3].lower);
    second64 := Plus(second64, products[1, 2].lower);
    second64 := Plus(second64, products[1, 3].upper);
    first64 := Plus(first64, products[1, 1].lower);
    first64 := Plus(first64, products[1, 2].upper);

    second64 := Plus(second64, products[2, 3].lower);
    first64 := Plus(first64, products[2, 2].lower);
    first64 := Plus(first64, products[2, 3].upper);

    first64 := Plus(first64, products[3, 3].lower);
    c := Columns256(first64, second64, third64, fourth64);
  }

  /** Lines the columns up and adds them. */
  function Joined(c: Columns256): U256 {
    Add256(Add256(Add256(U256(Shl(c.first, Num(64)), ZERO),
                         U256(Num(c.third.upper), Shl(c.third, Num(64)))),
                  U256(c.second, ZERO)),
           U256(ZERO, c.fourth))
  }

  lemma {:induction false} JoinedMeans(c: Columns256)
    ensures Value(Joined(c)) == DigitsOf(W64, ColumnVals(c)) % W256
  {
    var x1, x2 := U256(Shl(c.first, Num(64)), ZERO), U256(Num(c.third.upper), Shl(c.third, Num(64)));
    var x3, x4 := U256(c.second, ZERO), U256(ZERO, c.fourth);
    assert Joined(c) == Add256(Add256(Add256(x1, x2), x3), x4);
    hide *;
    Add256Means(x1, x2);
    Add256Means(Add256(x1, x2), x3);
    Add256Means(Add256(Add256(x1, x2), x3), x4);
    var h := PartValues(c);
    var s1, s2 := Add256(x1, x2), Add256(Add256(x1, x2), x3);
    JoinSum(h, Value(x1), Value(x2), Value(x3), Value(x4), Value(s1), Value(s2), Value(Add256(s2, x4)), ColumnVals(c));
  }

  lemma {:induction false} PartValues(c: Columns256) returns (h: nat)
    ensures var v := ColumnVals(c);
      && Value(U256(Shl(c.first, Num(64)), ZERO)) == v.first * W64 * W128 - h * W256
      && Value(U256(Num(c.third.upper), Shl(c.third, Num(64)))) == v.third * W64
      && Value(U256(c.second, ZERO)) == v.second * W128 && Value(U256(ZERO, c.fourth)) == v.fourth
  {
    UpWord(c.first);
    UpWord(c.third);
    h := c.first.upper;
    assert Val(ZERO) == 0;
    hide Shl;
  }

  lemma {:induction false} UpWord(a: U128)
    ensures Val(Shl(a, Num(64))) == (Val(a) * W64) % W128
    ensures Val(a) * W64 == a.upper * W128 + Val(Shl(a, Num(64)))
  {
    ShlMeans(a, Num(64));
    Pow2Words();
  }

  lemma {:induction false} JoinSum(h: nat, x1: nat, x2: nat, x3: nat, x4: nat, s1: nat, s2: nat, s3: nat, v: Columns)
    requires s1 == (x1 + x2) % W256 && s2 == (s1 + x3) % W256 && s3 == (s2 + x4) % W256
    requires x1 == v.first * W64 * W128 - h * W256
    requires x2 == v.third * W64 && x3 == v.second * W128 && x4 == v.fourth
    ensures s3 == DigitsOf(W64, v) % W256
  {
    ModAgain(x1 + x2, x3, W256);
    ModAgain(x1 + x2 + x3, x4, W256);
    var d := Digits(W64, v.first, v.second, v.third, v.fourth);
    assert d == h * W256 + (x1 + x2 + x3 + x4);
    ModAgain(h * W256, x1 + x2 + x3 + x4, W256);
    ModIs(h * W256, W256, h, 0);
  }

  /** Reducing a summand first changes nothing. */
  lemma {:induction false} ModAgain(x: nat, y: nat, m: nat)
    requires m > 0
    ensures (x % m + y) % m == (x + y) % m
  {
    Quotient(x, m);
    Quotient(x % m + y, m);
    var k := x / m + (x % m + y) / m;
    assert k * m == x / m * m + (x % m + y) / m * m;
    ModIs(x + y, m, k, (x % m + y) % m);
  }

  method Mul256(a: U256, b: U256) returns (r: U256)
    ensures Value(r) == (Value(a) * Value(b)) % W256
  {
    hide *;
    var products := Products256(Limbs256(a), Limbs256(b));
    var c := SumColumns256(Limbs256(a), Limbs256(b), products);
    Product256Means(a, b, c);
    r := Joined(c);
  }

  lemma {:induction false} Product256Means(a: U256, b: U256, c: Columns256)
    requires ColumnVals(c) == ColumnsOf(W64, Limbs256(a), Limbs256(b))
    ensures Value(Joined(c)) == (Value(a) * Value(b)) % W256
  {
    hide Value, Joined, Limbs256, ColumnsOf, Digits, DigitsOf, ColumnVals, Fourth;
    var k := ColumnsMean(W64, Limbs256(a), Limbs256(b));
    Limbs256Mean(a);
    Limbs256Mean(b);
    JoinedMeans(c);
    ModAgain(k * W256, DigitsOf(W64, ColumnVals(c)), W256);
    ModIs(k * W256, W256, k, 0);
  }

  // ---------- machine operands ----------

  function AddInt256(a: U256, t: Machine): U256 {
    var low := Add(a.lower, FromInt(t));
    U256(AddInt(a.upper, if Less(low, a.lower) then 1 else 0), low)
  }

  function SubInt256(a: U256, t: Machine): U256 {
    var low := SubInt(a.lower, t);
    U256(SubInt(a.upper, if Less(a.lower, low) then 1 else 0), low)
  }

  /** Adding or subtracting a machine integer does what it says exactly when the
      integer is not negative. */
  lemma {:induction false} Machine256Means(a: U256, t: Machine)
    ensures Value(AddInt256(a, t)) == (Value(a) + t) % W256 <==> t >= 0
    ensures Value(SubInt256(a, t)) == (Value(a) - t) % W256 <==> t >= 0
  {
    MachineForms(a, t);
    var b := U256(ZERO, FromInt(t));
    Add256Means(a, b);
    Sub256Means(a, b);
    FromIntMeans(t);
    ZeroVal();
    hide Add256, Sub256, AddInt256, SubInt256, FromInt, Val;
    assert Value(b) == if t < 0 then t + W64 else t;
    if t < 0 {
      OffByWord256(Value(a) + t);
      OffByWord256(Value(a) - t - W64);
    }
  }

  /** The two forms, with a machine integer and with the number it turns into. */
  lemma {:induction false} MachineForms(a: U256, t: Machine)
    ensures AddInt256(a, t) == Add256(a, U256(ZERO, FromInt(t)))
    ensures SubInt256(a, t) == Sub256(a, U256(ZERO, FromInt(t)))
  {
    hide *;
    CarryForms(a.upper);
    MachineMeans(a.lower, t);
    FormsJoin(a, t);
  }

  lemma {:induction false} FormsJoin(a: U256, t: Machine)
    requires Add(a.upper, ZERO) == a.upper == Sub(a.upper, ZERO) && SubInt(a.lower, t) == Sub(a.lower, FromInt(t))
    requires AddInt(a.upper, 0) == Add(a.upper, ZERO) && AddInt(a.upper, 1) == Add(a.upper, ONE)
    requires SubInt(a.upper, 0) == Sub(a.upper, ZERO) && SubInt(a.upper, 1) == Sub(a.upper, ONE)
    ensures AddInt256(a, t) == Add256(a, U256(ZERO, FromInt(t)))
    ensures SubInt256(a, t) == Sub256(a, U256(ZERO, FromInt(t)))
  {
    hide Add, Sub, AddInt, SubInt, FromInt, Less;
  }

  lemma {:induction false} CarryForms(a: U128)
    ensures Add(a, ZERO) == a == Sub(a, ZERO)
    ensures AddInt(a, 0) == Add(a, ZERO) && AddInt(a, 1) == Add(a, ONE)
    ensures SubInt(a, 0) == Sub(a, ZERO) && SubInt(a, 1) == Sub(a, ONE)
  {
    MachineMeans(a, 0);
    MachineMeans(a, 1);
    assert FromInt(0) == ZERO && FromInt(1) == ONE;
    hide AddInt, SubInt, FromInt;
    NothingAdded(a);
  }

  lemma {:induction false} NothingAdded(a: U128)
    ensures Add(a, ZERO) == a && Sub(a, ZERO) == a
  {
    WordSums(a.upper, 0);
    WordSums(a.lower, 0);
  }

  lemma OffByWord256(x: int)
    ensures (x + W64) % W256 != x % W256
  {}

  // ---------- division ----------

  lemma {:induction false} HalvedBits(x: U256)
    ensures Value(Shr256(x, ONE256)) == Value(x) / 2
    ensures 2 * Value(x) < W256 ==> Value(Shl256(x, ONE256)) == 2 * Value(x)
  {
    ShiftMeans(x, ONE256);
    Pow2One();
    assert Value(ONE256) == 1;
    hide Shl256, Shr256, Pow2, Value;
    if 2 * Value(x) < W256 { ModIs(Value(x) * 2, W256, 0, Value(x) * 2); }
  }

  method Bits256(x: U256) returns (out: nat)
    ensures out == BitLen(Value(x))
  {
    hide BitLen, Pow2, Shr, Val;
    out := 0;
    var w := x.lower;
    LessMeans(x.upper, ZERO);
    ZeroVal();
    if x.upper != ZERO {
      out := 128;
      w := x.upper;
      Pow2Words();
      BitLenHigh(Val(x.upper), Val(x.lower), 128);
    }
    while w != ZERO
      invariant out + BitLen(Val(w)) == BitLen(Value(x))
      decreases Val(w)
    {
      LessMeans(w, ZERO);
      BitLenStep(Val(w));
      SmallSteps(w);
      w := Shr(w, ONE);
      out := out + 1;
    }
    BitLenStep(Val(w));
  }

  lemma ZeroVal()
    ensures Val(ZERO) == 0
  {}

  function OrWord(a: u64, b: u64): u64 {
    OrSmall(a, b, 64);
    Pow2Words();
    Or(a, b)
  }

  function Or256(a: U256, b: U256): U256 {
    U256(U128(OrWord(a.upper.upper, b.upper.upper), OrWord(a.upper.lower, b.upper.lower)),
         U128(OrWord(a.lower.upper, b.lower.upper), OrWord(a.lower.lower, b.lower.lower)))
  }

  lemma {:induction false} OrSmall(a: nat, b: nat, k: nat)
    ensures a < Pow2(k) && b < Pow2(k) ==> Or(a, b) < Pow2(k)
  {
    if k > 0 && a != 0 && b != 0 { OrSmall(a / 2, b / 2, k - 1); }
  }

  /** Or works digit by digit. */
  lemma {:induction false} OrParts(a: nat, x: nat, b: nat, y: nat, k: nat)
    requires x < Pow2(k) && y < Pow2(k)
    ensures Or(a * Pow2(k) + x, b * Pow2(k) + y) == Or(a, b) * Pow2(k) + Or(x, y)
  {
    hide Or;
    if k == 0 {
      OrNothing();
    } else {
      OrParts(a, x / 2, b, y / 2, k - 1);
      OrPartsStep(a, x, b, y, Or(a, b), Pow2(k - 1), Pow2(k));
    }
  }

  lemma OrNothing()
    ensures Or(0, 0) == 0
  {}

  lemma {:induction false} OrPartsStep(a: nat, x: nat, b: nat, y: nat, o: nat, h: nat, p: nat)
    requires p == 2 * h && Or(a * h + x / 2, b * h + y / 2) == o * h + Or(x / 2, y / 2)
    ensures Or(a * p + x, b * p + y) == o * p + Or(x, y)
  {
    hide Or;
    OrHalf(a * h, x, b * h, y, o * h);
    OrGlue(a, x, b, y, o, h, p);
  }

  lemma {:induction false} OrGlue(a: nat, x: nat, b: nat, y: nat, o: nat, h: nat, p: nat)
    requires p == 2 * h && Or(2 * (a * h) + x, 2 * (b * h) + y) == 2 * (o * h) + Or(x, y)
    ensures Or(a * p + x, b * p + y) == o * p + Or(x, y)
  {
    hide Or;
    TwiceProduct(a, h, p);
    TwiceProduct(b, h, p);
    TwiceProduct(o, h, p);
  }

  lemma TwiceProduct(a: nat, h: nat, p: nat)
    requires p == 2 * h
    ensures a * p == 2 * (a * h)
  {}

  lemma {:induction false} OrHalf(a: nat, x: nat, b: nat, y: nat, c: nat)
    requires Or(a + x / 2, b + y / 2) == c + Or(x / 2, y / 2)
    ensures Or(2 * a + x, 2 * b + y) == 2 * c + Or(x, y)
  {
    OrStep(2 * a + x, 2 * b + y);
    OrStep(x, y);
    hide Or;
    assert (2 * a + x) / 2 == a + x / 2 && (2 * b + y) / 2 == b + y / 2;
    assert (2 * a + x) % 2 == x % 2 && (2 * b + y) % 2 == y % 2;
  }

  lemma OrStep(a: nat, b: nat)
    ensures Or(a, b) == 2 * Or(a / 2, b / 2) + if a % 2 == 1 || b % 2 == 1 then 1 else 0
  {}

  lemma {:induction false} Or256Means(a: U256, b: U256)
    ensures Value(Or256(a, b)) == Or(Value(a), Value(b))
  {
    hide Or, Pow2;
    Pow2Words();
    OrParts(a.upper.upper, a.upper.lower, b.upper.upper, b.upper.lower, 64);
    OrParts(a.lower.upper, a.lower.lower, b.lower.upper, b.lower.lower, 64);
    OrParts(Val(a.upper), Val(a.lower), Val(b.upper), Val(b.lower), 128);
  }

  /** How far long division by a shifted divisor has come: the divisor is shifted by
      `m`, and the quotient has no bits at or below that place yet. */
  ghost predicate Shifted(lhs: nat, d: nat, m: nat, copyd: nat, adder: nat, q: nat, r: nat, k: nat) {
    && adder == Pow2(m) && copyd == d * adder
    && q == k * (2 * adder) && lhs == q * d + r && r < 2 * copyd
  }

  /** Subtracting the shifted divisor once leaves less than it. */
  lemma {:induction false} SubtractOnce(lhs: nat, d: nat, m: nat, copyd: nat, adder: nat, q: nat, r: nat, k: nat)
    requires Shifted(lhs, d, m, copyd, adder, q, r, k)
    ensures Or(q, adder) == q + adder
    ensures r >= copyd ==> lhs == (q + adder) * d + (r - copyd) && r - copyd < copyd
    ensures q + adder == (2 * k + 1) * adder && q == (2 * k) * adder
  {
    Pow2Less(m);
    hide Or, Pow2;
    OrDisjoint(k, adder, m + 1);
    TwiceProduct(k, adder, 2 * adder);
    ScaleSum(q, adder, d, k);
  }

  lemma ScaleSum(q: nat, adder: nat, d: nat, k: nat)
    requires q == k * (2 * adder)
    ensures (q + adder) * d == q * d + d * adder
    ensures q + adder == (2 * k + 1) * adder && q == (2 * k) * adder
  {}

  lemma Pow2Less(m: nat)
    ensures Pow2(m) < Pow2(m + 1) == 2 * Pow2(m)
  {}

  /** Shifting the divisor down one place. */
  lemma {:induction false} ShiftDown(lhs: nat, d: nat, m: nat, copyd: nat, adder: nat, q: nat, r: nat, k: nat)
    requires m > 0 && adder == Pow2(m) && copyd == d * adder
    requires q == k * adder && lhs == q * d + r && r < copyd
    ensures Shifted(lhs, d, m - 1, copyd / 2, adder / 2, q, r, k)
  {
    var h := Pow2(m - 1);
    assert adder == 2 * h;
    assert copyd == 2 * (d * h);
  }

  /** One turn of the division loop; the last turn leaves the remainder. */
  method Turn(ghost lhs: nat, ghost d: nat, ghost m: nat, copyd: U256, adder: U256, q: U256, r: U256, ghost k: nat)
    returns (q': U256, r': U256, ghost k': nat)
    requires Shifted(lhs, d, m, Value(copyd), Value(adder), Value(q), Value(r), k)
    ensures m > 0 ==> Shifted(lhs, d, m - 1, Value(copyd) / 2, Value(adder) / 2, Value(q'), Value(r'), k')
    ensures m == 0 ==> Divides(lhs, d, Value(q'), Value(r'))
  {
    hide Or, Or256, Sub256, Less256, Value, Pow2;
    q', r', k' := q, r, 2 * k;
    Less256Means(copyd, r);
    SubtractOnce(lhs, d, m, Value(copyd), Value(adder), Value(q), Value(r), k);
    if Less256(copyd, r) || r == copyd {
      Exact256(r, copyd);
      r' := Sub256(r, copyd);
      Or256Means(q, adder);
      q' := Or256(q, adder);
      k' := 2 * k + 1;
    }
    if m > 0 {
      ShiftDown(lhs, d, m, Value(copyd), Value(adder), Value(q'), Value(r'), k');
    } else {
      Pow2Zero();
    }
  }

  lemma {:induction false} Exact256(a: U256, b: U256)
    requires Value(b) <= Value(a)
    ensures Value(Sub256(a, b)) == Value(a) - Value(b)
  {
    Sub256Means(a, b);
    hide Sub256, Value;
    var v := Value(a) - Value(b);
    ModIs(v, W256, 0, v);
  }

  method DivMod256(lhs: U256, rhs: U256) returns (d: Division<U256>)
    ensures d.DivisionByZero? <==> Value(rhs) == 0
    ensures d.Quotients? ==> Divides(Value(lhs), Value(rhs), Value(d.q), Value(d.r))
  {
    hide Value, Less256, BitLen, Shl256, Shr256;
    Less256Means(lhs, rhs);
    Less256Means(rhs, ZERO256);
    Less256Means(rhs, ONE256);
    Less256Means(lhs, ZERO256);
    SmallValues();
    if rhs == ZERO256 {
      return DivisionByZero;
    } else if rhs == ONE256 {
      return Quotients(lhs, ZERO256);
    } else if lhs == rhs {
      return Quotients(ONE256, ZERO256);
    } else if lhs == ZERO256 || Less256(lhs, rhs) {
      return Quotients(ZERO256, lhs);
    }
    d := LongDivision(lhs, rhs);
  }

  lemma SmallValues()
    ensures Value(ZERO256) == 0 && Value(ONE256) == 1
  {}

  /** Lines the divisor's top bit up with the dividend's, and one place lower when it
      is then too large. */
  method Align(lhs: U256, rhs: U256) returns (copyd: U256, adder: U256, ghost m: nat)
    requires 1 < Value(rhs) < Value(lhs)
    ensures Shifted(Value(lhs), Value(rhs), m, Value(copyd), Value(adder), 0, Value(lhs), 0)
    ensures Value(copyd) == Value(rhs) * Value(adder) && Value(copyd) <= Value(lhs) < 2 * Value(copyd)
  {
    hide Value, Less256, BitLen, Shl256, Shr256, Pow2, Shifted;
    var a := Bits256(lhs);
    var b := Bits256(rhs);
    AlignFits(Value(lhs), Value(rhs));
    SmallValues();
    copyd := Shl256(rhs, Places(a - b));
    adder := Shl256(ONE256, Places(a - b));
    ShiftedValue(rhs, a - b);
    ShiftedValue(ONE256, a - b);
    m := a - b;
    Less256Means(lhs, copyd);
    AlignDone(Value(lhs), Value(rhs), m);
    if Less256(lhs, copyd) {
      HalvedBits(copyd);
      HalvedBits(adder);
      copyd := Shr256(copyd, ONE256);
      adder := Shr256(adder, ONE256);
      m := m - 1;
    }
  }

  function Places(n: u64): (x: U256)
    ensures Value(x) == n
  {
    U256(ZERO, Num(n))
  }

  lemma {:induction false} ShiftedValue(x: U256, k: nat)
    requires k < 256 && Value(x) * Pow2(k) < W256
    ensures Value(Shl256(x, Places(k))) == Value(x) * Pow2(k)
  {
    hide *;
    ShlValue(x, Places(k));
    Small256(Value(x) * Pow2(k));
  }

  lemma {:induction false} ShlValue(a: U256, rhs: U256)
    ensures Value(Shl256(a, rhs)) == (Value(a) * Pow2(Value(rhs))) % W256
  {
    ShiftMeans(a, rhs);
    hide Value, Shl256, Pow2;
  }

  lemma Small256(v: nat)
    requires v < W256
    ensures v % W256 == v
  {}

  /** The shifted divisor has as many bits as the dividend. */
  lemma {:induction false} AlignFits(n: nat, d: nat)
    requires 0 < d < n < W256
    ensures var k := BitLen(n) - BitLen(d);
      0 <= k < 256 && 1 * Pow2(k) < W256 && d * Pow2(k) < W256 && n < 2 * (d * Pow2(k)) && d * Pow2(k) < 2 * n
  {
    hide *;
    var b := AlignLengths(n, d);
    AlignSize(n, d, BitLen(n) - BitLen(d), b);
  }

  lemma {:induction false} AlignLengths(n: nat, d: nat) returns (b: nat)
    requires 0 < d < n < W256
    ensures b == BitLen(d) && 0 < b <= BitLen(n) <= 256 && Pow2(BitLen(n)) <= W256 && Pow2(BitLen(n)) <= 2 * n
    ensures Pow2(b - 1) <= d < Pow2(b) && n < Pow2(BitLen(n))
  {
    hide BitLen, Pow2;
    BitLenMeans(n);
    BitLenMeans(d);
    b := BitLen(d);
    var a := BitLen(n);
    Pow2Words();
    Pow2Le(256, a - 1);
    Pow2Le(a, b - 1);
    Pow2Le(a, 256);
    Pow2Less(a - 1);
  }

  lemma {:induction false} AlignSize(n: nat, d: nat, k: nat, b: nat)
    requires b > 0 && 0 < Pow2(b - 1) <= d < Pow2(b) && n < Pow2(k + b)
    ensures Pow2(k) <= d * Pow2(k) < Pow2(k + b) && n < 2 * (d * Pow2(k))
  {
    Pow2Less(b - 1);
    Pow2Add(k, b);
    var p, h := Pow2(k), Pow2(b - 1);
    hide Pow2;
    AlignProducts(d, h, p, Pow2(k + b));
  }

  lemma {:induction false} AlignProducts(d: nat, h: nat, p: nat, t: nat)
    requires 0 < h <= d < 2 * h && p > 0 && t == p * (2 * h)
    ensures p <= d * p < t <= 2 * (d * p)
  {
    MulLe(h, d, p);
    MulLe(1, d, p);
    MulLe(d + 1, 2 * h, p);
    TwiceProduct(p, h, 2 * h);
    Factor(1, d, p, p);
  }

  /** The first state of the division; a shifted divisor above the dividend was
      shifted at least once. */
  lemma {:induction false} AlignDone(n: nat, d: nat, m: nat)
    requires 0 < d < n < 2 * (d * Pow2(m)) && d * Pow2(m) < 2 * n
    ensures n >= d * Pow2(m) ==> Shifted(n, d, m, d * Pow2(m), 1 * Pow2(m), 0, n, 0)
    ensures n < d * Pow2(m) ==>
      && m > 0 && Shifted(n, d, m - 1, d * Pow2(m) / 2, 1 * Pow2(m) / 2, 0, n, 0)
      && d * Pow2(m) / 2 == d * (1 * Pow2(m) / 2) && d * Pow2(m) / 2 <= n < 2 * (d * Pow2(m) / 2)
  {
    if n < d * Pow2(m) && m > 0 { TwiceProduct(d, Pow2(m - 1), Pow2(m)); }
  }

  /** Subtracts ever smaller shifts of the divisor; each turn keeps the shifted divisor
      at the divisor times its adder and the remainder below twice that. */
  method LongDivision(lhs: U256, rhs: U256) returns (d: Division<U256>)
    requires 1 < Value(rhs) < Value(lhs)
    ensures d.Quotients? && Divides(Value(lhs), Value(rhs), Value(d.q), Value(d.r))
  {
    hide Value, Less256, Shr256, Pow2;
    var q, r := ZERO256, lhs;
    ghost var k: nat, m: int := 0, 0;
    var copyd, adder;
    SmallValues();
    copyd, adder, m := Align(lhs, rhs);
    Less256Means(rhs, r);
    while Less256(rhs, r) || r == rhs
      invariant if m >= 0 then Shifted(Value(lhs), Value(rhs), m, Value(copyd), Value(adder), Value(q), Value(r), k)
                else m == -1 && Divides(Value(lhs), Value(rhs), Value(q), Value(r))
      invariant Less256(rhs, r) <==> Value(rhs) < Value(r)
      invariant r == rhs <==> Value(r) == Value(rhs)
      decreases m
    {
      q, r, k := Turn(Value(lhs), Value(rhs), m, copyd, adder, q, r, k);
      HalvedBits(copyd);
      HalvedBits(adder);
      copyd := Shr256(copyd, ONE256);
      adder := Shr256(adder, ONE256);
      m := m - 1;
      Less256Means(rhs, r);
    }
    return Quotients(q, r);
  }

  /** The remainder, computed as what is left after taking the quotient's multiple
      away. */
  method Mod256(lhs: U256, rhs: U256) returns (d: Division<U256>)
    ensures d.DivisionByZero? <==> Value(rhs) == 0
    ensures d.Quotients? ==> Value(d.q) == Value(lhs) / Value(rhs) && Value(d.r) == Value(lhs) % Value(rhs)
  {
    hide Value, Sub256;
    d := DivMod256(lhs, rhs);
    if d.DivisionByZero? {
      return;
    }
    DividesUnique(Value(lhs), Value(rhs), Value(d.q), Value(d.r));
    var multiple := Mul256(rhs, d.q);
    Exactly(Value(lhs), Value(rhs), Value(d.q), Value(d.r));
    Exact256(lhs, multiple);
    d := Quotients(d.q, Sub256(lhs, multiple));
  }

  lemma {:induction false} Exactly(n: nat, d: nat, q: nat, r: nat)
    requires Divides(n, d, q, r) && n < W256
    ensures (d * q) % W256 == q * d == n - r
  {
    assert d * q == q * d;
    ModIs(d * q, W256, 0, q * d);
  }
}
