/** IEEE 754 binary64 multiplication rebuilt from 64-bit integers (gear_optimizer/gpu/scoring.py), against the standard's
    own terms: binary64 values (sections 3.3 and 3.4 of IEEE 754-2019) and roundTiesToEven (section 4.3.1). */
module Float64 {
  import opened Arithmetic
  import opened Words

  const FRACTION: nat := 52
  const BIAS: nat := 1023
  const SCALE: nat := 1074  // every finite binary64 number is a multiple of 2^-1074

  // ---- 64-bit arithmetic, wrapping around.

  function Add64(x: nat, y: nat): nat { (x + y) % Pow2(WORD_BITS) }

  function Sub64(x: nat, y: nat): nat { (x + (Pow2(WORD_BITS) - y % Pow2(WORD_BITS))) % Pow2(WORD_BITS) }

  function Mul64(x: nat, y: nat): nat { (x * y) % Pow2(WORD_BITS) }

  // ---- Binary64 values.

  function Exponent(x: nat): nat { Shr(x, FRACTION) }

  function Fraction(x: nat): nat { x % Pow2(FRACTION) }

  /** A non-negative finite number's bits. */
  predicate IsFinite(x: nat) { Exponent(x) < 2047 }

  predicate IsNormal(x: nat) { 1 <= Exponent(x) < 2047 }

  /** Its value in units of 2^-1074. */
  function Units(x: nat): nat { FieldUnits(Exponent(x), Fraction(x)) }

  function FieldUnits(exponent: nat, fraction: nat): nat {
    if exponent == 0 then fraction else (Pow2(FRACTION) + fraction) * Pow2(exponent - 1)
  }

  function Distance(x: int, y: int): nat { if x >= y then x - y else y - x }

  /** How far a value in units of 2^-1074 is from an exact one in units of 2^-2148. */
  function Error(units: nat, exact: nat): nat { Distance(units * Pow2(SCALE), exact) }

  /** The bits of positive infinity. */
  const INFINITY: nat := 0x7FF0_0000_0000_0000

  /** At or past the midpoint between the largest finite number and what would follow it. */
  predicate Overflows(exact: nat) { exact >= (Pow2(FRACTION + 2) - 1) * Pow2(2044) * Pow2(SCALE) }

  /** roundTiesToEven of an exact value in units of 2^-2148: infinity where it overflows, else the nearest finite number. */
  ghost predicate IsRounded(r: nat, exact: nat) { if Overflows(exact) then r == INFINITY else IsNearest(r, exact) }

  /** No finite number is nearer, and on a tie the fraction is even. */
  ghost predicate IsNearest(r: nat, exact: nat) {
    IsFinite(r)
    && forall z: nat :: IsFinite(z) && Units(z) != Units(r) ==>
         Error(Units(r), exact) < Error(Units(z), exact)
         || (Error(Units(r), exact) == Error(Units(z), exact) && Fraction(r) % 2 == 0)
  }

  /** The exact value is in the range of normal results: from the smallest normal number to below the midpoint past
      the largest finite one. */
  predicate InNormalRange(exact: nat) {
    Pow2(FRACTION) * Pow2(SCALE) <= exact && !Overflows(exact)
  }

  // ---- The product.

  function HiddenMantissa(x: nat): nat {
    Or(And(x, Pow2(FRACTION) - 1), Pow2(FRACTION))
  }

  /** The 128-bit product of two 53-bit mantissas in 32-bit halves: its high and low words. */
  function MantissaProduct(am: nat, bm: nat): (nat, nat) {
    var aHigh, aLow := Shr(am, 32), And(am, Pow2(32) - 1);
    var bHigh, bLow := Shr(bm, 32), And(bm, Pow2(32) - 1);
    var low := Mul64(aLow, bLow);
    var middle := Add64(Add64(Mul64(aLow, bHigh), Mul64(aHigh, bLow)), Shr(low, 32));
    (Add64(Mul64(aHigh, bHigh), Shr(middle, 32)), Or(Shl(middle, 32), And(low, Pow2(32) - 1)))
  }

  /** The top 53 bits of the product rounded to nearest, ties to even. */
  function RoundedMantissa(high: nat, low: nat, shift: nat): nat {
    var mantissa := Or(Shl(high, Sub64(64, shift)), Shr(low, shift));
    var half := Shl(1, Sub64(shift, 1));
    var dropped := And(low, Sub64(Shl(half, 1), 1));
    if dropped > half || (dropped == half && And(mantissa, 1) != 0) then Add64(mantissa, 1) else mantissa
  }

  function Product(a: nat, b: nat): nat {
    var (high, low) := MantissaProduct(HiddenMantissa(a), HiddenMantissa(b));
    var carry := Shr(high, 41);
    var mantissa := RoundedMantissa(high, low, Add64(52, carry));
    // Added, not or-ed: a mantissa rounded up to 2^53 carries into the exponent.
    var exponent := Sub64(Add64(Add64(Shr(a, 52), Shr(b, 52)), carry), BIAS);
    Add64(Shl(exponent, 52), Sub64(mantissa, Pow2(FRACTION)))
  }

  // ---- Arithmetic on powers of two.

  lemma Powers()
    ensures Pow2(11) == 0x800 && Pow2(12) == 0x1000 && Pow2(21) == 0x20_0000 && Pow2(32) == 0x1_0000_0000
    ensures Pow2(41) == 0x200_0000_0000 && Pow2(42) == 0x400_0000_0000
    ensures Pow2(52) == 0x10_0000_0000_0000 && Pow2(53) == 0x20_0000_0000_0000 && Pow2(54) == 0x40_0000_0000_0000
    ensures Pow2(64) == 0x1_0000_0000_0000_0000
  {
    assert Pow2(10) == 1024;
    Pow2Add(10, 1);
    Pow2Add(10, 10);
    Pow2Add(20, 1);
    Pow2Add(21, 11);
    Pow2Add(21, 20);
    Pow2Add(32, 10);
    Pow2Add(42, 10);
    Pow2Add(32, 32);
    assert Pow2(53) == 2 * Pow2(52) && Pow2(54) == 2 * Pow2(53) && Pow2(12) == 2 * Pow2(11);
  }

  lemma SmallMod(x: nat, m: nat)
    requires x < m
    ensures x % m == x
  {
  }

  lemma ProductBelow(x: nat, y: nat, a: nat, b: nat)
    requires x < a && y < b
    ensures x * y < a * b && x * y <= (a - 1) * (b - 1)
  {
    MulMono(x, a - 1, y);
    MulMono(y, b - 1, a - 1);
    assert (a - 1) * (b - 1) == a * b - a - b + 1;
  }

  lemma MantissaIs(x: nat)
    ensures HiddenMantissa(x) == Pow2(FRACTION) + Fraction(x) && Fraction(x) < Pow2(FRACTION)
  {
    hide Pow2, And, Or;
    AndLowMask(x, FRACTION);
    OrDisjoint(1, Fraction(x), FRACTION);
    OrComm(Fraction(x), Pow2(FRACTION));
  }

  /** The two words are the exact product. */
  lemma MantissaProductIs(am: nat, bm: nat)
    requires am < Pow2(53) && bm < Pow2(53)
    ensures var (high, low) := MantissaProduct(am, bm);
            high * Pow2(64) + low == am * bm && low < Pow2(64) && high < Pow2(42)
  {
    hide Add64, Or, And, Shr, Shl;
    Powers();
    var B := 0x1_0000_0000;
    ShrDiv(am, 32);
    ShrDiv(bm, 32);
    AndLowMask(am, 32);
    AndLowMask(bm, 32);
    HalvesProduct(am / B, am % B, bm / B, bm % B, am, bm);
  }

  lemma HalvesProduct(aH: nat, aL: nat, bH: nat, bL: nat, am: nat, bm: nat)
    requires am == aH * 0x1_0000_0000 + aL && bm == bH * 0x1_0000_0000 + bL
    requires aL < 0x1_0000_0000 && bL < 0x1_0000_0000 && aH < 0x20_0000 && bH < 0x20_0000
    ensures var low := Mul64(aL, bL);
            var middle := Add64(Add64(Mul64(aL, bH), Mul64(aH, bL)), Shr(low, 32));
            var high := Add64(Mul64(aH, bH), Shr(middle, 32));
            var word := Or(Shl(middle, 32), And(low, Pow2(32) - 1));
            high * Pow2(64) + word == am * bm && word < Pow2(64) && high < Pow2(42)
  {
    hide Add64, Or, And, Shr, Shl, Mul64, Times, Pow2;
    MulFits(aL, bL, 0x1_0000_0000, 0x1_0000_0000);
    MulFits(aL, bH, 0x1_0000_0000, 0x20_0000);
    MulFits(aH, bL, 0x20_0000, 0x1_0000_0000);
    MulFits(aH, bH, 0x20_0000, 0x20_0000);
    Halves(aH, aL, bH, bL, am, bm);
    SumsFit(Times(aL, bL), Times(aL, bH), Times(aH, bL), Times(aH, bH), Times(am, bm));
    TimesIs(am, bm);
  }

  function Times(x: nat, y: nat): nat { x * y }

  lemma TimesIs(x: nat, y: nat)
    ensures Times(x, y) == x * y
  {
  }

  lemma MulFits(x: nat, y: nat, a: nat, b: nat)
    requires x < a && y < b && a * b <= 0x1_0000_0000_0000_0000
    ensures Mul64(x, y) == Times(x, y) && Times(x, y) < a * b
  {
    Powers();
    ProductBelow(x, y, a, b);
    SmallMod(x * y, Pow2(64));
  }

  lemma Halves(aH: nat, aL: nat, bH: nat, bL: nat, am: nat, bm: nat)
    requires am == aH * 0x1_0000_0000 + aL && bm == bH * 0x1_0000_0000 + bL
    requires aL < 0x1_0000_0000 && bL < 0x1_0000_0000 && aH < 0x20_0000 && bH < 0x20_0000
    ensures Times(am, bm) == Times(aH, bH) * 0x1_0000_0000_0000_0000 + (Times(aL, bH) + Times(aH, bL)) * 0x1_0000_0000 + Times(aL, bL)
    ensures Times(am, bm) < 0x400_0000_0000 * 0x1_0000_0000_0000_0000
  {
    ProductBelow(am, bm, 0x20_0000_0000_0000, 0x20_0000_0000_0000);
    assert am * bm == (aH * 0x1_0000_0000) * bm + aL * bm;
    assert (aH * 0x1_0000_0000) * bm == (aH * bH) * 0x1_0000_0000_0000_0000 + (aH * bL) * 0x1_0000_0000;
    assert aL * bm == (aL * bH) * 0x1_0000_0000 + aL * bL;
  }

  lemma SumsFit(ll: nat, lh: nat, hl: nat, hh: nat, product: nat)
    requires ll < 0x1_0000_0000_0000_0000 && lh < 0x20_0000_0000_0000 && hl < 0x20_0000_0000_0000 && hh < 0x400_0000_0000
    requires product == hh * 0x1_0000_0000_0000_0000 + (lh + hl) * 0x1_0000_0000 + ll
    requires product < 0x400_0000_0000 * 0x1_0000_0000_0000_0000
    ensures var middle := Add64(Add64(lh, hl), Shr(ll, 32));
            var high := Add64(hh, Shr(middle, 32));
            var word := Or(Shl(middle, 32), And(ll, Pow2(32) - 1));
            high * Pow2(64) + word == product && word < Pow2(64) && high < Pow2(42)
  {
    hide Or, And, Shl, Shr, Add64, Pow2;
    Powers();
    var B, middle := 0x1_0000_0000, lh + hl + ll / 0x1_0000_0000;
    ShrDiv(ll, 32);
    ShrDiv(middle, 32);
    AndLowMask(ll, 32);
    AddFits(lh, hl);
    AddFits(lh + hl, ll / B);
    AddFits(hh, middle / B);
    ShiftWord(middle);
    OrDisjoint(middle % B, ll % B, 32);
  }

  lemma AddFits(x: nat, y: nat)
    requires x + y < Pow2(64)
    ensures Add64(x, y) == x + y
  {
    hide Pow2;
    SmallMod(x + y, Pow2(64));
  }

  lemma ShiftWord(middle: nat)
    ensures Shl(middle, 32) == (middle % Pow2(32)) * Pow2(32)
  {
    Powers();
    var B := 0x1_0000_0000;
    var q, r := middle / B, middle % B;
    assert middle * B == (B * B) * q + r * B;
    ModOfSum(q, B * B, r * B);
  }

  // ---- Rounding to an integer multiple, ties to even.

  function RoundHalfEven(n: nat, f: nat): nat
    requires f > 0
  {
    var q, d := n / f, n % f;
    if 2 * d > f || (2 * d == f && q % 2 == 1) then q + 1 else q
  }

  lemma MultipleGap(k: nat, q: nat, f: nat)
    ensures k < q ==> k * f <= q * f - f
    ensures k > q ==> k * f >= q * f + f
    ensures k > q + 1 ==> k * f >= q * f + 2 * f
  {
    assert (k - q) * f == k * f - q * f;
    if k < q { MulMono(k - q, -1, f); }
    if k > q { MulMono(1, k - q, f); }
    if k > q + 1 { MulMono(2, k - q, f); }
  }

  lemma DivMod(n: nat, f: nat)
    requires f > 0
    ensures n == (n / f) * f + n % f && 0 <= n % f < f
  {
  }

  /** No multiple of f is nearer, and a tie goes to the even one. */
  lemma NearestMultiple(n: nat, f: nat, k: nat)
    requires f > 0
    ensures var r := RoundHalfEven(n, f);
            && Distance(r * f, n) <= Distance(k * f, n)
            && (k != r && Distance(r * f, n) == Distance(k * f, n) ==> r % 2 == 0)
  {
    DivMod(n, f);
    NearestOfNeighbours(n, f, n / f, n % f, k);
  }

  lemma NearestOfNeighbours(n: nat, f: nat, q: nat, d: nat, k: nat)
    requires n == q * f + d && d < f
    ensures var r := if 2 * d > f || (2 * d == f && q % 2 == 1) then q + 1 else q;
            && Distance(r * f, n) <= Distance(k * f, n)
            && (k != r && Distance(r * f, n) == Distance(k * f, n) ==> r % 2 == 0)
  {
    hide Distance;
    var up := 2 * d > f || (2 * d == f && q % 2 == 1);
    var r := if up then q + 1 else q;
    MultipleGap(k, q, f);
    MultipleGap(k, r, f);
    NextMultiple(q, f);
    NearestCases(n, f, q * f, d, k * f, q % 2 == 1, k < q, k > q + 1);
  }

  lemma NextMultiple(q: nat, f: nat)
    ensures (q + 1) * f == q * f + f
  {
  }

  lemma NearestCases(n: nat, f: nat, low: nat, d: nat, other: nat, odd: bool, below: bool, above: bool)
    requires n == low + d && d < f
    requires if below then other <= low - f else if above then other >= low + 2 * f else other == low || other == low + f
    ensures var up := 2 * d > f || (2 * d == f && odd);
            var near := if up then low + f else low;
            Distance(near, n) <= Distance(other, n) && (other != near && Distance(near, n) == Distance(other, n) ==> 2 * d == f && up == odd)
  {
  }

  lemma ModShift(x: nat, m: nat)
    requires x < m
    ensures (x + m) % m == x
  {
    ModOfSum(1, m, x);
  }

  lemma SmallSub(x: nat, y: nat)
    requires y <= x < Pow2(64)
    ensures Sub64(x, y) == x - y
  {
    hide Pow2;
    SmallMod(y, Pow2(64));
    ModShift(x - y, Pow2(64));
  }

  /** The mantissa is the product's top 53 bits, rounded half to even. */
  lemma RoundedMantissaIs(high: nat, low: nat, shift: nat)
    requires 52 <= shift <= 53 && low < Pow2(64) && high < Pow2(shift - 11)
    ensures RoundedMantissa(high, low, shift) == RoundHalfEven(high * Pow2(64) + low, Pow2(shift))
    ensures RoundedMantissa(high, low, shift) <= Pow2(53)
  {
    hide And, Or, Shl, Shr, Sub64, Add64, Pow2, RoundHalfEven, RoundedMantissa;
    var F, n := Pow2(shift), high * Pow2(64) + low;
    TopWord(high, low, shift);
    DroppedBits(low, shift);
    RoundedParts(high, low, shift, n / F, low % F);
    HalfUp(n, F, n / F, low % F, Pow2(shift - 1));
  }

  lemma RoundedParts(high: nat, low: nat, shift: nat, q: nat, d: nat)
    requires 52 <= shift <= 53 && q < Pow2(53) && Or(Shl(high, Sub64(64, shift)), Shr(low, shift)) == q
    requires var half := Shl(1, Sub64(shift, 1)); half == Pow2(shift - 1) && And(low, Sub64(Shl(half, 1), 1)) == d
    ensures RoundedMantissa(high, low, shift) == if d > Pow2(shift - 1) || (d == Pow2(shift - 1) && q % 2 != 0) then q + 1 else q
  {
    hide And, Or, Shl, Shr, Sub64, Add64, Pow2;
    AndLowMask(q, 1);
    PowOne();
    AddOne(q);
  }

  lemma TopWord(high: nat, low: nat, shift: nat)
    requires 52 <= shift <= 53 && low < Pow2(64) && high < Pow2(shift - 11)
    ensures Pow2(shift) > 0
    ensures Or(Shl(high, Sub64(64, shift)), Shr(low, shift)) == (high * Pow2(64) + low) / Pow2(shift) < Pow2(53)
    ensures (high * Pow2(64) + low) % Pow2(shift) == low % Pow2(shift)
  {
    hide And, Or, Shl, Shr, Sub64, Pow2;
    RoundedRange(high, low, shift);
    Pow2Add(64 - shift, shift);
    SmallSub(64, shift);
    TopBits(high, low, Pow2(shift), Pow2(64 - shift), Pow2(64));
    ShlSmall(high, 64 - shift);
    ShrDiv(low, shift);
    OrDisjoint(high, low / Pow2(shift), 64 - shift);
  }

  lemma DroppedBits(low: nat, shift: nat)
    requires 52 <= shift <= 53
    ensures Pow2(shift) > 0
    ensures var half := Shl(1, Sub64(shift, 1));
            half == Pow2(shift - 1) && 2 * half == Pow2(shift) && And(low, Sub64(Shl(half, 1), 1)) == low % Pow2(shift)
  {
    hide And, Shl, Sub64, Pow2;
    Powers();
    Pow2Mono(shift, 53);
    Pow2Add(1, shift - 1);
    PowOne();
    SmallSub(shift, 1);
    ShlSmall(1, shift - 1);
    ShlSmall(Pow2(shift - 1), 1);
    SmallSub(Pow2(shift), 1);
    AndLowMask(low, shift);
  }

  lemma AddOne(x: nat)
    requires x < Pow2(53)
    ensures Add64(x, 1) == x + 1
  {
    Powers();
  }

  lemma HalfUp(n: nat, f: nat, q: nat, d: nat, half: nat)
    requires f > 0 && f == 2 * half && n / f == q && n % f == d
    ensures RoundHalfEven(n, f) == if d > half || (d == half && q % 2 != 0) then q + 1 else q
  {
  }

  /** The mantissa has 53 bits, and every intermediate of its rounding fits a word. */
  lemma RoundedRange(high: nat, low: nat, shift: nat)
    requires 52 <= shift <= 53 && low < Pow2(64) && high < Pow2(shift - 11)
    ensures high * Pow2(64 - shift) + low / Pow2(shift) < Pow2(53) && high * Pow2(64 - shift) < Pow2(64)
    ensures 0 < Pow2(shift) < Pow2(64) && Pow2(shift - 1) < Pow2(64) && 64 < Pow2(64)
  {
    hide Pow2;
    Powers();
    Pow2Add(64 - shift, shift);
    Pow2Add(shift - 11, 64 - shift);
    Pow2Mono(shift, 53);
    Pow2Mono(shift - 1, 53);
    MulMono(high + 1, Pow2(shift - 11), Pow2(64 - shift));
    NextMultiple(high, Pow2(64 - shift));
    DivMod(low, Pow2(shift));
    QuotientBelow(low / Pow2(shift), low % Pow2(shift), Pow2(shift), Pow2(64 - shift));
  }

  lemma ShlSmall(x: nat, k: nat)
    requires x * Pow2(k) < Pow2(64)
    ensures Shl(x, k) == x * Pow2(k)
  {
    hide Pow2;
    SmallMod(x * Pow2(k), Pow2(64));
  }

  lemma TopBits(high: nat, low: nat, F: nat, G: nat, W: nat)
    requires F > 0 && G * F == W && low < W
    ensures low / F < G
    ensures (high * W + low) / F == high * G + low / F && (high * W + low) % F == low % F
  {
    var q, r := low / F, low % F;
    DivMod(low, F);
    QuotientBelow(q, r, F, G);
    TopRing(high, G, F, q, r);
    ModOfSum(high * G + q, F, r);
  }

  lemma TopRing(high: nat, G: nat, F: nat, q: nat, r: nat)
    ensures high * (G * F) + (q * F + r) == F * (high * G + q) + r
  {
    assert high * (G * F) == F * (high * G);
  }

  lemma QuotientBelow(q: nat, r: nat, f: nat, bound: nat)
    requires f > 0 && q * f + r < bound * f
    ensures q < bound
  {
    MultipleGap(q, bound, f);
  }

  lemma QuotientAtLeast(q: nat, r: nat, f: nat, bound: nat)
    requires r < f && q * f + r >= bound * f
    ensures q >= bound
  {
    MultipleGap(q, bound, f);
  }

  // ---- The product of two normal numbers.

  function Mantissa(x: nat): nat { Pow2(FRACTION) + Fraction(x) }

  lemma FractionBelow(x: nat)
    ensures Fraction(x) < Pow2(FRACTION)
  {
  }

  /** Whether the 106-bit product's top bit is set. */
  function Carry(a: nat, b: nat): nat { if Mantissa(a) * Mantissa(b) >= Pow2(105) then 1 else 0 }

  function ResultExponent(a: nat, b: nat): int { Exponent(a) + Exponent(b) + Carry(a, b) - BIAS }

  function ResultMantissa(a: nat, b: nat): nat { RoundHalfEven(Mantissa(a) * Mantissa(b), Pow2(52 + Carry(a, b))) }

  lemma ProductRange(a: nat, b: nat)
    ensures Pow2(104) <= Mantissa(a) * Mantissa(b) < Pow2(106)
    ensures Pow2(104 + Carry(a, b)) <= Mantissa(a) * Mantissa(b) < Pow2(105 + Carry(a, b))
  {
    FractionBelow(a);
    FractionBelow(b);
    assert Pow2(53) == 2 * Pow2(52);
    ProductBelow(Mantissa(a), Mantissa(b), Pow2(53), Pow2(53));
    MulMono(Pow2(52), Mantissa(a), Pow2(52));
    MulMono(Pow2(52), Mantissa(b), Mantissa(a));
    Pow2Add(52, 52);
    Pow2Add(53, 53);
  }

  lemma ResultMantissaRange(a: nat, b: nat)
    ensures Pow2(52) <= ResultMantissa(a, b) <= Pow2(53)
  {
    hide Pow2, Mantissa;
    var n, f := Mantissa(a) * Mantissa(b), Pow2(52 + Carry(a, b));
    ProductRange(a, b);
    Pow2Add(52, 52 + Carry(a, b));
    Pow2Add(53, 52 + Carry(a, b));
    DivMod(n, f);
    QuotientAtLeast(n / f, n % f, f, Pow2(52));
    QuotientBelow(n / f, n % f, f, Pow2(53));
  }

  /** The product's mantissa is the rounded one, its exponents added in 64 bits. */
  lemma ProductMantissa(a: nat, b: nat)
    requires IsNormal(a) && IsNormal(b)
    ensures Product(a, b) == Add64(Shl(Sub64(Add64(Add64(Exponent(a), Exponent(b)), Carry(a, b)), BIAS), 52),
                                   Sub64(ResultMantissa(a, b), Pow2(52)))
  {
    hide And, Or, Shl, MantissaProduct, RoundedMantissa, RoundHalfEven, HiddenMantissa, Add64, Sub64, Pow2, Mantissa;
    var carry, n := Carry(a, b), Mantissa(a) * Mantissa(b);
    MantissaBelow(a);
    MantissaBelow(b);
    MantissaProductIs(Mantissa(a), Mantissa(b));
    var (high, low) := MantissaProduct(Mantissa(a), Mantissa(b));
    ProductRange(a, b);
    CarryIs(high, low, n, carry);
    ShiftIs(carry);
    RoundedMantissaIs(high, low, 52 + carry);
  }

  /** The bits of the product: exponents added, the rounded mantissa's carry included. */
  lemma ProductBits(a: nat, b: nat)
    requires IsNormal(a) && IsNormal(b) && 1 <= ResultExponent(a, b) <= 2046
    ensures Product(a, b) == ResultExponent(a, b) * Pow2(52) + (ResultMantissa(a, b) - Pow2(52))
  {
    hide And, Or, Shl, Product, ResultMantissa, Add64, Sub64, Pow2, Mantissa;
    ProductMantissa(a, b);
    ResultMantissaRange(a, b);
    CombineBits(Exponent(a), Exponent(b), Carry(a, b), ResultMantissa(a, b));
  }

  lemma MantissaBelow(x: nat)
    ensures Mantissa(x) < Pow2(53) && HiddenMantissa(x) == Mantissa(x)
  {
    FractionBelow(x);
    MantissaIs(x);
    assert Pow2(53) == 2 * Pow2(52);
  }

  lemma ShiftIs(carry: nat)
    requires carry <= 1
    ensures Add64(52, carry) == 52 + carry
  {
    Powers();
  }

  lemma CombineBits(ea: nat, eb: nat, carry: nat, mantissa: nat)
    requires ea < 2047 && eb < 2047 && carry <= 1 && 1 <= ea + eb + carry - BIAS && Pow2(52) <= mantissa <= Pow2(53)
    ensures var e := ea + eb + carry - BIAS;
            Add64(Shl(Sub64(Add64(Add64(ea, eb), carry), BIAS), 52), Sub64(mantissa, Pow2(52))) == e * Pow2(52) + (mantissa - Pow2(52))
  {
    hide Shl, Sub64, Pow2;
    Powers();
    var e := ea + eb + carry - BIAS;
    SmallSub(ea + eb + carry, BIAS);
    SmallSub(mantissa, Pow2(52));
    ShlSmall(e, 52);
  }

  lemma CarryIs(high: nat, low: nat, n: nat, carry: nat)
    requires n == high * Pow2(64) + low && low < Pow2(64) && Pow2(104 + carry) <= n < Pow2(105 + carry) && carry <= 1
    ensures Shr(high, 41) == carry && high < Pow2(52 + carry - 11)
  {
    Powers();
    ShrDiv(high, 41);
    Pow2Add(41, 64);
    Pow2Add(42, 64);
    QuotientBelow(high, low, Pow2(64), Pow2(41 + carry));
    if carry == 1 { QuotientAtLeast(high, low, Pow2(64), Pow2(41)); }
  }

  // ---- The product is the rounded exact product.

  /** The exact product, in units of 2^-2148. */
  function ExactProduct(a: nat, b: nat): nat { Times(Units(a), Units(b)) }

  lemma NormalUnits(x: nat)
    requires IsNormal(x)
    ensures Units(x) == Mantissa(x) * Pow2(Exponent(x) - 1)
  {
  }

  lemma ExactIs(a: nat, b: nat)
    requires IsNormal(a) && IsNormal(b)
    ensures ExactProduct(a, b) == (Mantissa(a) * Mantissa(b)) * Pow2(Exponent(a) + Exponent(b) - 2)
  {
    hide Units, Mantissa, Pow2;
    NormalUnits(a);
    NormalUnits(b);
    Pow2Add(Exponent(a) - 1, Exponent(b) - 1);
    Regroup(Mantissa(a), Pow2(Exponent(a) - 1), Mantissa(b), Pow2(Exponent(b) - 1));
  }

  lemma Regroup(x: nat, p: nat, y: nat, q: nat)
    ensures (x * p) * (y * q) == (x * y) * (p * q)
  {
    assert (x * p) * (y * q) == x * (p * (y * q));
    assert p * (y * q) == y * (p * q);
  }

  lemma {:induction false} Pow2Strict(x: nat, y: nat)
    requires Pow2(x) < Pow2(y)
    ensures x < y
  {
    if x >= y { Pow2Mono(y, x); }
  }

  /** In the normal range the exponent fits, and so does a mantissa carry into it. */
  lemma ExponentFits(a: nat, b: nat)
    requires IsNormal(a) && IsNormal(b) && InNormalRange(ExactProduct(a, b))
    ensures 1 <= ResultExponent(a, b) <= 2046
    ensures ResultExponent(a, b) == 2046 ==> ResultMantissa(a, b) < Pow2(53)
  {
    hide Units, Mantissa, Pow2, RoundHalfEven;
    var n, carry, d := Mantissa(a) * Mantissa(b), Carry(a, b), Exponent(a) + Exponent(b) - 2;
    ExactIs(a, b);
    ProductRange(a, b);
    Pow2Add(52, SCALE);
    PowersOrder(n, d, 105 + carry, 52 + SCALE);
    TopIs();
    PowersOrderAbove(n, d, 104 + carry, 54 + 2044 + SCALE);
    if ResultExponent(a, b) == 2046 {
      // 2^(52 + carry) x 2^d is 2 x top: the mantissa stays below the midpoint past the largest one.
      Pow2Add(52 + carry, d);
      Pow2Add(1, 2044 + SCALE);
      Pow2Add(1, 53);
      PowOne();
      BelowMidpoint(n, Pow2(52 + carry), Pow2(d), Pow2(2044 + SCALE), Pow2(53));
    }
  }

  lemma PowersOrder(n: nat, d: nat, high: nat, low: nat)
    requires n < Pow2(high) && Pow2(low) <= n * Pow2(d)
    ensures low < high + d
  {
    hide Pow2;
    Pow2Add(high, d);
    MulMono(n + 1, Pow2(high), Pow2(d));
    assert (n + 1) * Pow2(d) == n * Pow2(d) + Pow2(d);
    Pow2Strict(low, high + d);
  }

  lemma PowersOrderAbove(n: nat, d: nat, low: nat, high: nat)
    requires Pow2(low) <= n && n * Pow2(d) < Pow2(high)
    ensures low + d < high
  {
    hide Pow2;
    Pow2Add(low, d);
    MulMono(Pow2(low), n, Pow2(d));
    Pow2Strict(low + d, high);
  }

  /** The midpoint past the largest finite number, over one power. */
  lemma TopIs()
    ensures (Pow2(54) - 1) * Pow2(2044) * Pow2(SCALE) == (Pow2(54) - 1) * Pow2(2044 + SCALE)
    ensures (Pow2(54) - 1) * Pow2(2044 + SCALE) < Pow2(54 + 2044 + SCALE)
  {
    hide Pow2;
    Pow2Add(2044, SCALE);
    Pow2Add(54, 2044 + SCALE);
    Associate(Pow2(54) - 1, Pow2(2044), Pow2(SCALE));
    LessOne(Pow2(54), Pow2(2044 + SCALE));
  }

  lemma LessOne(x: int, y: int)
    ensures (x - 1) * y == x * y - y
  {
  }

  lemma PowOne()
    ensures Pow2(1) == 2
  {
  }

  lemma Associate(x: int, y: int, z: int)
    ensures x * y * z == x * (y * z)
  {
  }

  /** n d < (2 m - 1) top with f d = 2 top: n rounds below m multiples of f. */
  lemma BelowMidpoint(n: nat, f: nat, d: nat, top: nat, m: nat)
    requires f > 0 && m > 0 && f * d == 2 * top && n * d < (2 * m - 1) * top
    ensures RoundHalfEven(n, f) < m
  {
    var q, r := n / f, n % f;
    DivMod(n, f);
    Associate(2 * m - 1, f, d);
    Associate(2, n, d);
    TwiceOut(2 * m - 1, top);
    CancelLess(2 * n, (2 * m - 1) * f, d);
    assert (2 * m - 1) * f == 2 * (m * f) - f;
    QuotientBelow(q, r, f, m);
    LessOne(m, f);
  }

  lemma TwiceOut(x: int, y: int)
    ensures x * (2 * y) == 2 * (x * y)
  {
  }

  lemma CancelLess(x: int, y: int, d: nat)
    requires x * d < y * d
    ensures x < y
  {
    if x >= y { MulMono(y, x, d); }
  }

  /** The result's value: the rounded mantissa at the result's exponent. */
  lemma ResultUnits(a: nat, b: nat)
    requires IsNormal(a) && IsNormal(b) && 1 <= ResultExponent(a, b) <= 2046
    requires ResultExponent(a, b) == 2046 ==> ResultMantissa(a, b) < Pow2(53)
    ensures IsNormal(Product(a, b))
    ensures Units(Product(a, b)) == ResultMantissa(a, b) * Pow2(ResultExponent(a, b) - 1)
    ensures Fraction(Product(a, b)) % 2 == ResultMantissa(a, b) % 2
  {
    hide Product, ResultMantissa, Carry, Pow2;
    ProductBits(a, b);
    ResultMantissaRange(a, b);
    BitsUnits(Product(a, b), ResultExponent(a, b), ResultMantissa(a, b));
  }

  lemma BitsUnits(x: nat, e: nat, m: nat)
    requires 1 <= e <= 2046 && Pow2(52) <= m <= Pow2(53) && (e == 2046 ==> m < Pow2(53))
    requires x == e * Pow2(52) + (m - Pow2(52))
    ensures IsNormal(x) && Units(x) == m * Pow2(e - 1) && Fraction(x) % 2 == m % 2
  {
    hide Pow2;
    Powers();
    ShrDiv(x, 52);
    if m < Pow2(53) {
      FieldsOf(e, m - Pow2(52), x);
    } else {
      FieldsOf(e + 1, 0, x);
      Pow2Add(1, e - 1);
      PowOne();
      assert Pow2(52) * (2 * Pow2(e - 1)) == Pow2(53) * Pow2(e - 1);
    }
  }

  lemma FieldsOf(e: nat, f: nat, x: nat)
    requires f < Pow2(52) && x == e * Pow2(52) + f
    ensures x / Pow2(52) == e && x % Pow2(52) == f
  {
    hide Pow2;
    assert e * Pow2(52) == Pow2(52) * e;
    ModOfSum(e, Pow2(52), f);
  }

  /** Every finite number is either a multiple of 2^(e-1) units or below 2^52 of them. */
  lemma UnitsOrBelow(z: nat, e: nat) returns (k: nat)
    requires IsFinite(z) && 1 <= e
    ensures Units(z) == k * Pow2(e - 1) || (Units(z) < Pow2(52) * Pow2(e - 1) && k == 0)
  {
    hide Fraction;
    var ez := if Exponent(z) == 0 then 1 else Exponent(z);
    var m := if Exponent(z) == 0 then Fraction(z) else Pow2(FRACTION) + Fraction(z);
    FractionBelow(z);
    assert Pow2(0) == 1;
    assert Units(z) == m * Pow2(ez - 1);
    if ez >= e {
      k := m * Pow2(ez - e);
      Pow2Add(ez - e, e - 1);
      Associate(m, Pow2(ez - e), Pow2(e - 1));
    } else {
      k := 0;
      assert Pow2(53) == 2 * Pow2(52) && Pow2(e - 1) == 2 * Pow2(e - 2);
      Pow2Mono(ez - 1, e - 2);
      assert m < Pow2(53);
      SmallerUnits(m, Pow2(ez - 1), Pow2(52), Pow2(e - 2));
    }
  }

  lemma SmallerUnits(m: nat, p: nat, h: nat, q: nat)
    requires m < 2 * h && 0 < p <= q
    ensures m * p < h * (2 * q)
  {
    MulMono(p, q, m);
    MulMono(m + 1, 2 * h, q);
    assert (m + 1) * q == m * q + q && (2 * h) * q == h * (2 * q);
  }

  /** The product of two positive normal numbers with a result in the normal range is their exact product rounded to
      nearest, ties to even. */
  lemma ProductIsRounded(a: nat, b: nat)
    requires IsNormal(a) && IsNormal(b) && InNormalRange(ExactProduct(a, b))
    ensures IsNormal(Product(a, b)) && IsRounded(Product(a, b), ExactProduct(a, b))
  {
    hide Product, Units, Mantissa, Pow2, ExactProduct, Overflows, IsNearest;
    NearestProduct(a, b);
  }

  lemma NearestProduct(a: nat, b: nat)
    requires IsNormal(a) && IsNormal(b) && InNormalRange(ExactProduct(a, b))
    ensures IsNormal(Product(a, b)) && IsNearest(Product(a, b), ExactProduct(a, b))
  {
    hide Product, Units, Mantissa, Pow2, ExactProduct, InNormalRange, Error, Fraction, ResultMantissa, ResultExponent;
    var r, e, m := Product(a, b), ResultExponent(a, b), ResultMantissa(a, b);
    ExponentFits(a, b);
    ResultUnits(a, b);
    ExactIs(a, b);
    var n, f, d := Mantissa(a) * Mantissa(b), Pow2(52 + Carry(a, b)), Pow2(Exponent(a) + Exponent(b) - 2);
    ResultMantissaRange(a, b);
    Pow2Add(e - 1, SCALE);
    Pow2Add(52 + Carry(a, b), Exponent(a) + Exponent(b) - 2);
    assert e - 1 + SCALE == 52 + Carry(a, b) + (Exponent(a) + Exponent(b) - 2) by { ExponentIs(a, b); }
    MantissaOverScale(a, b, n, f);
    forall z: nat | IsFinite(z) && Units(z) != Units(r)
      ensures Error(Units(r), n * d) < Error(Units(z), n * d) || (Error(Units(r), n * d) == Error(Units(z), n * d) && m % 2 == 0)
    {
      var k := UnitsOrBelow(z, e);
      RoundedNearest(n, f, d, Pow2(e - 1), m, k, Units(z), Pow2(52));
    }
  }

  lemma MantissaOverScale(a: nat, b: nat, n: nat, f: nat)
    requires n == Mantissa(a) * Mantissa(b) && f == Pow2(52 + Carry(a, b))
    ensures ResultMantissa(a, b) == RoundHalfEven(n, f) && Pow2(52) * f <= n
  {
    hide Pow2;
    ProductRange(a, b);
    Pow2Add(52, 52 + Carry(a, b));
  }

  lemma ExponentIs(a: nat, b: nat)
    ensures ResultExponent(a, b) == Exponent(a) + Exponent(b) + Carry(a, b) - BIAS
  {
  }

  lemma RoundedNearest(n: nat, f: nat, d: nat, u: nat, m: nat, k: nat, z: nat, least: nat)
    requires f > 0 && d > 0 && u > 0 && u * Pow2(SCALE) == f * d && m == RoundHalfEven(n, f) && least * f <= n
    requires z == k * u || z < least * u
    requires z != m * u
    ensures Error(m * u, n * d) < Error(z, n * d) || (Error(m * u, n * d) == Error(z, n * d) && m % 2 == 0)
  {
    hide Distance, RoundHalfEven, Pow2;
    var s := Pow2(SCALE);
    MultipleError(m, u, s, f, d, n);
    if z == k * u {
      NearestMultiple(n, f, k);
      MultipleError(k, u, s, f, d, n);
      DistanceOrder(Distance(m * f, n), Distance(k * f, n), d);
    } else {
      NearestMultiple(n, f, least);
      MultipleError(least, u, s, f, d, n);
      MulMono(z + 1, least * u, s);
      assert (z + 1) * s == z * s + s;
      MulMono(least * f, n, d);
      FartherBelow(z * s, least * u * s, n * d);
      DistanceOrder(Distance(m * f, n), Distance(least * f, n), d);
    }
  }

  lemma MultipleError(m: nat, u: nat, s: nat, f: nat, d: nat, n: nat)
    requires u * s == f * d
    ensures (m * u) * s == (m * f) * d && Distance((m * u) * s, n * d) == Distance(m * f, n) * d
  {
    hide Distance;
    Associate(m, u, s);
    Associate(m, f, d);
    ScaledDistance(m * f, n, d);
  }

  lemma ScaledDistance(x: nat, y: nat, d: nat)
    ensures Distance(x * d, y * d) == Distance(x, y) * d
  {
    if x >= y { MulMono(y, x, d); assert (x - y) * d == x * d - y * d; } else { MulMono(x, y, d); assert (y - x) * d == y * d - x * d; }
  }

  lemma DistanceOrder(x: nat, y: nat, d: nat)
    requires d > 0 && x <= y
    ensures x * d <= y * d && (x < y ==> x * d < y * d)
  {
    MulMono(x, y, d);
    if x < y { MulMono(x + 1, y, d); assert (x + 1) * d == x * d + d; }
  }

  lemma FartherBelow(x: nat, y: nat, n: nat)
    requires x < y <= n
    ensures Distance(y, n) < Distance(x, n)
  {
  }

  // ---- Outside the normal range.

  /** The range is exactly where the result's exponent, its carry included, fits. */
  lemma RangeIsExponent(a: nat, b: nat)
    requires IsNormal(a) && IsNormal(b)
    ensures InNormalRange(ExactProduct(a, b)) <==>
              1 <= ResultExponent(a, b) <= 2046 && (ResultExponent(a, b) == 2046 ==> ResultMantissa(a, b) < Pow2(53))
  {
    hide Units, Mantissa, Pow2, RoundHalfEven, InNormalRange;
    var e := ResultExponent(a, b);
    if InNormalRange(ExactProduct(a, b)) {
      ExponentFits(a, b);
    } else if 1 <= e <= 2046 && (e == 2046 ==> ResultMantissa(a, b) < Pow2(53)) {
      ExponentInRange(a, b);
    }
  }

  lemma ExponentInRange(a: nat, b: nat)
    requires IsNormal(a) && IsNormal(b) && 1 <= ResultExponent(a, b) <= 2046
    requires ResultExponent(a, b) == 2046 ==> ResultMantissa(a, b) < Pow2(53)
    ensures InNormalRange(ExactProduct(a, b))
  {
    hide Units, Mantissa, Pow2, RoundHalfEven, InNormalRange;
    var carry := Carry(a, b);
    ExactIs(a, b);
    ProductRange(a, b);
    ProductInRange(Mantissa(a) * Mantissa(b), Exponent(a) + Exponent(b) - 2, carry);
  }

  lemma ProductInRange(n: nat, d: nat, carry: nat)
    requires carry <= 1 && Pow2(104 + carry) <= n < Pow2(105 + carry) && 1022 <= d + carry <= 3067
    requires d + carry == 3067 ==> RoundHalfEven(n, Pow2(52 + carry)) < Pow2(53)
    ensures InNormalRange(n * Pow2(d))
  {
    hide Pow2, RoundHalfEven;
    Pow2Add(52, SCALE);
    AtLeastPower(n, d, 104 + carry, 52 + SCALE);
    TopIs();
    if d + carry < 3067 {
      BelowTop(n, d, 105 + carry);
    } else {
      AtTop(n, d, carry);
    }
  }

  lemma AtTop(n: nat, d: nat, carry: nat)
    requires carry <= 1 && d + carry == 3067 && RoundHalfEven(n, Pow2(52 + carry)) < Pow2(53)
    ensures n * Pow2(d) < (Pow2(54) - 1) * Pow2(2044 + SCALE)
  {
    hide Pow2, RoundHalfEven;
    PowOne();
    Pow2Add(1, 52);
    Pow2Add(1, 53);
    Pow2Add(52 + carry, d);
    Pow2Add(1, 2044 + SCALE);
    UnderMidpoint(n, Pow2(52 + carry), Pow2(d), Pow2(2044 + SCALE), Pow2(53));
  }

  lemma AtLeastPower(n: nat, d: nat, low: nat, least: nat)
    requires Pow2(low) <= n && least <= low + d
    ensures Pow2(least) <= n * Pow2(d)
  {
    hide Pow2;
    Pow2Add(low, d);
    MulMono(Pow2(low), n, Pow2(d));
    Pow2Mono(least, low + d);
  }

  lemma BelowTop(n: nat, d: nat, high: nat)
    requires n < Pow2(high) && high + d <= 53 + 2044 + SCALE
    ensures n * Pow2(d) < (Pow2(54) - 1) * Pow2(2044 + SCALE)
  {
    hide Pow2;
    Pow2Add(high, d);
    MulMono(n + 1, Pow2(high), Pow2(d));
    NextMultiple(n, Pow2(d));
    Pow2Mono(high + d, 53 + 2044 + SCALE);
    Pow2Add(53, 2044 + SCALE);
    Pow2Add(1, 53);
    PowOne();
    MulMono(Pow2(53), Pow2(54) - 1, Pow2(2044 + SCALE));
  }

  /** The converse of BelowMidpoint, for a power of two. */
  lemma UnderMidpoint(n: nat, f: nat, d: nat, top: nat, m: nat)
    requires f > 0 && d > 0 && m > 0 && m % 2 == 0 && f * d == 2 * top && RoundHalfEven(n, f) < m
    ensures n * d < (2 * m - 1) * top
  {
    var q, r := n / f, n % f;
    DivMod(n, f);
    MultipleGap(q, m, f);
    assert 2 * n < 2 * (m * f) - f by {
      MultipleGap(q, m - 1, f);
      LessOne(m, f);
    }
    MulMono(2 * n + 1, 2 * (m * f) - f, d);
    MidpointRing(m, f, d, n, top);
  }

  lemma MidpointRing(m: int, f: int, d: int, n: int, top: int)
    requires f * d == 2 * top
    ensures (2 * n + 1) * d == 2 * (n * d) + d && (2 * (m * f) - f) * d == 2 * ((2 * m - 1) * top)
  {
    assert (2 * (m * f) - f) * d == (2 * m - 1) * (f * d);
    TwiceOut(2 * m - 1, top);
  }

  /** In units of 2^-1074, the last quarter below the smallest normal number, and the quarter before the last half. */
  predicate JustBelowNormal(exact: nat) {
    var s, top := Pow2(SCALE), Pow2(FRACTION + 2);
    && exact < Pow2(FRACTION) * s
    && (4 * exact >= (top - 1) * s || (4 * exact > (top - 3) * s && 4 * exact < (top - 2) * s))
  }

  /** Past the overflow midpoint, up to 2^1024 (1 + 2^-53). */
  predicate JustOverflows(exact: nat) { Overflows(exact) && exact <= (Pow2(FRACTION + 1) + 1) * Pow2(2045) * Pow2(SCALE) }

  /** For all normal operands: the product is the rounded one exactly in the normal range; below it where the fraction of a
      result exponent of 0, which the code does not shift, happens to be the subnormal one; and past it while the mantissa
      field of the result exponent 2047 stays zero, as infinity's is. */
  lemma RoundedExactlyInRange(a: nat, b: nat)
    requires IsNormal(a) && IsNormal(b)
    ensures IsRounded(Product(a, b), ExactProduct(a, b)) <==>
              var exact := ExactProduct(a, b); InNormalRange(exact) || JustBelowNormal(exact) || JustOverflows(exact)
  {
    hide Product, Units, Mantissa, Pow2, ExactProduct, InNormalRange, JustBelowNormal, JustOverflows, Error, Fraction, ResultMantissa,
         ResultExponent, IsRounded, IsNearest, Overflows;
    var e, exact := ResultExponent(a, b), ExactProduct(a, b);
    RangeIsExponent(a, b);
    if InNormalRange(exact) {
      ProductIsRounded(a, b);
    } else if e <= 0 {
      SmallDoesNotOverflow(a, b);
      RoundedBelow(Product(a, b), exact);
      if e == 0 {
        ZeroExponent(a, b);
      } else {
        NotJustBelow(a, b);
        if e == -1 {
          MinusOneExponent(a, b);
        } else {
          OutsideIsNotFinite(a, b);
          NearestIsFinite(Product(a, b), exact);
        }
      }
    } else {
      NotJustBelow(a, b);
      LargeOverflows(a, b);
      InfinityOnly(a, b);
    }
  }

  lemma NearestIsFinite(r: nat, exact: nat)
    requires !IsFinite(r)
    ensures !IsNearest(r, exact)
  {
  }

  lemma RoundedBelow(r: nat, exact: nat)
    requires !Overflows(exact)
    ensures IsRounded(r, exact) <==> IsNearest(r, exact)
    ensures !JustOverflows(exact)
  {
  }

  /** Below the normal exponents nothing overflows. */
  lemma SmallDoesNotOverflow(a: nat, b: nat)
    requires IsNormal(a) && IsNormal(b) && ResultExponent(a, b) <= 0
    ensures !Overflows(ExactProduct(a, b))
  {
    hide Pow2, Mantissa, Units, ExactProduct, ResultExponent;
    var n, f, d := ExactScaled(a, b);
    var e := ResultExponent(a, b);
    Powers();
    TopIs();
    Pow2Mono(e - 1 + SCALE, 2044 + SCALE);
    MulMono(f * d, Pow2(2044 + SCALE), Pow2(53));
    MulMono(Pow2(53), Pow2(54) - 1, Pow2(2044 + SCALE));
  }

  lemma LargeOverflows(a: nat, b: nat)
    requires IsNormal(a) && IsNormal(b) && ResultExponent(a, b) >= 1 && !InNormalRange(ExactProduct(a, b))
    ensures Overflows(ExactProduct(a, b))
  {
    hide Pow2, Mantissa, Units, ExactProduct, ResultExponent;
    var n, f, d := ExactScaled(a, b);
    Pow2Mono(SCALE, ResultExponent(a, b) - 1 + SCALE);
    MulMono(Pow2(SCALE), f * d, Pow2(52));
  }

  /** Past the normal range the product is infinity exactly up to 2^1024 (1 + 2^-53). */
  lemma InfinityOnly(a: nat, b: nat)
    requires IsNormal(a) && IsNormal(b) && Overflows(ExactProduct(a, b)) && ResultExponent(a, b) >= 1
    ensures IsRounded(Product(a, b), ExactProduct(a, b)) <==> JustOverflows(ExactProduct(a, b))
  {
    hide Product, Pow2, Mantissa, Units, ExactProduct, ResultExponent, ResultMantissa, RoundHalfEven, InNormalRange, Overflows;
    var n, f, d := ExactScaled(a, b);
    var e, m := ResultExponent(a, b), ResultMantissa(a, b);
    NotInRange(a, b);
    ResultMantissaRange(a, b);
    LargeBits(a, b);
    Powers();
    MantissaOverScale(a, b, n, f);
    InfinityBound(n, f, d, e, m);
  }

  lemma NotInRange(a: nat, b: nat)
    requires IsNormal(a) && IsNormal(b) && Overflows(ExactProduct(a, b)) && ResultExponent(a, b) >= 1
    ensures ResultExponent(a, b) > 2046 || (ResultExponent(a, b) == 2046 && ResultMantissa(a, b) == Pow2(53))
  {
    hide Pow2, Units, ExactProduct, ResultExponent, ResultMantissa, Overflows;
    RangeIsExponent(a, b);
    ResultMantissaRange(a, b);
  }

  /** Up to the largest sum of exponents the field is not wrapped. */
  lemma LargeBits(a: nat, b: nat)
    requires IsNormal(a) && IsNormal(b) && ResultExponent(a, b) >= 1
    ensures ResultExponent(a, b) <= 3070
    ensures Product(a, b) == ResultExponent(a, b) * Pow2(52) + (ResultMantissa(a, b) - Pow2(52))
  {
    hide And, Or, Shl, Product, ResultMantissa, Add64, Sub64, Pow2, Mantissa;
    ProductMantissa(a, b);
    ResultMantissaRange(a, b);
    CombineBits(Exponent(a), Exponent(b), Carry(a, b), ResultMantissa(a, b));
  }

  /** The exponent 2046 with its carry, or 2047 with a mantissa that rounds to a power of two, is below the bound; nothing
      larger is. */
  lemma InfinityBound(n: nat, f: nat, d: nat, e: int, m: nat)
    requires f > 0 && d > 0 && 1 <= e && f * d == Pow2(e - 1 + SCALE) && Pow2(52) * (f * d) <= n * d < Pow2(53) * (f * d)
    requires m == RoundHalfEven(n, f) && Pow2(52) <= m <= Pow2(53) && (e > 2046 || (e == 2046 && m == Pow2(53)))
    ensures n * d <= (Pow2(53) + 1) * Pow2(2045) * Pow2(SCALE) <==> e * Pow2(52) + (m - Pow2(52)) == INFINITY
  {
    hide Pow2, RoundHalfEven;
    Powers();
    Associate(Pow2(53) + 1, Pow2(2045), Pow2(SCALE));
    Pow2Add(2045, SCALE);
    var u := Pow2(2045 + SCALE);
    if e == 2046 {
      MulMono(Pow2(53), Pow2(53) + 1, u);
    } else if e == 2047 {
      Pow2Add(1, 2045 + SCALE);
      PowOne();
      PowerOrMore(n, f, Pow2(52));
      if 2 * n <= (2 * Pow2(52) + 1) * f {
        DistanceOrder(2 * n, (2 * Pow2(52) + 1) * f, d);
      } else {
        DistanceOrder((2 * Pow2(52) + 1) * f, 2 * n, d);
      }
      Halved(n, f, d, u, Pow2(52));
    } else {
      Pow2Add(2, 2045 + SCALE);
      PowTwo();
      Pow2Mono(2047 + SCALE, e - 1 + SCALE);
      MulMono(4 * u, f * d, Pow2(52));
      FarPast(n * d, f * d, u);
      MulMono(2048, e, Pow2(52));
    }
  }

  lemma Halved(n: nat, f: nat, d: nat, u: nat, k: nat)
    requires f * d == 2 * u
    ensures (2 * n) * d == 2 * (n * d) && ((2 * k + 1) * f) * d == 2 * ((2 * k + 1) * u)
  {
    Associate(2 * k + 1, f, d);
    TwiceOut(2 * k + 1, u);
  }

  lemma FarPast(y: nat, p: nat, u: nat)
    requires u > 0 && 4 * u <= p && Pow2(52) * (4 * u) <= Pow2(52) * p <= y
    ensures y > (Pow2(53) + 1) * u
  {
    hide Pow2;
    Powers();
  }

  /** A quotient of at least k rounds to k exactly up to a half more, k even. */
  lemma PowerOrMore(n: nat, f: nat, k: nat)
    requires f > 0 && k * f <= n && k % 2 == 0
    ensures RoundHalfEven(n, f) == k <==> 2 * n <= (2 * k + 1) * f
  {
    var q, d := n / f, n % f;
    DivMod(n, f);
    MultipleGap(q, k, f);
    assert (2 * k + 1) * f == 2 * (k * f) + f;
  }

  /** The exact product in units of 2^-2148, with the power of two of its result exponent. */
  lemma ExactScaled(a: nat, b: nat) returns (n: nat, f: nat, d: nat)
    requires IsNormal(a) && IsNormal(b)
    ensures n == Mantissa(a) * Mantissa(b) && f == Pow2(52 + Carry(a, b)) && d > 0 && f > 0 && ExactProduct(a, b) == n * d
    ensures ResultExponent(a, b) - 1 + SCALE >= 0 && f * d == Pow2(ResultExponent(a, b) - 1 + SCALE)
    ensures Pow2(52) * (f * d) <= n * d < Pow2(53) * (f * d)
  {
    hide Pow2, Mantissa, Units, ExactProduct;
    n, f, d := Mantissa(a) * Mantissa(b), Pow2(52 + Carry(a, b)), Pow2(Exponent(a) + Exponent(b) - 2);
    ExactIs(a, b);
    ProductRange(a, b);
    ExponentIs(a, b);
    Pow2Add(52 + Carry(a, b), Exponent(a) + Exponent(b) - 2);
    Pow2Add(52, 52 + Carry(a, b));
    Pow2Add(53, 52 + Carry(a, b));
    MulMono(Pow2(52) * f, n, d);
    MulMono(n + 1, Pow2(53) * f, d);
    NextMultiple(n, d);
    Associate(Pow2(52), f, d);
    Associate(Pow2(53), f, d);
  }

  lemma NotJustBelow(a: nat, b: nat)
    requires IsNormal(a) && IsNormal(b) && ResultExponent(a, b) != 0
    ensures !JustBelowNormal(ExactProduct(a, b))
  {
    hide Pow2, Mantissa, Units, ExactProduct, ResultExponent;
    var n, f, d := ExactScaled(a, b);
    var e, s, k := ResultExponent(a, b), Pow2(SCALE), Pow2(52);
    Powers();
    if e >= 1 {
      Pow2Mono(SCALE, e - 1 + SCALE);
      MulMono(s, f * d, k);
    } else {
      Pow2Mono(e - 1 + SCALE, SCALE - 2);
      Pow2Add(2, SCALE - 2);
      PowTwo();
      MulMono(f * d, Pow2(SCALE - 2), Pow2(53));
      QuarterBelow(n * d, Pow2(SCALE - 2), Pow2(53), Pow2(54), s);
    }
  }

  lemma PowTwo()
    ensures Pow2(1) == 2 && Pow2(2) == 4
  {
    assert Pow2(1) == 2;
  }

  lemma QuarterBelow(y: nat, q: nat, k: nat, top: nat, s: nat)
    requires y < k * q && s == 4 * q && top == 2 * k && k >= 3
    ensures 4 * y <= (top - 3) * s && 4 * y < (top - 1) * s
  {
    assert (top - 3) * s == k * s + (k - 3) * s;
    MulMono(0, k - 3, s);
    assert 4 * (k * q) == k * s;
    assert (top - 1) * s == (top - 3) * s + 2 * s;
  }

  /** Up to 2^52 a number's bits are its units. */
  lemma SmallUnits(z: nat)
    requires z <= Pow2(52)
    ensures IsFinite(z) && Units(z) == z && (z < Pow2(52) ==> Fraction(z) == z)
  {
    hide Pow2;
    ShrDiv(z, 52);
    Powers();
    PowZero();
  }

  lemma PowZero()
    ensures Pow2(0) == 1
  {
  }

  /** Nearer than half a unit is rounded; farther than half, or half from an odd fraction, is not. */
  lemma WithinHalf(r: nat, exact: nat)
    requires IsFinite(r) && 2 * Error(Units(r), exact) < Pow2(SCALE)
    ensures IsNearest(r, exact)
  {
    hide Units, Pow2;
    forall z: nat | IsFinite(z) && Units(z) != Units(r) ensures Error(Units(r), exact) < Error(Units(z), exact) {
      MultipleGap(Units(z), Units(r), Pow2(SCALE));
    }
  }

  lemma HalfBelow(r: nat, exact: nat)
    requires IsFinite(r) && Units(r) < Pow2(52) && 2 * exact >= (2 * Units(r) + 1) * Pow2(SCALE)
    requires 2 * exact == (2 * Units(r) + 1) * Pow2(SCALE) ==> Fraction(r) % 2 == 1
    ensures !IsNearest(r, exact)
  {
    hide Units, Pow2, Fraction;
    var z, s := Units(r) + 1, Pow2(SCALE);
    SmallUnits(z);
    NextMultiple(Units(r), s);
    assert (2 * Units(r) + 1) * s == 2 * (Units(r) * s) + s;
    assert Error(Units(z), exact) <= Error(Units(r), exact);
  }

  /** A rounded mantissa is within half a multiple, at half only if it is even. */
  lemma HalfNear(n: nat, f: nat)
    requires f > 0
    ensures var r := RoundHalfEven(n, f); 2 * Distance(r * f, n) <= f && (2 * Distance(r * f, n) == f ==> r % 2 == 0)
  {
    DivMod(n, f);
    NextMultiple(n / f, f);
  }

  /** An exponent of 0: the result's units are its mantissa less 2^52, the exact ones half its mantissa. */
  lemma ZeroExponent(a: nat, b: nat)
    requires IsNormal(a) && IsNormal(b) && ResultExponent(a, b) == 0
    ensures IsNearest(Product(a, b), ExactProduct(a, b)) <==> JustBelowNormal(ExactProduct(a, b))
  {
    hide Product, Pow2, Mantissa, Units, ExactProduct, ResultExponent, RoundHalfEven, Distance, IsNearest, Error, Fraction, JustBelowNormal;
    var n, f, d := ExactScaled(a, b);
    var r, m, h := Product(a, b), ResultMantissa(a, b), Pow2(SCALE - 1);
    EdgeBits(a, b);
    ResultMantissaRange(a, b);
    Powers();
    SmallUnits(r);
    PowOne();
    Pow2Add(1, SCALE - 1);
    HalfNear(n, f);
    ScaledDistance(m * f, n, d);
    Associate(m, f, d);
    DistanceOrder(2 * Distance(m * f, n), f, d);
    EdgeCases(Pow2(52), h, n * d, m);
    JustBelowIs(n * d, h);
    if JustBelowNormal(n * d) {
      ErrorIs(Units(r), n * d, h);
      WithinHalf(r, n * d);
    } else {
      HalfBelow(r, n * d);
    }
  }

  lemma ErrorIs(u: nat, exact: nat, h: nat)
    requires Pow2(SCALE) == 2 * h && Distance(u * (2 * h), exact) < h
    ensures 2 * Error(u, exact) < Pow2(SCALE)
  {
    hide Pow2, Distance;
  }

  lemma JustBelowIs(y: nat, h: nat)
    requires Pow2(SCALE) == 2 * h && y < 2 * (Pow2(52) * h)
    ensures JustBelowNormal(y) <==> EdgeCase(Pow2(52), h, y)
  {
    hide Pow2;
    var k := Pow2(52);
    Powers();
    assert k * (2 * h) == 2 * (k * h);
    assert (4 * k - 1) * (2 * h) == 8 * (k * h) - 2 * h && (4 * k - 2) * (2 * h) == 8 * (k * h) - 4 * h;
    assert (4 * k - 3) * (2 * h) == 8 * (k * h) - 6 * h;
  }

  predicate EdgeCase(k: nat, h: nat, y: nat) {
    var w := 2 * (k * h) - y;
    2 * w <= h || (2 * w < 3 * h && w > h)
  }

  /** With w = 2kh - y and m = 2k - j: w is within half of jh. */
  lemma EdgeCases(k: nat, h: nat, y: nat, m: nat)
    requires h > 0 && k % 2 == 0 && k <= m <= 2 * k && y < 2 * (k * h)
    requires 2 * Distance(m * h, y) <= h && (2 * Distance(m * h, y) == h ==> m % 2 == 0)
    ensures EdgeCase(k, h, y) ==> Distance((m - k) * (2 * h), y) < h
    ensures !EdgeCase(k, h, y) ==> m - k < k && 2 * y >= (2 * (m - k) + 1) * (2 * h)
    ensures !EdgeCase(k, h, y) && 2 * y == (2 * (m - k) + 1) * (2 * h) ==> (m - k) % 2 == 1
  {
    hide Distance, EdgeCase;
    var j: nat := 2 * k - m;
    EdgeRing(k, h, m, j);
    EdgeCaseIs(k, h, y);
    if j >= 2 { MulMono(2, j, h); }
    Parities(k, m, j);
    EdgeOrder(k * h, j, j * h, h, y);
  }

  lemma EdgeRing(k: int, h: int, m: int, j: int)
    requires m == 2 * k - j
    ensures m * h == 2 * (k * h) - j * h && (j == 0 ==> j * h == 0) && (j == 1 ==> j * h == h)
    ensures (m - k) * (2 * h) == 2 * (k * h) - 2 * (j * h)
    ensures (2 * (m - k) + 1) * (2 * h) == 4 * (k * h) - 4 * (j * h) + 2 * h
  {
  }

  lemma EdgeCaseIs(k: nat, h: nat, y: nat)
    requires y < 2 * (k * h)
    ensures var w := 2 * (k * h) - y; EdgeCase(k, h, y) <==> 2 * w <= h || (2 * w < 3 * h && w > h)
  {
  }

  lemma Parities(k: nat, m: nat, j: nat)
    requires k % 2 == 0 && j == 2 * k - m
    ensures j % 2 == m % 2 && (j == 1 && m >= k ==> (m - k) % 2 == 1)
  {
  }

  lemma EdgeOrder(kh: int, j: nat, jh: int, h: int, y: int)
    requires h > 0 && y < 2 * kh && (j == 0 ==> jh == 0) && (j == 1 ==> jh == h) && (j >= 2 ==> jh >= 2 * h)
    requires 2 * Distance(2 * kh - jh, y) <= h && (2 * Distance(2 * kh - jh, y) == h ==> j % 2 == 0)
    ensures var w := 2 * kh - y; var edge := 2 * w <= h || (2 * w < 3 * h && w > h);
            && (edge ==> Distance(2 * kh - 2 * jh, y) < h)
            && (!edge ==> j > 0 && 2 * y >= 4 * kh - 4 * jh + 2 * h)
            && (!edge && 2 * y == 4 * kh - 4 * jh + 2 * h ==> j == 1)
  {
  }

  /** What the product is with an exponent of 0 or -1. */
  lemma EdgeBits(a: nat, b: nat)
    requires IsNormal(a) && IsNormal(b) && -1 <= ResultExponent(a, b) <= 0
    ensures ResultExponent(a, b) == 0 ==> Product(a, b) == ResultMantissa(a, b) - Pow2(52)
    ensures ResultExponent(a, b) == -1 ==> Product(a, b) == 0 || !IsFinite(Product(a, b))
  {
    hide And, Or, Shl, Shr, MantissaProduct, RoundedMantissa, RoundHalfEven, HiddenMantissa, Add64, Sub64, Pow2, Mantissa, Product, ResultMantissa;
    ProductMantissa(a, b);
    ResultMantissaRange(a, b);
    EdgeField(Exponent(a), Exponent(b), Carry(a, b), ResultMantissa(a, b), Product(a, b));
  }

  lemma EdgeField(ea: nat, eb: nat, carry: nat, mantissa: nat, x: nat)
    requires 1 <= ea < 2047 && 1 <= eb < 2047 && carry <= 1 && Pow2(52) <= mantissa <= Pow2(53)
    requires -1 <= ea + eb + carry - BIAS <= 0
    requires x == Add64(Shl(Sub64(Add64(Add64(ea, eb), carry), BIAS), 52), Sub64(mantissa, Pow2(52)))
    ensures ea + eb + carry == BIAS ==> x == mantissa - Pow2(52)
    ensures ea + eb + carry == BIAS - 1 ==> x == 0 || !IsFinite(x)
  {
    hide Pow2, Shl, Shr;
    Powers();
    SmallSub(mantissa, Pow2(52));
    var field := if ea + eb + carry == BIAS then 0 else 0xFFF;
    assert Sub64(ea + eb + carry, BIAS) % 0x1000 == field;
    ShlField(Sub64(ea + eb + carry, BIAS), field);
    ShrDiv(x, 52);
  }

  /** An exponent of -1 wraps to the top, or with the rounding's carry to zero. */
  lemma MinusOneExponent(a: nat, b: nat)
    requires IsNormal(a) && IsNormal(b) && ResultExponent(a, b) == -1
    ensures !IsNearest(Product(a, b), ExactProduct(a, b))
  {
    hide Product, Pow2, Mantissa, Units, ExactProduct, ResultExponent, ResultMantissa, IsNearest, Fraction;
    EdgeBits(a, b);
    var r := Product(a, b);
    if r == 0 {
      var n, f, d := ExactScaled(a, b);
      Powers();
      SmallUnits(0);
      PowTwo();
      Pow2Add(2, SCALE - 2);
      MulMono(4, Pow2(52), f * d);
      HalfBelow(r, n * d);
    } else {
      NearestIsFinite(r, ExactProduct(a, b));
    }
  }

  /** A wrapped or overflowed exponent field is no finite number's. */
  lemma OutsideIsNotFinite(a: nat, b: nat)
    requires IsNormal(a) && IsNormal(b)
    requires ResultExponent(a, b) < -1 || ResultExponent(a, b) > 2046 || (ResultExponent(a, b) == 2046 && ResultMantissa(a, b) >= Pow2(53))
    ensures !IsFinite(Product(a, b))
  {
    hide And, Or, Shl, Shr, MantissaProduct, RoundedMantissa, RoundHalfEven, HiddenMantissa, Add64, Sub64, Pow2, Mantissa;
    ProductMantissa(a, b);
    ResultMantissaRange(a, b);
    WrappedBits(Exponent(a), Exponent(b), Carry(a, b), ResultMantissa(a, b), Product(a, b));
  }

  lemma WrappedBits(ea: nat, eb: nat, carry: nat, mantissa: nat, x: nat)
    requires 1 <= ea < 2047 && 1 <= eb < 2047 && carry <= 1 && Pow2(52) <= mantissa <= Pow2(53)
    requires var e := ea + eb + carry - BIAS; e < -1 || e > 2046 || (e == 2046 && mantissa == Pow2(53))
    requires x == Add64(Shl(Sub64(Add64(Add64(ea, eb), carry), BIAS), 52), Sub64(mantissa, Pow2(52)))
    ensures !IsFinite(x)
  {
    hide Pow2, Shl, Shr;
    Powers();
    var e := ea + eb + carry - BIAS;
    SmallSub(mantissa, Pow2(52));
    var field := if e < 0 then e + 0x1000 else e;
    assert Sub64(ea + eb + carry, BIAS) % 0x1000 == field;
    ShlField(Sub64(ea + eb + carry, BIAS), field);
    ShrDiv(x, 52);
  }

  lemma ShlField(x: nat, field: nat)
    requires x % 0x1000 == field
    ensures Shl(x, 52) == field * 0x10_0000_0000_0000
  {
    hide Pow2;
    Powers();
    assert x == 0x1000 * (x / 0x1000) + field;
  }

  // ---- There is one rounded result.

  lemma NextUnits(x: nat)
    requires IsFinite(x) && IsFinite(x + 1)
    ensures Units(x) < Units(x + 1)
  {
    hide Pow2, FieldUnits;
    var e, f := Exponent(x), Fraction(x);
    ShrDiv(x, 52);
    ShrDiv(x + 1, 52);
    FractionBelow(x);
    DivMod(x, Pow2(52));
    if f + 1 < Pow2(52) {
      FieldsOf(e, f + 1, x + 1);
      NextFraction(e, f);
    } else {
      NextMultiple(e, Pow2(52));
      FieldsOf(e + 1, 0, x + 1);
      CarryUnits(e, f);
    }
  }

  lemma NextFraction(e: nat, f: nat)
    ensures FieldUnits(e, f) < FieldUnits(e, f + 1)
  {
    if e > 0 { NextMultiple(Pow2(52) + f, Pow2(e - 1)); }
  }

  lemma CarryUnits(e: nat, f: nat)
    requires f + 1 == Pow2(52)
    ensures FieldUnits(e, f) < FieldUnits(e + 1, 0)
  {
    if e > 0 {
      assert Pow2(52) * Pow2(e) == (2 * Pow2(52)) * Pow2(e - 1);
      MultipleGap(Pow2(52) + f, 2 * Pow2(52), Pow2(e - 1));
    } else {
      assert Pow2(0) == 1;
    }
  }

  lemma {:induction false} UnitsRise(x: nat, y: nat)
    requires x < y && IsFinite(y)
    ensures IsFinite(x) && Units(x) < Units(y)
    decreases y - x
  {
    hide Units, Pow2;
    ShrDiv(y - 1, 52);
    ShrDiv(y, 52);
    DivRises(y - 1, y, Pow2(52));
    NextUnits(y - 1);
    if x < y - 1 { UnitsRise(x, y - 1); }
  }

  lemma DivRises(x: nat, y: nat, m: nat)
    requires x <= y && m > 0
    ensures x / m <= y / m
  {
    DivMod(x, m);
    DivMod(y, m);
    QuotientAtLeast(y / m, y % m, m, x / m);
  }

  /** There is one rounded value of every exact one, infinity included. */
  lemma RoundingIsUnique(r: nat, r': nat, exact: nat)
    requires IsRounded(r, exact) && IsRounded(r', exact)
    ensures r == r'
  {
    hide Overflows, IsNearest;
    if !Overflows(exact) { NearestIsUnique(r, r', exact); }
  }

  /** Between two even fractions lies a third number, nearer to whatever is midway. */
  lemma NearestIsUnique(r: nat, r': nat, exact: nat)
    requires IsNearest(r, exact) && IsNearest(r', exact)
    ensures r == r'
  {
    hide Units, Pow2;
    if r != r' {
      var low, high := if r < r' then r else r', if r < r' then r' else r;
      UnitsRise(low, high);
      Powers();
      if low + 1 < high {
        UnitsRise(low, low + 1) by { UnitsRise(low + 1, high); }
        UnitsRise(low + 1, high);
        MidwayNearer(Units(low), Units(low + 1), Units(high), exact);
      } else {
        AdjacentParity(low);
      }
    }
  }

  lemma MidwayNearer(low: nat, mid: nat, high: nat, exact: nat)
    requires low < mid < high && Error(low, exact) == Error(high, exact)
    ensures Error(mid, exact) < Error(low, exact)
  {
    hide Pow2;
    MultipleGap(low, mid, Pow2(SCALE));
    MultipleGap(mid, high, Pow2(SCALE));
  }

  lemma AdjacentParity(x: nat)
    ensures Fraction(x) % 2 != Fraction(x + 1) % 2
  {
    Powers();
    DivMod(x, Pow2(52));
    DivMod(x + 1, Pow2(52));
  }

  // ---- Integers to binary64 and back.

  lemma SmallInteger(v: nat)
    requires 0 < v < Pow2(24)
    ensures HighestBit(v) <= 23
  {
    hide Pow2;
    HighestBitBounds(v);
    Pow2Strict(HighestBit(v), 24);
  }

  /** The binary32 bits of a positive integer below 2^24, which that format holds exactly: the exponent of its highest
      bit and the bits below it. */
  function Float32Bits(v: nat): nat
    requires 0 < v < Pow2(24)
  {
    SmallInteger(v);
    (HighestBit(v) + 127) * Pow2(23) + (v * Pow2(23 - HighestBit(v))) % Pow2(23)
  }

  function Float64Of(v: nat): nat
    requires 0 < v < Pow2(24)
  {
    var bits := Float32Bits(v);
    Or(Shl(Add64(Shr(bits, 23), 1023 - 127), 52), Shl(And(bits, Pow2(23) - 1), 29))
  }

  lemma MorePowers()
    ensures Pow2(23) == 0x80_0000 && Pow2(29) == 0x2000_0000 && Pow2(23) * Pow2(29) == Pow2(52)
  {
    Powers();
    Pow2Add(21, 2);
    Pow2Add(21, 8);
    assert Pow2(2) == 4 && Pow2(8) == 256;
    Pow2Add(23, 29);
  }

  /** A positive integer below 2^24 is held exactly. */
  lemma Float64OfIsExact(v: nat)
    requires 0 < v < Pow2(24)
    ensures IsNormal(Float64Of(v)) && Units(Float64Of(v)) == v * Pow2(SCALE)
    ensures Float64Of(v) < Pow2(64)
  {
    hide Or, And, Shl, Pow2, HighestBit, FieldUnits;
    SmallInteger(v);
    var h := HighestBit(v);
    var scaled, bits := v * Pow2(23 - h), Float32Bits(v);
    MorePowers();
    Powers();
    HighestBitBounds(v);
    Pow2Add(h, 23 - h);
    Pow2Add(h + 1, 23 - h);
    MulMono(Pow2(h), v, Pow2(23 - h));
    MulMono(v + 1, Pow2(h + 1), Pow2(23 - h));
    NextMultiple(v, Pow2(23 - h));
    Pow2Add(1, 23);
    PowOne();
    var f := scaled - Pow2(23);
    assert scaled % Pow2(23) == f by { ModOfSum(1, Pow2(23), f); }
    assert (h + 127) * Pow2(23) == Pow2(23) * (h + 127);
    ModOfSum(h + 127, Pow2(23), f);
    ShrDiv(bits, 23);
    AndLowMask(bits, 23);
    SmallMod(h + 1023, Pow2(64));
    MulMono(h + 1023, 2046, Pow2(52));
    ShlSmall(h + 1023, 52);
    MulMono(f, Pow2(23) - 1, Pow2(29));
    LessOne(Pow2(23), Pow2(29));
    ShlSmall(f, 29);
    OrDisjoint(h + 1023, f * Pow2(29), 52);
    FieldsOf(h + 1023, f * Pow2(29), Float64Of(v));
    ShrDiv(Float64Of(v), 52);
    IntegerUnits(v, h, f);
  }

  lemma IntegerUnits(v: nat, h: nat, f: nat)
    requires h <= 23 && Pow2(23) + f == v * Pow2(23 - h)
    ensures FieldUnits(h + 1023, f * Pow2(29)) == v * Pow2(SCALE)
  {
    hide Pow2;
    MorePowers();
    Pow2Add(29, h + 1022);
    Pow2Add(23 - h, h + 1051);
    var a, b, c := Pow2(23 - h), Pow2(29), Pow2(h + 1022);
    assert Pow2(52) + f * b == (v * a) * b;
    Associate(v * a, b, c);
    Associate(v, a, b * c);
  }

  function Float64Floor(x: nat): nat {
    Shr(HiddenMantissa(x), Sub64(1023 + 52, Shr(x, 52)))
  }

  /** The floor of a number of at least 1 and below 2^31. */
  lemma FloorIsExact(x: nat)
    requires IsNormal(x) && Pow2(SCALE) <= Units(x) < Pow2(31) * Pow2(SCALE)
    ensures Float64Floor(x) == Units(x) / Pow2(SCALE)
  {
    hide Pow2, HiddenMantissa, Mantissa, Units;
    var e, m := Exponent(x), Mantissa(x);
    MantissaBelow(x);
    NormalUnits(x);
    MantissaAtLeast(x);
    PowersOrder(m, e - 1, 53, SCALE);
    Pow2Add(31, SCALE);
    PowersOrderAbove(m, e - 1, 52, 31 + SCALE);
    Powers();
    SmallSub(1075, e);
    ShrDiv(m, 1075 - e);
    Pow2Add(1075 - e, e - 1);
    CancelDivision(m, Pow2(1075 - e), Pow2(e - 1));
  }

  lemma MantissaAtLeast(x: nat)
    ensures Pow2(52) <= Mantissa(x)
  {
  }

  lemma CancelDivision(m: nat, q: nat, p: nat)
    requires q > 0 && p > 0
    ensures q * p > 0 && (m * p) / (q * p) == m / q
  {
    var d, r := m / q, m % q;
    DivMod(m, q);
    MulMono(1, q, p);
    CancelRing(d, q, r, p);
    MulMono(r, q - 1, p);
    LessOne(q, p);
    ModOfSum(d, q * p, r * p);
  }

  lemma CancelRing(d: nat, q: nat, r: nat, p: nat)
    ensures (d * q + r) * p == (q * p) * d + r * p
  {
    assert (d * q) * p == (q * p) * d;
  }

  /** A note's exact score: the floor of the rounded product of an integer base and a multiplier. */
  lemma NoteProductFloor(v: nat, multiplier: nat)
    requires 0 < v < Pow2(24) && IsNormal(multiplier)
    requires InNormalRange(v * Pow2(SCALE) * Units(multiplier))
    requires var p := Units(Product(Float64Of(v), multiplier)); Pow2(SCALE) <= p < Pow2(31) * Pow2(SCALE)
    ensures var product := Product(Float64Of(v), multiplier);
            IsRounded(product, v * Pow2(SCALE) * Units(multiplier)) && Float64Floor(product) == Units(product) / Pow2(SCALE)
  {
    hide Product, Float64Of, InNormalRange, IsRounded, Pow2, Units, Float64Floor;
    Float64OfIsExact(v);
    ProductIsRounded(Float64Of(v), multiplier);
    FloorIsExact(Product(Float64Of(v), multiplier));
  }

  /** A note's exact score in fever: the combo's product is rounded, then the fever's, then floored. */
  lemma FeverNoteProductFloor(v: nat, combo: nat, fever: nat)
    requires 0 < v < Pow2(24) && IsNormal(combo) && IsNormal(fever)
    requires InNormalRange(v * Pow2(SCALE) * Units(combo))
    requires InNormalRange(ExactProduct(Product(Float64Of(v), combo), fever))
    requires var p := Units(Product(Product(Float64Of(v), combo), fever)); Pow2(SCALE) <= p < Pow2(31) * Pow2(SCALE)
    ensures var plain, product := Product(Float64Of(v), combo), Product(Product(Float64Of(v), combo), fever);
            && IsRounded(plain, v * Pow2(SCALE) * Units(combo)) && IsRounded(product, Units(plain) * Units(fever))
            && Float64Floor(product) == Units(product) / Pow2(SCALE)
  {
    hide Product, Float64Of, InNormalRange, IsRounded, Pow2, Units, Float64Floor;
    Float64OfIsExact(v);
    ProductIsRounded(Float64Of(v), combo);
    ProductIsRounded(Product(Float64Of(v), combo), fever);
    FloorIsExact(Product(Product(Float64Of(v), combo), fever));
  }
}
