/** A note's score on the GPU (gear_optimizer/gpu/scoring.py, _note_score): single precision settles it unless an integer lies
    within its error, and then the software binary64 product does; the result is always the binary64 product's floor. */
module NoteScores {
  import opened Arithmetic
  import opened Words
  import opened Float64

  /** One single-precision rounding step, relative. */
  const STEP: real := 1.0 / 16777216.0

  /** The relative error the shortcut allows for. */
  const FLOAT32_ERROR: real := 0.0000003

  /** What four steps of single precision, and two of binary64, amount to at most. */
  const FOUR_STEPS: real := 0.0000002385
  const TWO_DOUBLE_STEPS: real := 0.000000000000001

  const DOUBLE_STEP: real := 0.0000000000000002

  /** y is z but for a relative error. */
  predicate Near(y: real, z: real, error: real) { z * (1.0 - error) <= y <= z * (1.0 + error) }

  /** Single-precision rounding of positive numbers; nothing else is known of it. */
  ghost predicate IsRounding(round: real -> real) {
    forall z: real :: z > 0.0 ==> Near(round(z), z, STEP)
  }

  function RealOf(x: nat): real { Units(x) as real / Unit() }

  function Unit(): (u: real)
    ensures u > 0.0
  {
    Pow2(SCALE) as real
  }

  function Mul(x: real, y: real): real { x * y }

  // ---- Relative errors.

  lemma Order(x: real, y: real, k: real)
    requires x <= y && k >= 0.0
    ensures x * k <= y * k && k * x <= k * y
  {
    assert (y - x) * k >= 0.0;
  }

  lemma Weaken(y: real, z: real, e: real, e': real)
    requires Near(y, z, e) && e <= e' && z >= 0.0
    ensures Near(y, z, e')
  {
    Order(1.0 + e, 1.0 + e', z);
    Order(1.0 - e', 1.0 - e, z);
  }

  lemma NearScaled(y: real, z: real, e: real, k: real)
    requires Near(y, z, e) && k >= 0.0
    ensures Near(Mul(y, k), Mul(z, k), e) && Near(Mul(k, y), Mul(k, z), e)
  {
    Order(y, z * (1.0 + e), k);
    Order(z * (1.0 - e), y, k);
    assert (z * (1.0 + e)) * k == (z * k) * (1.0 + e) && (z * (1.0 - e)) * k == (z * k) * (1.0 - e);
  }

  lemma Compose(x: real, y: real, z: real, d: real, e: real)
    requires Near(x, y, d) && Near(y, z, e) && 0.0 <= d <= 1.0 && 0.0 <= e && z >= 0.0
    ensures Near(x, z, d + e + d * e)
  {
    Order(y, z * (1.0 + e), 1.0 + d);
    Order(z * (1.0 - e), y, 1.0 - d);
    assert (z * (1.0 + e)) * (1.0 + d) == z * (1.0 + (d + e + d * e));
    assert (z * (1.0 - e)) * (1.0 - d) == z * (1.0 - (d + e + d * e)) + z * (2.0 * (d * e));
    Order(0.0, d, e);
    Order(0.0, z, 2.0 * (d * e));
  }

  lemma NearPositive(y: real, z: real, e: real)
    requires Near(y, z, e) && z > 0.0 && e < 1.0
    ensures y > 0.0
  {
    assert z * (1.0 - e) > 0.0;
  }

  // ---- What single precision computes.

  lemma OneStep(round: real -> real, z: real)
    requires IsRounding(round) && z > 0.0
    ensures Near(round(z), z, STEP) && round(z) > 0.0
  {
    NearPositive(round(z), z, STEP);
  }

  /** The error after rounding a second factor and the product. */
  function After(e: real): real {
    var both := e + STEP + e * STEP;
    STEP + both + STEP * both
  }

  lemma StepsFit()
    ensures 0.0 <= After(0.0) <= FOUR_STEPS && After(After(0.0)) <= FOUR_STEPS
  {
  }

  /** Rounding each of two factors' product: two steps more than the first factor's. */
  lemma RoughFactor(round: real -> real, x: real, y: real, e: real, f: real)
    requires IsRounding(round) && x > 0.0 && y > 0.0 && f > 0.0 && Near(x, y, e) && 0.0 <= e <= 1.0
    ensures round(f) > 0.0 && round(Mul(x, round(f))) > 0.0
    ensures Near(round(Mul(x, round(f))), Mul(y, f), After(e))
  {
    hide Near, IsRounding, Mul;
    OneStep(round, f);
    Products(x, round(f));
    Products(y, f);
    OneStep(round, Mul(x, round(f)));
    NearScaled(round(f), f, STEP, y);
    NearScaled(x, y, e, round(f));
    Compose(Mul(x, round(f)), Mul(y, round(f)), Mul(y, f), e, STEP);
    Order(0.0, e, STEP);
    Compose(round(Mul(x, round(f))), Mul(x, round(f)), Mul(y, f), STEP, e + STEP + e * STEP);
  }

  lemma Products(x: real, y: real)
    requires x > 0.0 && y > 0.0
    ensures Mul(x, y) > 0.0 && x * y > 0.0
  {
  }

  function Rough(round: real -> real, v: nat, combo: nat, fever: nat, inFever: bool): real {
    var plain := round(Mul(v as real, round(RealOf(combo))));
    if inFever then round(Mul(plain, round(RealOf(fever)))) else plain
  }

  /** The note's value before any rounding. */
  function Exact(v: nat, combo: nat, fever: nat, inFever: bool): real {
    var plain := Mul(v as real, RealOf(combo));
    if inFever then Mul(plain, RealOf(fever)) else plain
  }

  lemma RoughIs(round: real -> real, v: nat, combo: nat, fever: nat, inFever: bool)
    requires IsRounding(round) && v > 0 && RealOf(combo) > 0.0 && RealOf(fever) > 0.0
    ensures Exact(v, combo, fever, inFever) > 0.0
    ensures Near(Rough(round, v, combo, fever, inFever), Exact(v, combo, fever, inFever), FOUR_STEPS)
  {
    hide RealOf, IsRounding, Near, After, Mul;
    var c, f, x := RealOf(combo), RealOf(fever), v as real;
    NearItself(x);
    StepsFit();
    RoughFactor(round, x, x, 0.0, c);
    Products(x, c);
    Products(Mul(x, c), f);
    var plain := round(Mul(x, round(c)));
    if inFever {
      RoughFactor(round, plain, Mul(x, c), After(0.0), f);
      Weaken(round(Mul(plain, round(f))), Mul(Mul(x, c), f), After(After(0.0)), FOUR_STEPS);
    } else {
      Weaken(plain, Mul(x, c), After(0.0), FOUR_STEPS);
    }
  }

  lemma NearItself(x: real)
    ensures Near(x, x, 0.0)
  {
  }

  // ---- What binary64 computes.

  /** Half a unit of a 53-bit mantissa: a normal product is off by at most its 2^-53. */
  lemma ProductError(a: nat, b: nat)
    requires IsNormal(a) && IsNormal(b) && InNormalRange(ExactProduct(a, b))
    ensures Pow2(53) * Error(Units(Product(a, b)), ExactProduct(a, b)) <= ExactProduct(a, b)
  {
    hide Product, Pow2, Mantissa, Units, ExactProduct, ResultExponent, ResultMantissa, InNormalRange, Error, Carry, RoundHalfEven, Fraction;
    var n, f, d := ExactScaled(a, b);
    ExponentFits(a, b);
    ResultUnits(a, b);
    MantissaOverScale(a, b, n, f);
    HalfError(n, f, d, ResultExponent(a, b));
  }

  lemma HalfError(n: nat, f: nat, d: nat, e: nat)
    requires f > 0 && e >= 1 && f * d == Pow2(e - 1 + SCALE) && Pow2(52) * (f * d) <= n * d
    ensures Pow2(53) * Error(RoundHalfEven(n, f) * Pow2(e - 1), n * d) <= n * d
  {
    hide Pow2, RoundHalfEven, Distance, Error;
    var m := RoundHalfEven(n, f);
    Pow2Add(e - 1, SCALE);
    ErrorOf(m, Pow2(e - 1), f, d, n);
    HalfNear(n, f);
    PowersDouble();
    HalfOf(Distance(m * f, n), f, d, n, Pow2(52), Pow2(53));
  }

  lemma ErrorOf(m: nat, u: nat, f: nat, d: nat, n: nat)
    requires u * Pow2(SCALE) == f * d
    ensures Error(m * u, n * d) == Distance(m * f, n) * d
  {
    hide Pow2, Distance;
    MultipleError(m, u, Pow2(SCALE), f, d, n);
  }

  lemma PowersDouble()
    ensures Pow2(53) == 2 * Pow2(52)
  {
  }

  lemma HalfOf(distance: nat, f: nat, d: nat, n: nat, half: nat, whole: nat)
    requires 2 * distance <= f && half * (f * d) <= n * d && whole == 2 * half
    ensures whole * (distance * d) <= n * d
  {
    MulMono(2 * distance, f, d);
    MulMono((2 * distance) * d, f * d, half);
    assert half * ((2 * distance) * d) == (2 * half) * (distance * d);
  }

  lemma RealProduct(a: nat, b: nat)
    requires IsNormal(a) && IsNormal(b) && InNormalRange(ExactProduct(a, b))
    ensures Near(RealOf(Product(a, b)), Mul(RealOf(a), RealOf(b)), DOUBLE_STEP)
  {
    hide Product, Pow2, Units, InNormalRange, IsNormal;
    ProductError(a, b);
    Powers();
    var u, x, y, z, s := Unit(), Units(a) as real, Units(b) as real, Units(Product(a, b)) as real, Units(Product(a, b)) * Pow2(SCALE);
    assert s as real == z * u by { AsReals(Units(Product(a, b)), Pow2(SCALE)); }
    assert ExactProduct(a, b) as real == x * y by { AsReals(Units(a), Units(b)); }
    Scaled(x, y, z, u, 9007199254740992.0);
  }

  lemma AsReals(x: nat, y: nat)
    ensures (x * y) as real == x as real * y as real
  {
  }

  lemma Scaled(x: real, y: real, z: real, u: real, k: real)
    requires u > 0.0 && k == 9007199254740992.0 && x >= 0.0 && y >= 0.0
    requires k * (z * u - x * y) <= x * y && k * (x * y - z * u) <= x * y
    ensures Near(z / u, Mul(x / u, y / u), DOUBLE_STEP)
  {
    hide Mul;
    var p, q, r := z / u, x / u, y / u;
    NotNegative(x, u);
    NotNegative(y, u);
    MulIs(q, r);
    Products(u, u);
    Squares(p, q, r, u);
    ScaledBack(p, Mul(q, r), Mul(u, u), k);
  }

  lemma MulIs(q: real, r: real)
    requires q >= 0.0 && r >= 0.0
    ensures Mul(q, r) == q * r >= 0.0
  {
    Order(0.0, q, r);
  }

  lemma ScaledBack(p: real, t: real, w: real, k: real)
    requires w > 0.0 && t >= 0.0 && k == 9007199254740992.0
    requires k * (Mul(p, w) - Mul(t, w)) <= Mul(t, w) && k * (Mul(t, w) - Mul(p, w)) <= Mul(t, w)
    ensures Near(p, t, DOUBLE_STEP)
  {
    Subtract(p, t, w);
    Subtract(t, p, w);
    TimesOut(k, p - t, w);
    TimesOut(k, t - p, w);
    CancelOrder(k * (p - t), t, w);
    CancelOrder(k * (t - p), t, w);
  }

  lemma TimesOut(k: real, p: real, w: real)
    ensures (k * p) * w == k * (p * w)
  {
  }

  lemma Squares(p: real, q: real, r: real, u: real)
    ensures (p * u) * u == Mul(p, Mul(u, u)) && (q * u) * (r * u) == Mul(Mul(q, r), Mul(u, u))
  {
    assert (q * u) * (r * u) == q * (u * (r * u));
    assert u * (r * u) == r * (u * u);
  }

  lemma NotNegative(x: real, u: real)
    requires x >= 0.0 && u > 0.0
    ensures x / u >= 0.0
  {
  }

  lemma Subtract(x: real, y: real, w: real)
    ensures (x - y) * w == x * w - y * w
  {
  }

  lemma CancelOrder(x: real, y: real, w: real)
    requires x * w <= y * w && w > 0.0
    ensures x <= y
  {
    if x > y {
      Products(x - y, w);
      Subtract(x, y, w);
    }
  }

  /** The note's product in binary64. */
  function Double(v: nat, combo: nat, fever: nat, inFever: bool): nat
    requires 0 < v < Pow2(24)
  {
    var plain := Product(Float64Of(v), combo);
    if inFever then Product(plain, fever) else plain
  }

  /** The operands and results the arithmetic is for: normal numbers, and a score between 1 and 2^31. */
  ghost predicate InRange(v: nat, combo: nat, fever: nat, inFever: bool) {
    && 0 < v < Pow2(24) && IsNormal(combo) && IsNormal(fever) && InNormalRange(ExactProduct(Float64Of(v), combo))
    && (inFever ==> InNormalRange(ExactProduct(Product(Float64Of(v), combo), fever)))
    && Pow2(SCALE) <= Units(Double(v, combo, fever, inFever)) < Pow2(31) * Pow2(SCALE)
  }

  lemma NormalPositive(x: nat)
    requires IsNormal(x)
    ensures RealOf(x) > 0.0
  {
    hide Pow2;
    NormalUnits(x);
    MantissaAtLeast(x);
    Powers();
    MulMono(1, Mantissa(x), Pow2(Exponent(x) - 1));
    Quotient(Units(x) as real, Unit());
  }

  lemma Quotient(x: real, u: real)
    requires x > 0.0 && u > 0.0
    ensures x / u > 0.0
  {
  }

  lemma RealOfInteger(v: nat)
    requires 0 < v < Pow2(24)
    ensures IsNormal(Float64Of(v)) && RealOf(Float64Of(v)) == v as real
  {
    hide Pow2, Float64Of, Units, IsNormal;
    Float64OfIsExact(v);
    AsReals(v, Pow2(SCALE));
    Cancel(v as real, Unit());
  }

  lemma Cancel(x: real, u: real)
    requires u > 0.0
    ensures (x * u) / u == x && Mul(x, u) == x * u
  {
  }

  lemma FirstProduct(v: nat, combo: nat)
    requires 0 < v < Pow2(24) && IsNormal(combo) && InNormalRange(ExactProduct(Float64Of(v), combo))
    ensures Near(RealOf(Product(Float64Of(v), combo)), Mul(v as real, RealOf(combo)), DOUBLE_STEP)
  {
    hide Product, Float64Of, InNormalRange, Pow2, RealOf, IsNormal, ExactProduct, Mul, Near;
    RealOfInteger(v);
    RealProduct(Float64Of(v), combo);
  }

  lemma DoubleIs(v: nat, combo: nat, fever: nat, inFever: bool)
    requires InRange(v, combo, fever, inFever)
    ensures Near(RealOf(Double(v, combo, fever, inFever)), Exact(v, combo, fever, inFever), TWO_DOUBLE_STEPS)
  {
    hide Product, Float64Of, InNormalRange, Pow2, Units, Near, RealOf, IsNormal, ExactProduct, Mul;
    RealOfInteger(v);
    NormalPositive(combo);
    NormalPositive(fever);
    var value := Mul(v as real, RealOf(combo));
    Products(v as real, RealOf(combo));
    Products(value, RealOf(fever));
    FirstProduct(v, combo);
    var plain := Product(Float64Of(v), combo);
    if inFever {
      ProductIsRounded(Float64Of(v), combo);
      RealProduct(plain, fever);
      NearScaled(RealOf(plain), value, DOUBLE_STEP, RealOf(fever));
      Compose(RealOf(Product(plain, fever)), Mul(RealOf(plain), RealOf(fever)), Mul(value, RealOf(fever)), DOUBLE_STEP, DOUBLE_STEP);
      Weaken(RealOf(Product(plain, fever)), Mul(value, RealOf(fever)),
             2.0 * DOUBLE_STEP + DOUBLE_STEP * DOUBLE_STEP, TWO_DOUBLE_STEPS);
    } else {
      Weaken(RealOf(plain), value, DOUBLE_STEP, TWO_DOUBLE_STEPS);
    }
  }

  // ---- The shortcut.

  /** Two approximations of one value: what lies farther than the error from the integers has one floor. */
  lemma SettledFloor(rough: real, double: real, exact: real)
    requires exact > 0.0 && Near(rough, exact, FOUR_STEPS) && Near(double, exact, TWO_DOUBLE_STEPS)
    requires var away := rough - rough.Floor as real - 0.5;
             (if away >= 0.0 then away else -away) < 0.5 - rough * FLOAT32_ERROR
    ensures double.Floor == rough.Floor
  {
    assert rough * (1.0 + FLOAT32_ERROR) >= double >= rough * (1.0 - FLOAT32_ERROR);
  }

  lemma DoubleFloor(v: nat, combo: nat, fever: nat, inFever: bool)
    requires InRange(v, combo, fever, inFever)
    ensures Float64Floor(Double(v, combo, fever, inFever)) == RealOf(Double(v, combo, fever, inFever)).Floor
  {
    hide Product, Float64Of, InNormalRange, Pow2, Units, Float64Floor, ExactProduct, IsNormal;
    var x := Double(v, combo, fever, inFever);
    RealOfInteger(v);
    ProductIsRounded(Float64Of(v), combo);
    if inFever { ProductIsRounded(Product(Float64Of(v), combo), fever); }
    FloorIsExact(x);
    FloorOfQuotient(Units(x), Pow2(SCALE));
  }

  lemma FloorOfQuotient(x: nat, m: nat)
    requires m > 0
    ensures (x as real / m as real).Floor == x / m
  {
    var q, d := x / m, x % m;
    DivMod(x, m);
    AsReals(q, m);
    var u := m as real;
    assert x as real == q as real * u + d as real;
    Cancel(q as real, u);
    assert x as real / u == q as real + d as real / u;
    NotNegative(d as real, u);
    assert d as real / u < 1.0 by { if d as real / u >= 1.0 { Order(1.0, d as real / u, u); } }
  }

  /** However single precision rounds, a note's score is the floor of its binary64 product. */
  method NoteScore(round: real -> real, v: nat, combo: nat, fever: nat, inFever: bool) returns (score: int)
    requires IsRounding(round) && InRange(v, combo, fever, inFever)
    ensures score == RealOf(Double(v, combo, fever, inFever)).Floor
  {
    hide Double, InRange, Near, RealOf, Float64Floor, IsRounding, Pow2, Product, Float64Of, Mul, Exact;
    var rough := round(Mul(v as real, round(RealOf(combo))));
    if inFever {
      rough := round(Mul(rough, round(RealOf(fever))));
    }
    var whole := rough.Floor;
    score := whole;
    RangeIs(v, combo, fever, inFever);
    DoubleFloor(v, combo, fever, inFever);
    RoughIs(round, v, combo, fever, inFever);
    DoubleIs(v, combo, fever, inFever);
    var away := rough - whole as real - 0.5;
    if (if away >= 0.0 then away else -away) >= 0.5 - rough * FLOAT32_ERROR {
      var exact := Product(Float64Of(v), combo);
      if inFever {
        exact := Product(exact, fever);
      }
      DoubleOf(v, combo, fever, inFever);
      score := Float64Floor(exact);
    } else {
      SettledFloor(rough, RealOf(Double(v, combo, fever, inFever)), Exact(v, combo, fever, inFever));
    }
  }

  lemma RangeIs(v: nat, combo: nat, fever: nat, inFever: bool)
    requires InRange(v, combo, fever, inFever)
    ensures 0 < v < Pow2(24) && RealOf(combo) > 0.0 && RealOf(fever) > 0.0
  {
    hide Double, RealOf, Pow2, Product, Float64Of, Units, InNormalRange, ExactProduct, IsNormal;
    NormalPositive(combo);
    NormalPositive(fever);
  }

  lemma DoubleOf(v: nat, combo: nat, fever: nat, inFever: bool)
    requires 0 < v < Pow2(24)
    ensures Double(v, combo, fever, inFever) == if inFever then Product(Product(Float64Of(v), combo), fever) else Product(Float64Of(v), combo)
  {
    hide Product, Float64Of;
  }
}
