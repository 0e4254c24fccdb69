/** The GPU's exact search over a combo's surfaces (gear_optimizer/gpu/scoring.py, exact_gem_search), over exact reals:
    a surface whose bound by the genome's reference surface stays below the floor is skipped. */
module ReferenceBound {
  import opened Arithmetic
  import opened Scoring
  import opened GemBounds
  import opened GemProblem
  import opened GemAdmissible
  import opened GemTables
  import opened SurfaceSearch

  /** A reference surface: its combos' base value without (CM, FM) or PP gems, the highest bound of its pairs over its
      shape's value at each corner of the multipliers, and one over the least and the most of its base values. */
  datatype GemReference = GemReference(base: real, scale: seq<real>, comboLo: real, comboHi: real, feverLo: real, feverHi: real,
                                       inverseBaseLo: real, inverseBaseHi: real)

  /** What a reference is built from: its surface's shape, its base value with every gem on the element, its budget. */
  datatype Wide = Wide(shape: Shape, base: int, budget: nat)

  function MaxCm(x: Work, v: Wide): nat
    requires |x.c.cm| > 0
  {
    Min(v.budget, |x.c.cm| - 1)
  }

  function MaxFm(x: Work, v: Wide): nat
    requires |x.c.fm| > 0
  {
    Min(v.budget, |x.c.fm| - 1)
  }

  /** The base value of a (CM, FM) pair of the reference. */
  function WideBase(x: Work, v: Wide, cm: nat, fm: nat): real
    requires |x.prefixMax| > 0 && cm + fm <= v.budget
  {
    v.base as real + Over(x.w.cm, x.w, cm) + Over(x.w.fm, x.w, fm) + BestPp(x, v.budget - cm - fm)
  }

  /** No pair's base value is lower. */
  function BaseLow(x: Work, v: Wide): real
    requires |x.c.cm| > 0 && |x.c.fm| > 0 && |x.c.pp| > 0
  {
    Max(v.base - MaxCm(x, v) * (x.w.element - x.w.cm) - MaxFm(x, v) * (x.w.element - x.w.fm), v.base - v.budget * x.w.element) as real
    + x.c.pp[0]
  }

  ghost predicate WideReady(x: Work, v: Wide) {
    && Ready(x) && |x.c.cm| > 0 && |x.c.fm| > 0 && |x.c.pp| > 0 && |x.prefixMax| > 0
    && x.w.cm <= x.w.element && x.w.fm <= x.w.element && NonNegative(v.shape)
  }

  // ---- The least and the most base value of the reference's pairs.

  lemma FewerGemsCost(top: nat, gems: nat, cost: int)
    requires gems <= top && cost >= 0
    ensures 0 <= gems * cost <= top * cost
  {
    assert (top - gems) * cost >= 0;
  }

  lemma OverIsCost(weight: nat, w: Weights, gems: nat)
    ensures Over(weight, w, gems) == -(gems * (w.element - weight)) as real
  {
  }

  lemma GemsLeft(b: int, cm: int, fm: int, wcm: int, wfm: int, e: int)
    requires 0 <= cm && 0 <= fm && cm + fm <= b && 0 <= wcm && 0 <= wfm && 0 <= e
    ensures cm * (e - wcm) + fm * (e - wfm) <= b * e
  {
    assert (b - cm - fm) * e >= 0;
    assert cm * wcm >= 0 && fm * wfm >= 0;
    assert (b - cm - fm) * e == b * e - cm * e - fm * e;
    assert cm * (e - wcm) == cm * e - cm * wcm && fm * (e - wfm) == fm * e - fm * wfm;
  }

  lemma WideBaseBetween(x: Work, v: Wide, cm: nat, fm: nat)
    requires WideReady(x, v) && cm < |x.c.cm| && fm < |x.c.fm| && cm + fm <= v.budget
    ensures BaseLow(x, v) <= WideBase(x, v, cm, fm) <= WideBase(x, v, 0, 0)
  {
    hide Ready;
    OverIsCost(x.w.cm, x.w, cm);
    OverIsCost(x.w.fm, x.w, fm);
    OverIsCost(x.w.cm, x.w, 0);
    OverIsCost(x.w.fm, x.w, 0);
    FewerGemsCost(MaxCm(x, v), cm, x.w.element - x.w.cm);
    FewerGemsCost(MaxFm(x, v), fm, x.w.element - x.w.fm);
    GemsLeft(v.budget, cm, fm, x.w.cm, x.w.fm, x.w.element);
    BestPpRises(x, v.budget - cm - fm, v.budget);
    NoPpGems(x, v.budget - cm - fm);
  }

  lemma NoPpGems(x: Work, left: nat)
    requires Ready(x)
    ensures |x.c.pp| > 0 && |x.prefixMax| > 0 && x.c.pp[0] <= BestPp(x, left)
  {
    PrefixMaxCovers(x.w, x.c.pp, 0, Min(|x.c.pp| - 1, left));
    OverIsCost(x.w.pp, x.w, 0);
  }

  // ---- The bound.

  /** gem_reference, where no base value may reach zero: `top` is at least every pair's value. */
  function ReferenceOf(x: Work, v: Wide, top: real): GemReference
    requires WideReady(x, v) && BaseLow(x, v) >= 1.0 && WideBase(x, v, 0, 0) != 0.0
    requires forall i, j :: i in {0, MaxCm(x, v)} && j in {0, MaxFm(x, v)} ==> ShapeValue(v.shape, x.c.cm[i], x.c.fm[j]) != 0.0
  {
    var c, c', f, f' := x.c.cm[0], x.c.cm[MaxCm(x, v)], x.c.fm[0], x.c.fm[MaxFm(x, v)];
    GemReference(v.base as real,
                 [top / ShapeValue(v.shape, c, f), top / ShapeValue(v.shape, c, f'),
                  top / ShapeValue(v.shape, c', f), top / ShapeValue(v.shape, c', f')],
                 c, c', f, f', 1.0 / MaxReal(BaseLow(x, v), 1.0), 1.0 / WideBase(x, v, 0, 0))
  }

  function Max4(a: real, b: real, c: real, d: real): real { MaxReal(MaxReal(a, b), MaxReal(c, d)) }

  function Product(a: real, b: real): real { a * b }

  /** A surface's value at a corner of the multipliers, over the reference's. */
  function CornerValue(shape: Shape, combo: real, fever: real, scale: real): real { ShapeValue(shape, combo, fever) * scale }

  function BaseFactor(offset: real, inverse: real): real { 1.0 + offset * inverse }

  /** At least every score of a surface of `shape` on a combo of base value `base`. */
  function BoundBy(r: GemReference, base: real, shape: Shape): real
    requires |r.scale| == 4
  {
    var offset := base - r.base;
    Product(Max4(CornerValue(shape, r.comboLo, r.feverLo, r.scale[0]), CornerValue(shape, r.comboLo, r.feverHi, r.scale[1]),
                 CornerValue(shape, r.comboHi, r.feverLo, r.scale[2]), CornerValue(shape, r.comboHi, r.feverHi, r.scale[3])),
            MaxReal(BaseFactor(offset, r.inverseBaseLo), BaseFactor(offset, r.inverseBaseHi)))
  }

  // ---- The ratio of two shapes is highest at a corner of the multipliers.

  lemma ShapeAtFever(s: Shape, c: real, f: real)
    ensures ShapeValue(s, c, f) == (s.a * f + s.e) * c + (s.f * f + s.g)
  {
  }

  /** A shape that is not positive at the corners is not positive between them. */
  lemma NotPositiveBetween(d: Shape, c: real, c': real, f: real, f': real, x: real, y: real)
    requires c <= x <= c' && f <= y <= f'
    requires ShapeValue(d, c, f) <= 0.0 && ShapeValue(d, c, f') <= 0.0 && ShapeValue(d, c', f) <= 0.0 && ShapeValue(d, c', f') <= 0.0
    ensures ShapeValue(d, x, y) <= 0.0
  {
    hide ShapeValue;
    ShapeAtCombo(d, c, f);
    ShapeAtCombo(d, c, f');
    ShapeAtCombo(d, c, y);
    ShapeAtCombo(d, c', f);
    ShapeAtCombo(d, c', f');
    ShapeAtCombo(d, c', y);
    LinearBetween(d.a * c + d.f, d.e * c + d.g, f, f', y);
    LinearBetween(d.a * c' + d.f, d.e * c' + d.g, f, f', y);
    ShapeAtFever(d, c, y);
    ShapeAtFever(d, c', y);
    ShapeAtFever(d, x, y);
    LinearBetween(d.a * y + d.e, d.f * y + d.g, c, c', x);
  }

  /** top x s - most x t, as a shape. */
  function Gap2(top: real, s: Shape, most: real, t: Shape): Shape {
    Shape(top * s.a - most * t.a, top * s.e - most * t.e, top * s.f - most * t.f, top * s.g - most * t.g)
  }

  lemma Gap2Value(top: real, s: Shape, most: real, t: Shape, c: real, f: real)
    ensures ShapeValue(Gap2(top, s, most, t), c, f) == top * ShapeValue(s, c, f) - most * ShapeValue(t, c, f)
  {
    ScaledShape(top, s, c, f);
    ScaledShape(most, t, c, f);
    ShapeDifference(Shape(top * s.a, top * s.e, top * s.f, top * s.g), Shape(most * t.a, most * t.e, most * t.f, most * t.g), c, f);
  }

  lemma ScaledShape(k: real, s: Shape, c: real, f: real)
    ensures ShapeValue(Shape(k * s.a, k * s.e, k * s.f, k * s.g), c, f) == k * ShapeValue(s, c, f)
  {
    assert (k * s.a) * f + k * s.e == k * (s.a * f + s.e);
    assert c * (k * (s.a * f + s.e)) == k * (c * (s.a * f + s.e));
    assert (k * s.f) * f == k * (s.f * f);
  }

  lemma ShapeDifference(s: Shape, t: Shape, c: real, f: real)
    ensures ShapeValue(Shape(s.a - t.a, s.e - t.e, s.f - t.f, s.g - t.g), c, f) == ShapeValue(s, c, f) - ShapeValue(t, c, f)
  {
    assert (s.a - t.a) * f == s.a * f - t.a * f && (s.f - t.f) * f == s.f * f - t.f * f;
    assert c * ((s.a * f + s.e) - (t.a * f + t.e)) == c * (s.a * f + s.e) - c * (t.a * f + t.e);
  }

  lemma CornerHolds(top: real, s: real, t: real, most: real)
    requires t > 0.0 && s * (top / t) <= most
    ensures top * s - most * t <= 0.0
  {
    var q := top / t;
    assert q * t == top;
    ScaleMono(s * q, most, t);
    assert (s * q) * t == s * (q * t);
  }

  /** The reference's value bounds the surface's: s x top <= most x t at every pair of multipliers in the corners. */
  lemma RatioAtCorners(s: Shape, t: Shape, top: real, c: real, c': real, f: real, f': real, x: real, y: real) returns (most: real)
    requires NonNegative(t) && NonNegative(s) && 0.0 <= c <= x <= c' && 0.0 <= f <= y <= f' && top >= 0.0
    requires ShapeValue(t, c, f) > 0.0 && ShapeValue(t, c, f') > 0.0 && ShapeValue(t, c', f) > 0.0 && ShapeValue(t, c', f') > 0.0
    ensures most == Max4(Scaled(top, s, t, c, f), Scaled(top, s, t, c, f'), Scaled(top, s, t, c', f), Scaled(top, s, t, c', f'))
    ensures top * ShapeValue(s, x, y) <= most * ShapeValue(t, x, y) && most >= 0.0
  {
    hide ShapeValue, NonNegative, Max4, Gap2;
    var p, q := Scaled(top, s, t, c, f), Scaled(top, s, t, c, f');
    var p', q' := Scaled(top, s, t, c', f), Scaled(top, s, t, c', f');
    most := Max4(p, q, p', q');
    Max4Covers(p, q, p', q');
    OneCorner(top, s, t, most, c, f);
    OneCorner(top, s, t, most, c, f');
    OneCorner(top, s, t, most, c', f);
    OneCorner(top, s, t, most, c', f');
    NotPositiveBetween(Gap2(top, s, most, t), c, c', f, f', x, y);
    Gap2Value(top, s, most, t, x, y);
    ShapeIsNotNegative(s, c, f);
    QuotientNotNegative(ShapeValue(s, c, f), top, ShapeValue(t, c, f));
  }

  function Scaled(top: real, s: Shape, t: Shape, c: real, f: real): real
    requires ShapeValue(t, c, f) != 0.0
  {
    CornerValue(s, c, f, top / ShapeValue(t, c, f))
  }

  lemma Max4Covers(a: real, b: real, c: real, d: real)
    ensures a <= Max4(a, b, c, d) && b <= Max4(a, b, c, d) && c <= Max4(a, b, c, d) && d <= Max4(a, b, c, d)
  {
  }

  lemma OneCorner(top: real, s: Shape, t: Shape, most: real, c: real, f: real)
    requires ShapeValue(t, c, f) > 0.0 && Scaled(top, s, t, c, f) <= most
    ensures ShapeValue(Gap2(top, s, most, t), c, f) <= 0.0
  {
    hide ShapeValue, Gap2;
    CornerHolds(top, ShapeValue(s, c, f), ShapeValue(t, c, f), most);
    Gap2Value(top, s, most, t, c, f);
  }

  lemma ShapeIsNotNegative(s: Shape, c: real, f: real)
    requires NonNegative(s) && c >= 0.0 && f >= 0.0
    ensures ShapeValue(s, c, f) >= 0.0
  {
    ShapeValueNonNegative(s, c, f);
  }

  lemma QuotientNotNegative(s: real, top: real, t: real)
    requires s >= 0.0 && top >= 0.0 && t > 0.0
    ensures s * (top / t) >= 0.0
  {
    Mono2(0.0, s, 0.0, top / t);
  }

  // ---- The ratio of two base values is highest at the least or the most of the reference's.

  lemma BaseRatio(low: real, base: real, high: real, offset: real)
    requires 0.0 < low <= base <= high
    ensures base + offset <= base * MaxReal(BaseFactor(offset, 1.0 / low), BaseFactor(offset, 1.0 / high))
  {
    var p, q := 1.0 / low, 1.0 / high;
    assert low * p == 1.0 && high * q == 1.0;
    if offset >= 0.0 {
      ScaleMono(low, base, p);
      ScaleMono(1.0, base * p, offset);
      assert base * (1.0 + offset * p) == base + offset * (base * p);
      ScaleMono(1.0 + offset * p, MaxReal(1.0 + offset * p, 1.0 + offset * q), base);
    } else {
      ScaleMono(base, high, q);
      ScaleMono(base * q, 1.0, -offset);
      assert base * (1.0 + offset * q) == base - (-offset) * (base * q);
      ScaleMono(1.0 + offset * q, MaxReal(1.0 + offset * p, 1.0 + offset * q), base);
    }
  }

  /** A value under the bound: base value times shape, through the two ratios. */
  lemma ThroughRatios(value: real, base: real, ratio: real, s: real, t: real, top: real, most: real)
    requires 0.0 <= value <= base * ratio && base > 0.0 && s >= 0.0 && t > 0.0 && most >= 0.0
    requires base * t <= top && top * s <= most * t
    ensures value * s <= most * ratio
  {
    assert ratio >= 0.0 by { if ratio < 0.0 { ScaleMono(ratio, 0.0, base); StrictProduct(base, ratio); } }
    ScaleMono(value, base * ratio, s);
    assert (base * ratio) * s == ratio * (base * s);
    ValueUnderMost(base, s, t, top, most);
    ScaleMono(base * s, most, ratio);
  }

  lemma StrictProduct(x: real, y: real)
    requires x > 0.0 && y < 0.0
    ensures x * y < 0.0
  {
  }

  lemma ValueUnderMost(base: real, s: real, t: real, top: real, most: real)
    requires base > 0.0 && s >= 0.0 && t > 0.0 && most >= 0.0 && base * t <= top && top * s <= most * t
    ensures base * s <= most
  {
    ScaleMono(base * t, top, s);
    assert (base * t) * s == t * (base * s);
    assert most * t == t * most;
    if base * s > most { StrictOrder(most, base * s, t); }
  }

  lemma StrictOrder(x: real, y: real, k: real)
    requires x < y && k > 0.0
    ensures k * x < k * y
  {
    assert k * (y - x) > 0.0;
  }

  // ---- The bound covers every combo of at most the reference's budget.

  /** `top` is at least the value of every pair the reference's budget can spend. */
  ghost predicate CapsValues(x: Work, v: Wide, top: real)
    requires |x.prefixMax| > 0
  {
    forall i: nat, j: nat {:trigger WideBase(x, v, i, j)} :: i < |x.c.cm| && j < |x.c.fm| && i + j <= v.budget ==>
      WideBase(x, v, i, j) * ShapeValue(v.shape, x.c.cm[i], x.c.fm[j]) <= top
  }

  /** A reference that bounds: its base values are at least one point, its shape worth something. */
  ghost predicate Bounds(x: Work, v: Wide, top: real) {
    && WideReady(x, v) && BaseLow(x, v) >= 1.0 && CapsValues(x, v, top)
    && ShapeValue(v.shape, x.c.cm[0], x.c.fm[0]) > 0.0
  }

  lemma CornersPositive(x: Work, v: Wide, top: real, i: nat, j: nat)
    requires Bounds(x, v, top) && i < |x.c.cm| && j < |x.c.fm|
    ensures ShapeValue(v.shape, x.c.cm[i], x.c.fm[j]) > 0.0 && 1.0 <= x.c.cm[0] <= x.c.cm[i] && 1.0 <= x.c.fm[0] <= x.c.fm[j]
  {
    hide ShapeValue, BaseLow, CapsValues;
    CurvesRise(x);
    ShapeValueMono(v.shape, x.c.cm[0], x.c.fm[0], x.c.cm[i], x.c.fm[j]);
  }

  lemma WideBasePositive(x: Work, v: Wide, top: real)
    requires Bounds(x, v, top)
    ensures WideBase(x, v, 0, 0) >= BaseLow(x, v) >= 1.0
  {
    hide BaseLow, WideBase, ShapeValue, Ready, CapsValues;
    WideBaseBetween(x, v, 0, 0);
  }

  ghost predicate IsReference(x: Work, v: Wide, top: real, r: GemReference) {
    && Bounds(x, v, top) && WideBase(x, v, 0, 0) != 0.0
    && (forall i, j :: i in {0, MaxCm(x, v)} && j in {0, MaxFm(x, v)} ==> ShapeValue(v.shape, x.c.cm[i], x.c.fm[j]) != 0.0)
    && r == ReferenceOf(x, v, top)
  }

  lemma OffsetBase(x: Work, v: Wide, g: Group, cm: nat, fm: nat)
    requires WideReady(x, v) && GroupReady(x, g) && IsPair(x, g, cm, fm) && g.residual <= v.budget
    ensures PairBase(x, g, cm, fm) <= WideBase(x, v, cm, fm) + (Delta(x, g) - v.base as real)
  {
    hide Ready, Over, Delta, BestPp;
    BestPpRises(x, g.residual - cm - fm, v.budget - cm - fm);
  }

  lemma BoundIs(x: Work, v: Wide, top: real, r: GemReference, base: real, s: Shape)
    requires IsReference(x, v, top, r)
    ensures WideReady(x, v) && |r.scale| == 4
    ensures var c, c', f, f' := x.c.cm[0], x.c.cm[MaxCm(x, v)], x.c.fm[0], x.c.fm[MaxFm(x, v)];
            && ShapeValue(v.shape, c, f) > 0.0 && ShapeValue(v.shape, c, f') > 0.0
            && ShapeValue(v.shape, c', f) > 0.0 && ShapeValue(v.shape, c', f') > 0.0
            && BaseLow(x, v) > 0.0 && WideBase(x, v, 0, 0) > 0.0
            && BoundBy(r, base, s)
            == Product(Max4(Scaled(top, s, v.shape, c, f), Scaled(top, s, v.shape, c, f'),
                            Scaled(top, s, v.shape, c', f), Scaled(top, s, v.shape, c', f')),
                       MaxReal(BaseFactor(base - v.base as real, 1.0 / BaseLow(x, v)),
                               BaseFactor(base - v.base as real, 1.0 / WideBase(x, v, 0, 0))))
  {
    hide ShapeValue, BaseLow, WideBase, Ready, Max4, MaxReal, CapsValues, ReferenceOf, IsReference, Product, CornerValue, BaseFactor;
    ReferenceFields(x, v, top, r);
  }

  /** A reference's fields. */
  lemma ReferenceFields(x: Work, v: Wide, top: real, r: GemReference)
    requires IsReference(x, v, top, r)
    ensures WideReady(x, v) && BaseLow(x, v) > 0.0 && WideBase(x, v, 0, 0) > 0.0 && |r.scale| == 4
    ensures var c, c', f, f' := x.c.cm[0], x.c.cm[MaxCm(x, v)], x.c.fm[0], x.c.fm[MaxFm(x, v)];
            && ShapeValue(v.shape, c, f) > 0.0 && ShapeValue(v.shape, c, f') > 0.0
            && ShapeValue(v.shape, c', f) > 0.0 && ShapeValue(v.shape, c', f') > 0.0
            && r.comboLo == c && r.comboHi == c' && r.feverLo == f && r.feverHi == f'
            && r.scale[0] == top / ShapeValue(v.shape, c, f) && r.scale[1] == top / ShapeValue(v.shape, c, f')
            && r.scale[2] == top / ShapeValue(v.shape, c', f) && r.scale[3] == top / ShapeValue(v.shape, c', f')
    ensures r.base == v.base as real && r.inverseBaseLo == 1.0 / BaseLow(x, v) && r.inverseBaseHi == 1.0 / WideBase(x, v, 0, 0)
  {
    hide ShapeValue, BaseLow, WideBase, Ready, CapsValues;
    CornersPositive(x, v, top, 0, 0);
    CornersPositive(x, v, top, 0, MaxFm(x, v));
    CornersPositive(x, v, top, MaxCm(x, v), 0);
    CornersPositive(x, v, top, MaxCm(x, v), MaxFm(x, v));
    WideBasePositive(x, v, top);
  }

  /** The reference's bound is at least every pair's score on the surface. */
  lemma ReferenceCovers(x: Work, v: Wide, top: real, r: GemReference, g: Group, row: nat, cm: nat, fm: nat)
    requires IsReference(x, v, top, r) && RowReady(x, g, row) && IsPair(x, g, cm, fm) && g.residual <= v.budget
    requires row < |x.song.pool.counts|
    ensures PairScore(x, g, row, cm, fm) as real <= BoundBy(r, Delta(x, g), RowShape(x.song, row))
  {
    hide ShapeValue, BaseLow, WideBase, ValidSong, Max4, CapsValues, PairScore, PairBase, RowShape, BoundBy, Scaled, Delta, ReferenceOf,
         MaxReal, Product, BaseFactor, PrefixMax;
    var s, y, z := RowShape(x.song, row), x.c.cm[cm], x.c.fm[fm];
    PairUnder(x, v, top, g, row, cm, fm);
    BoundIs(x, v, top, r, Delta(x, g), s);
    var most := RatioAtCorners(s, v.shape, top, x.c.cm[0], x.c.cm[MaxCm(x, v)], x.c.fm[0], x.c.fm[MaxFm(x, v)], y, z);
    UnderProduct(PairScore(x, g, row, cm, fm) as real, PairBase(x, g, cm, fm), WideBase(x, v, cm, fm), BaseLow(x, v), WideBase(x, v, 0, 0),
                 Delta(x, g) - v.base as real, ShapeValue(s, y, z), ShapeValue(v.shape, y, z), top, most);
  }

  lemma UnderProduct(score: real, value: real, base: real, low: real, high: real, offset: real, s: real, t: real, top: real, most: real)
    requires score <= value * s && 0.0 <= value <= base + offset && 0.0 < low <= base <= high
    requires s >= 0.0 && t > 0.0 && most >= 0.0 && base * t <= top && top * s <= most * t
    ensures score <= Product(most, MaxReal(BaseFactor(offset, 1.0 / low), BaseFactor(offset, 1.0 / high)))
  {
    hide MaxReal, BaseFactor;
    var ratio := MaxReal(BaseFactor(offset, 1.0 / low), BaseFactor(offset, 1.0 / high));
    BaseRatio(low, base, high, offset);
    ThroughRatios(value, base, ratio, s, t, top, most);
  }

  /** What the bound's proof needs of a pair: its value, the reference's there, and where its multipliers lie. */
  lemma PairUnder(x: Work, v: Wide, top: real, g: Group, row: nat, cm: nat, fm: nat)
    requires Bounds(x, v, top) && RowReady(x, g, row) && IsPair(x, g, cm, fm) && g.residual <= v.budget
    requires row < |x.song.pool.counts|
    ensures var s, t, y, z := RowShape(x.song, row), v.shape, x.c.cm[cm], x.c.fm[fm];
            && PairScore(x, g, row, cm, fm) as real <= PairBase(x, g, cm, fm) * ShapeValue(s, y, z)
            && 0.0 <= PairBase(x, g, cm, fm) <= WideBase(x, v, cm, fm) + (Delta(x, g) - v.base as real)
            && WideBase(x, v, cm, fm) * ShapeValue(t, y, z) <= top && top >= 0.0
            && NonNegative(s) && ShapeValue(s, y, z) >= 0.0 && ShapeValue(t, y, z) > 0.0
            && 1.0 <= x.c.cm[0] <= y <= x.c.cm[MaxCm(x, v)] && 1.0 <= x.c.fm[0] <= z <= x.c.fm[MaxFm(x, v)]
            && 0.0 < BaseLow(x, v) <= WideBase(x, v, cm, fm) <= WideBase(x, v, 0, 0)
  {
    hide ShapeValue, BaseLow, WideBase, PairScore, PairBase, RowShape, Delta, RowValue, Ready, NonNegative, CapsValues;
    OffsetBase(x, v, g, cm, fm);
    WideBaseBetween(x, v, cm, fm);
    PairMultipliers(x, v, g, cm, fm);
    PairWorth(x, g, row, cm, fm);
    CornersPositive(x, v, top, cm, fm);
    ReferenceWorth(x, v, top, cm, fm);
  }

  lemma PairMultipliers(x: Work, v: Wide, g: Group, cm: nat, fm: nat)
    requires WideReady(x, v) && IsPair(x, g, cm, fm) && g.residual <= v.budget
    ensures 1.0 <= x.c.cm[0] <= x.c.cm[cm] <= x.c.cm[MaxCm(x, v)] && 1.0 <= x.c.fm[0] <= x.c.fm[fm] <= x.c.fm[MaxFm(x, v)]
  {
    hide Ready;
    CurvesRise(x);
  }

  lemma PairWorth(x: Work, g: Group, row: nat, cm: nat, fm: nat)
    requires RowReady(x, g, row) && IsPair(x, g, cm, fm) && row < |x.song.pool.counts| && x.w.fm <= x.w.element
    ensures |x.prefixMax| > 0 && 0.0 <= PairBase(x, g, cm, fm)
    ensures var s, y, z := RowShape(x.song, row), x.c.cm[cm], x.c.fm[fm];
            && PairScore(x, g, row, cm, fm) as real <= PairBase(x, g, cm, fm) * ShapeValue(s, y, z)
            && NonNegative(s) && ShapeValue(s, y, z) >= 0.0
  {
    hide ShapeValue, PairScore, PairBase, RowShape, RowValue, ValidSong, AllocLine;
    var s, y, z := RowShape(x.song, row), x.c.cm[cm], x.c.fm[fm];
    PairBaseIs(x, g, cm, fm);
    RunCovers(x, g, row, cm, fm, fm, fm);
    RowValueIs(x, s, PairBase(x, g, cm, fm), y, z);
    RowShapeBound(x, g, row);
    CurvesRise(x);
    ShapeIsNotNegative(s, y, z);
  }

  lemma ReferenceWorth(x: Work, v: Wide, top: real, cm: nat, fm: nat)
    requires Bounds(x, v, top) && cm < |x.c.cm| && fm < |x.c.fm| && cm + fm <= v.budget
    requires WideBase(x, v, cm, fm) >= 0.0
    ensures WideBase(x, v, cm, fm) * ShapeValue(v.shape, x.c.cm[cm], x.c.fm[fm]) <= top && top >= 0.0
  {
    hide ShapeValue, BaseLow, WideBase, Ready, NonNegative;
    CornersPositive(x, v, top, cm, fm);
    Mono2(0.0, WideBase(x, v, cm, fm), 0.0, ShapeValue(v.shape, x.c.cm[cm], x.c.fm[fm]));
  }

  // ---- The search over a combo's surfaces.

  /** The best found over a combo's surfaces; score -1: none. */
  datatype ComboBest = ComboBest(found: Found, surface: nat)

  ghost predicate SurfacePair(x: Work, g: Group, surface: nat, cm: nat, fm: nat)
    requires GroupReady(x, g)
  {
    surface < x.song.pool.lengths[g.frontier] && IsPair(x, g, cm, fm)
  }

  ghost function PairScoreOn(x: Work, g: Group, surface: nat, cm: nat, fm: nat): int
    requires GroupReady(x, g) && SurfacePair(x, g, surface, cm, fm)
  {
    PairScore(x, g, x.song.pool.offsets[g.frontier] + surface, cm, fm)
  }

  /** A pair of a surface that does not win: under the floor, or lower than the best, or tied and after it. */
  ghost predicate Lost(x: Work, g: Group, floor: int, best: ComboBest, surface: nat, cm: nat, fm: nat)
    requires GroupReady(x, g) && SurfacePair(x, g, surface, cm, fm)
  {
    var score := PairScoreOn(x, g, surface, cm, fm);
    score < floor || score < best.found.score
    || (score == best.found.score
        && (surface > best.surface || (surface == best.surface && !PairBefore(cm, fm, best.found.cm, best.found.fm))))
  }

  ghost predicate BestOf(x: Work, g: Group, floor: int, best: ComboBest, n: nat)
    requires GroupReady(x, g)
  {
    && best.found.score >= -1
    && (best.found.score > -1 ==>
          && best.surface < n && SurfacePair(x, g, best.surface, best.found.cm, best.found.fm)
          && PairScoreOn(x, g, best.surface, best.found.cm, best.found.fm) == best.found.score)
    && forall surface: nat, cm: nat, fm: nat :: surface < n && SurfacePair(x, g, surface, cm, fm) ==>
         Lost(x, g, floor, best, surface, cm, fm)
  }

  ghost predicate PlainFrontier(x: Work, g: Group)
    requires GroupReady(x, g)
  {
    forall surface: nat :: surface < x.song.pool.lengths[g.frontier] ==> PlainAt(x, g, surface)
  }

  ghost predicate PlainAt(x: Work, g: Group, surface: nat)
    requires GroupReady(x, g) && surface < x.song.pool.lengths[g.frontier]
  {
    Plain(SurfaceOf(x.song, x.song.pool.offsets[g.frontier] + surface))
  }

  /** The first surface of highest score, skipping those the reference bounds below the floor. */
  method ExactGemSearch(x: Work, g: Group, floor: int, r: GemReference, ghost v: Wide, ghost top: real) returns (best: ComboBest)
    requires GroupReady(x, g) && PlainFrontier(x, g) && IsReference(x, v, top, r) && g.residual <= v.budget
    ensures BestOf(x, g, floor, best, x.song.pool.lengths[g.frontier])
  {
    hide ShapeValue, IsReference, BoundBy, PairScore, Ready, Lost, RowShape, Delta, Plain, Settled, IsPair;
    best := ComboBest(Found(-1, 0, 0, 0, 0), 0);
    FrontierInPool(x, g);
    var first, count := x.song.pool.offsets[g.frontier], x.song.pool.lengths[g.frontier];
    for surface := 0 to count
      invariant BestOf(x, g, floor, best, surface)
    {
      ReferenceScales(x, v, top, r);
      ghost var was := best;
      assert PlainAt(x, g, surface);
      if BoundBy(r, Delta(x, g), RowShape(x.song, first + surface)) >= floor as real {
        var candidate := SurfaceSearch.SurfaceSearch(x, g, first + surface, floor);
        if candidate.score > best.found.score {
          best := ComboBest(candidate, surface);
        }
        NextFound(x, g, floor, was, surface, candidate, best);
      } else {
        SurfaceSkipped(x, g, floor, best, surface, r, v, top);
      }
    }
  }

  lemma FrontierInPool(x: Work, g: Group)
    requires GroupReady(x, g)
    ensures g.frontier < |x.song.pool.lengths| && g.frontier < |x.song.pool.offsets| && x.w.fm >= 0 && ValidSong(x.song)
    ensures x.song.pool.offsets[g.frontier] + x.song.pool.lengths[g.frontier] <= |x.song.pool.counts|
  {
  }

  lemma ReferenceScales(x: Work, v: Wide, top: real, r: GemReference)
    requires IsReference(x, v, top, r)
    ensures |r.scale| == 4 && x.w.fm <= x.w.element
  {
    hide ShapeValue, BaseLow, WideBase, Ready;
  }

  lemma NextFound(x: Work, g: Group, floor: int, was: ComboBest, surface: nat, found: Found, best: ComboBest)
    requires GroupReady(x, g) && surface < x.song.pool.lengths[g.frontier] && BestOf(x, g, floor, was, surface)
    requires var row := x.song.pool.offsets[g.frontier] + surface;
             && RowReady(x, g, row) && row < |x.song.pool.counts| && IsFound(x, g, row, found)
             && forall i: nat, j: nat :: IsPair(x, g, i, j) ==> Settled(x, g, row, floor, found, i, j)
    requires best == if found.score > was.found.score then ComboBest(found, surface) else was
    ensures BestOf(x, g, floor, best, surface + 1)
  {
    hide PairScore, Ready, IsPair;
    forall s: nat, cm: nat, fm: nat | s < surface + 1 && SurfacePair(x, g, s, cm, fm) ensures Lost(x, g, floor, best, s, cm, fm) {
      if s < surface {
        assert Lost(x, g, floor, was, s, cm, fm);
      } else {
        assert Settled(x, g, x.song.pool.offsets[g.frontier] + surface, floor, found, cm, fm);
        PairScoreNotNegative(x, g, x.song.pool.offsets[g.frontier] + surface, cm, fm);
      }
    }
  }

  lemma PairScoreNotNegative(x: Work, g: Group, row: nat, cm: nat, fm: nat)
    requires RowReady(x, g, row) && IsPair(x, g, cm, fm) && row < |x.song.pool.counts|
    ensures PairScore(x, g, row, cm, fm) >= 0
  {
    hide AllocLine, OptionScore, BestGems, ShapeValue, Worth, RowShape, RowLoss, Gap;
    PairInSpace(x, g, cm, fm);
    ScoreUnder(x, g, row, PairAlloc(x, g, cm, fm));
  }

  lemma SurfaceSkipped(x: Work, g: Group, floor: int, best: ComboBest, surface: nat, r: GemReference, v: Wide, top: real)
    requires GroupReady(x, g) && surface < x.song.pool.lengths[g.frontier] && BestOf(x, g, floor, best, surface)
    requires IsReference(x, v, top, r) && |r.scale| == 4 && g.residual <= v.budget
    requires var row := x.song.pool.offsets[g.frontier] + surface;
             row < |x.song.pool.counts| && BoundBy(r, Delta(x, g), RowShape(x.song, row)) < floor as real
    ensures BestOf(x, g, floor, best, surface + 1)
  {
    hide PairScore, Ready, IsPair, BoundBy, RowShape, Delta, IsReference;
    forall s: nat, cm: nat, fm: nat | s < surface + 1 && SurfacePair(x, g, s, cm, fm) ensures Lost(x, g, floor, best, s, cm, fm) {
      if s < surface {
        assert Lost(x, g, floor, best, s, cm, fm);
      } else {
        FrontierInPool(x, g);
        var row := x.song.pool.offsets[g.frontier] + surface;
        assert RowReady(x, g, row);
        ReferenceCovers(x, v, top, r, g, row, cm, fm);
        assert PairScoreOn(x, g, s, cm, fm) == PairScore(x, g, row, cm, fm);
      }
    }
  }
}
