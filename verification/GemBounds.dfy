/** The admissible bounds of the gem search (gear_optimizer/solver/gem_search.py), over exact reals: a surface's
    score at a stat line is at most base value x shape value, less what its Greats lose. */
module GemBounds {
  import opened Arithmetic
  import opened Scoring

  const MARGIN: real := 1024.0

  /** (A, E, F, G) of a bound: combo x (A x fever + E) + F x fever + G. */
  datatype Shape = Shape(a: real, e: real, f: real, g: real)

  function ShapeValue(s: Shape, combo: real, fever: real): real {
    combo * (s.a * fever + s.e) + s.f * fever + s.g
  }

  /** A base value's worth at a shape and multipliers. */
  function Worth(base: real, s: Shape, combo: real, fever: real): real {
    base * ShapeValue(s, combo, fever)
  }

  predicate NonNegative(s: Shape) {
    s.a >= 0.0 && s.e >= 0.0 && s.f >= 0.0 && s.g >= 0.0
  }

  /** A head pattern's notes in and out of fever, the sums of their 1-based positions, and its Greats out of and in
      fever. */
  datatype HeadCounts = HeadCounts(normal: nat, fever: nat, sigmaNormal: nat, sigmaFever: nat,
                                   greatNormal: nat, greatFever: nat)

  function CountHead(s: Surface, n: nat): HeadCounts
    requires |s.words| == 8 && n <= HEAD_NOTES
  {
    if n == 0 then HeadCounts(0, 0, 0, 0, 0, 0)
    else
      var h := CountHead(s, n - 1);
      var great := if IsGreat(s, n - 1) then 1 else 0;
      if InFever(s, n - 1) then h.(fever := h.fever + 1, sigmaFever := h.sigmaFever + n, greatFever := h.greatFever + great)
      else h.(normal := h.normal + 1, sigmaNormal := h.sigmaNormal + n, greatNormal := h.greatNormal + great)
  }

  function SurfaceShape(bodyFever: int, bodyNormal: int, h: HeadCounts): Shape {
    var rampFever, rampNormal := h.sigmaFever as real * 0.01, h.sigmaNormal as real * 0.01;
    Shape(bodyFever as real + rampFever, bodyNormal as real + rampNormal,
          h.fever as real - rampFever, h.normal as real - rampNormal)
  }

  /** What the Greats lose at the least, as a shape: a gap of a point or more between the Perfect and the Great base,
      past one point a body note. */
  function LossShape(gap: real, bodyGreat: int, bodyFeverGreat: int, h: HeadCounts): Shape {
    if gap >= 1.0 then
      Shape(gap * bodyFeverGreat as real, gap * (bodyGreat - bodyFeverGreat) as real,
            gap * h.greatFever as real, gap * h.greatNormal as real - bodyGreat as real)
    else Shape(0.0, 0.0, 0.0, 0.0)
  }

  /** The combo ramp is the line through its thresholds: 1 + (combo - 1) x position / 100. */
  predicate RampIsLine(l: Line) {
    l.combo >= 1.0 && |l.ramp| >= HEAD_NOTES
    && forall i :: 0 <= i < |l.ramp| ==> l.ramp[i] == 1.0 + (l.combo - 1.0) * (i + 1) as real / 100.0
  }

  // ---- Real arithmetic.

  lemma Mono2(x: real, x': real, y: real, y': real)
    requires 0.0 <= x <= x' && 0.0 <= y <= y'
    ensures x * y <= x' * y' && 0.0 <= x * y
  {
    ScaleMono(x, x', y);
    ScaleMono(y, y', x');
  }

  /** A shape value never falls as a multiplier or a coordinate rises. */
  lemma ShapeValueMono(s: Shape, c: real, f: real, c': real, f': real)
    requires s.a >= 0.0 && s.e >= 0.0 && s.f >= 0.0
    requires 0.0 <= c <= c' && 0.0 <= f <= f'
    ensures ShapeValue(s, c, f) <= ShapeValue(s, c', f')
  {
    ScaleMono(f, f', s.a);
    ScaleMono(f, f', s.f);
    Mono2(c, c', 0.0, 0.0);
    ScaleMono(0.0, f, s.a);
    Mono2(c, c', s.a * f + s.e, s.a * f' + s.e);
  }

  lemma ShapeValueNonNegative(s: Shape, c: real, f: real)
    requires NonNegative(s) && c >= 0.0 && f >= 0.0
    ensures ShapeValue(s, c, f) >= 0.0
  {
    Mono2(0.0, s.a, 0.0, f);
    Mono2(0.0, s.f, 0.0, f);
    Mono2(0.0, c, 0.0, s.a * f + s.e);
  }

  // ---- A note's points, then the head's, then the body's.

  lemma PointsUpper(base: real, scaling: real, l: Line, fever: bool)
    ensures Points(base, scaling, l, fever) as real <= base * Multiplier(l, scaling, fever)
  {
  }

  /** The Great base falls `gap` short of the Perfect one (a gap of nothing asks nothing). */
  predicate GapHolds(l: Line, gap: real) {
    gap == 0.0 || l.greatBase + gap <= l.base
  }

  /** A note's bound at its multiplier: a Great falls at least `gap` times it short. */
  function NoteBound(base: real, gap: real, multiplier: real, great: bool): real {
    (if great then base - gap else base) * multiplier
  }

  function Multiplier(l: Line, scaling: real, fever: bool): real {
    if fever then scaling * l.fever else scaling
  }

  lemma NoteUpper(l: Line, scaling: real, gap: real, fever: bool, great: bool)
    requires ValidLine(l) && scaling >= 1.0 && GapHolds(l, gap)
    ensures Multiplier(l, scaling, fever) >= 1.0
    ensures NoteScore(l, scaling, fever, great) as real <= NoteBound(l.base, gap, Multiplier(l, scaling, fever), great)
  {
    hide Multiplier, Points;
    MultiplierAtLeastOne(l, scaling, fever);
    PointsUpper(l.base, scaling, l, fever);
    PointsUpper(l.greatBase, scaling, l, fever);
    if gap != 0.0 { ScaleMono(l.greatBase, l.base - gap, Multiplier(l, scaling, fever)); }
  }

  lemma MultiplierAtLeastOne(l: Line, scaling: real, fever: bool)
    requires l.fever >= 1.0 && scaling >= 1.0
    ensures Multiplier(l, scaling, fever) >= 1.0
  {
    Mono2(1.0, scaling, 1.0, l.fever);
  }

  /** The head's notes at their most, and what its Greats lose. */
  function HeadValue(h: HeadCounts, base: real, k: real, f: real): real {
    base * (h.normal as real + h.fever as real * f + k * (h.sigmaNormal as real + h.sigmaFever as real * f))
  }

  function HeadLoss(h: HeadCounts, gap: real, f: real): real {
    gap * (h.greatNormal as real + h.greatFever as real * f)
  }

  /** The head's bound at combo c = 1 + 100 k and fever f, in the pattern's counts. */
  function HeadUpper(h: HeadCounts, base: real, k: real, f: real, gap: real): real {
    HeadValue(h, base, k, f) - HeadLoss(h, gap, f)
  }

  lemma {:induction false} HeadScoreUpper(s: Surface, l: Line, n: nat, gap: real)
    requires |s.words| == 8 && n <= HEAD_NOTES
    requires ValidLine(l) && RampIsLine(l) && gap >= 0.0 && GapHolds(l, gap)
    ensures HeadScore(s, l, n) as real <= HeadUpper(CountHead(s, n), l.base, RampSlope(l), l.fever, gap)
  {
    hide HeadUpper, NoteScore;
    if n == 0 {
      HeadUpperZero(l, gap);
    } else {
      HeadScoreUpper(s, l, n - 1, gap);
      HeadNoteUpper(s, l, n, gap);
    }
  }

  lemma HeadUpperZero(l: Line, gap: real)
    ensures HeadUpper(HeadCounts(0, 0, 0, 0, 0, 0), l.base, RampSlope(l), l.fever, gap) == 0.0
  {
  }

  lemma HeadNoteUpper(s: Surface, l: Line, n: nat, gap: real)
    requires |s.words| == 8 && 0 < n <= HEAD_NOTES
    requires ValidLine(l) && RampIsLine(l) && gap >= 0.0 && GapHolds(l, gap)
    ensures NoteScore(l, l.ramp[n - 1], InFever(s, n - 1), IsGreat(s, n - 1)) as real
         <= HeadUpper(CountHead(s, n), l.base, RampSlope(l), l.fever, gap)
          - HeadUpper(CountHead(s, n - 1), l.base, RampSlope(l), l.fever, gap)
  {
    hide HeadUpper, NoteScore, NoteBound;
    RampAt(l, n);
    NoteUpper(l, l.ramp[n - 1], gap, InFever(s, n - 1), IsGreat(s, n - 1));
    HeadUpperStep(CountHead(s, n - 1), n, l, RampSlope(l), l.ramp[n - 1], gap, InFever(s, n - 1), IsGreat(s, n - 1));
  }

  function RampSlope(l: Line): real { (l.combo - 1.0) / 100.0 }

  lemma RampAt(l: Line, n: nat)
    requires RampIsLine(l) && 0 < n <= HEAD_NOTES
    ensures l.ramp[n - 1] == 1.0 + RampSlope(l) * n as real && RampSlope(l) * n as real >= 0.0
  {
    Mono2(0.0, RampSlope(l), 0.0, n as real);
  }

  function CountNote(h: HeadCounts, n: nat, fever: bool, great: bool): HeadCounts {
    var one := if great then 1 else 0;
    if fever then h.(fever := h.fever + 1, sigmaFever := h.sigmaFever + n, greatFever := h.greatFever + one)
    else h.(normal := h.normal + 1, sigmaNormal := h.sigmaNormal + n, greatNormal := h.greatNormal + one)
  }

  /** One more head note raises the head's bound by at least the note's own: its Great loses the ramp's part too. */
  lemma HeadUpperStep(h: HeadCounts, n: nat, l: Line, k: real, scaling: real, gap: real, fever: bool, great: bool)
    requires gap >= 0.0 && l.fever >= 1.0 && scaling == 1.0 + k * n as real && scaling >= 1.0
    ensures HeadUpper(CountNote(h, n, fever, great), l.base, k, l.fever, gap)
         >= HeadUpper(h, l.base, k, l.fever, gap) + NoteBound(l.base, gap, Multiplier(l, scaling, fever), great)
  {
    hide HeadValue, HeadLoss, NoteBound, Multiplier;
    HeadValueStep(h, n, l, k, scaling, fever, great);
    HeadLossStep(h, n, l, scaling, gap, fever, great);
    NoteBoundSplit(l.base, gap, Multiplier(l, scaling, fever), great);
  }

  lemma NoteBoundSplit(base: real, gap: real, m: real, great: bool)
    ensures NoteBound(base, gap, m, great) == Times(base, m) - (if great then Times(gap, m) else 0.0)
  {
  }

  lemma HeadValueStep(h: HeadCounts, n: nat, l: Line, k: real, scaling: real, fever: bool, great: bool)
    requires scaling == 1.0 + k * n as real
    ensures HeadValue(CountNote(h, n, fever, great), l.base, k, l.fever)
         == HeadValue(h, l.base, k, l.fever) + Times(l.base, Multiplier(l, scaling, fever))
  {
    HeadPartStep(h.normal as real, h.fever as real, h.sigmaNormal as real, h.sigmaFever as real, n as real, l.base, k, l.fever);
  }

  lemma HeadPartStep(hn: real, hf: real, sn: real, sf: real, n: real, base: real, k: real, f: real)
    ensures base * (hn + (hf + 1.0) * f + k * (sn + (sf + n) * f))
         == base * (hn + hf * f + k * (sn + sf * f)) + base * ((1.0 + k * n) * f)
    ensures base * ((hn + 1.0) + hf * f + k * ((sn + n) + sf * f))
         == base * (hn + hf * f + k * (sn + sf * f)) + base * (1.0 + k * n)
  {
    assert k * (sn + (sf + n) * f) == k * (sn + sf * f) + (k * n) * f by { assert (sf + n) * f == sf * f + n * f; }
    assert k * ((sn + n) + sf * f) == k * (sn + sf * f) + k * n;
  }

  lemma HeadLossStep(h: HeadCounts, n: nat, l: Line, scaling: real, gap: real, fever: bool, great: bool)
    requires gap >= 0.0 && l.fever >= 1.0 && scaling >= 1.0
    ensures HeadLoss(CountNote(h, n, fever, great), gap, l.fever)
         <= HeadLoss(h, gap, l.fever) + (if great then Times(gap, Multiplier(l, scaling, fever)) else 0.0)
  {
    var m, hn, hf := if fever then l.fever else 1.0, h.greatNormal as real, h.greatFever as real;
    Mono2(1.0, scaling, m, m);
    ScaleMono(m, scaling * m, gap);
    assert gap * (hn + (hf + 1.0) * l.fever) == gap * (hn + hf * l.fever) + gap * l.fever;
    assert gap * ((hn + 1.0) + hf * l.fever) == gap * (hn + hf * l.fever) + gap;
  }

  /** x x combo x (n fever notes and m plain ones). */
  function BodyValue(x: real, c: real, n: real, f: real, m: real): real {
    x * (c * (n * f + m))
  }

  /** The body's bound: its notes at the full combo, less its Greats' gap. */
  lemma BodyScoreUpper(s: Surface, l: Line, bodyTotal: nat, gap: real)
    requires ValidSurface(s, bodyTotal) && ValidLine(l) && l.combo >= 1.0
    requires GapHolds(l, gap)
    ensures BodyScore(s, l, bodyTotal) as real
         <= BodyValue(l.base, l.combo, s.bodyFever as real, l.fever, (bodyTotal - s.bodyFever) as real)
          - BodyValue(gap, l.combo, s.bodyFeverGreat as real, l.fever, (s.bodyGreat - s.bodyFeverGreat) as real)
  {
    hide BodyScore, BodyValue, NoteBound, Times, RepeatScore;
    var fg, f, g := s.bodyFeverGreat, s.bodyFever, s.bodyGreat - s.bodyFeverGreat;
    var rest := bodyTotal - f - g;
    BodyScoreIsNoteByNote(s, l, bodyTotal);
    RepeatUpper(l, fg, gap, true, true);
    RepeatUpper(l, f - fg, gap, true, false);
    RepeatUpper(l, g, gap, false, true);
    RepeatUpper(l, rest, gap, false, false);
    BodyRegroup(f as real, g as real, fg as real, rest as real, l.base, gap, l.combo, l.fever);
  }

  /** `count` notes of one bound. */
  function Times(count: real, bound: real): real { count * bound }

  lemma BodyRegroup(f: real, g: real, fg: real, rest: real, base: real, gap: real, c: real, v: real)
    ensures Times(fg, NoteBound(base, gap, c * v, true)) + Times(f - fg, NoteBound(base, gap, c * v, false))
          + Times(g, NoteBound(base, gap, c, true)) + Times(rest, NoteBound(base, gap, c, false))
         == BodyValue(base, c, f, v, g + rest) - BodyValue(gap, c, fg, v, g)
  {
    var m := c * v;
    assert (base - gap) * m == base * m - gap * m;
    assert (base - gap) * c == base * c - gap * c;
    BodyFactor(base, c, f, v, g + rest);
    BodyFactor(gap, c, fg, v, g);
    TimesLinear(fg, f - fg, base * m, gap * m);
    TimesLinear(g, rest, base * c, gap * c);
  }

  lemma TimesLinear(n: real, n': real, x: real, y: real)
    ensures n * (x - y) + n' * x == (n + n') * x - n * y
  {
  }

  lemma BodyFactor(x: real, c: real, n: real, f: real, m: real)
    ensures BodyValue(x, c, n, f, m) == n * (x * (c * f)) + m * (x * c)
  {
    assert c * (n * f + m) == n * (c * f) + m * c;
    assert x * (n * (c * f)) == n * (x * (c * f));
    assert x * (m * c) == m * (x * c);
  }

  lemma RepeatUpper(l: Line, count: nat, gap: real, fever: bool, great: bool)
    requires ValidLine(l) && l.combo >= 1.0 && GapHolds(l, gap)
    ensures RepeatScore(l, count, fever, great) as real
         <= Times(count as real, NoteBound(l.base, gap, Multiplier(l, l.combo, fever), great))
  {
    RepeatScoreIsProduct(l, count, fever, great);
    NoteUpper(l, l.combo, gap, fever, great);
    ScaleMono(NoteScore(l, l.combo, fever, great) as real, NoteBound(l.base, gap, Multiplier(l, l.combo, fever), great), count as real);
    IntProduct(count, NoteScore(l, l.combo, fever, great));
  }

  lemma IntProduct(a: int, b: int)
    ensures (a * b) as real == a as real * b as real
  {
  }

  /** A surface's exact score at a stat line is at most base value x its shape's value less its Greats' loss. */
  lemma ScoreUpper(s: Surface, l: Line, headLen: nat, bodyTotal: nat, gap: real)
    requires ValidSurface(s, bodyTotal) && headLen <= HEAD_NOTES
    requires ValidLine(l) && RampIsLine(l) && l.greatBase + gap <= l.base
    ensures var h := CountHead(s, headLen);
            SurfaceScore(s, l, headLen, bodyTotal) as real
            <= Worth(l.base, SurfaceShape(s.bodyFever, bodyTotal - s.bodyFever, h), l.combo, l.fever)
             - ShapeValue(LossShape(gap, s.bodyGreat, s.bodyFeverGreat, h), l.combo, l.fever)
  {
    hide HeadValue, HeadLoss, BodyScore, HeadScore, ShapeValue, BodyValue;
    var h, bf, bn := CountHead(s, headLen), s.bodyFever as real, (bodyTotal - s.bodyFever) as real;
    var gap' := if gap >= 1.0 then gap else 0.0;
    HeadScoreUpper(s, l, headLen, gap');
    BodyScoreUpper(s, l, bodyTotal, gap');
    BaseSplit(l.base, RampSlope(l), l.combo, l.fever, bf, bn, h);
    LossIs(gap, l.combo, l.fever, s.bodyGreat, s.bodyFeverGreat, h);
  }

  lemma LossIs(gap: real, c: real, f: real, bodyGreat: nat, bodyFeverGreat: nat, h: HeadCounts)
    ensures var gap' := if gap >= 1.0 then gap else 0.0;
            ShapeValue(LossShape(gap, bodyGreat, bodyFeverGreat, h), c, f)
            <= BodyValue(gap', c, bodyFeverGreat as real, f, (bodyGreat - bodyFeverGreat) as real) + HeadLoss(h, gap', f)
  {
    if gap >= 1.0 {
      LossSplit(gap, c, f, bodyGreat, bodyFeverGreat, h);
    } else {
      NoLoss(c, f, bodyFeverGreat as real, (bodyGreat - bodyFeverGreat) as real, h);
    }
  }

  lemma BaseSplit(base: real, k: real, c: real, f: real, bf: real, bn: real, h: HeadCounts)
    requires k == (c - 1.0) / 100.0
    ensures var sf, sn := h.sigmaFever as real * 0.01, h.sigmaNormal as real * 0.01;
            base * ShapeValue(Shape(bf + sf, bn + sn, h.fever as real - sf, h.normal as real - sn), c, f)
            == BodyValue(base, c, bf, f, bn) + HeadValue(h, base, k, f)
  {
    hide ShapeValue;
    ShapeSplit(c, f, bf, bn, h.fever as real, h.normal as real, h.sigmaFever as real, h.sigmaNormal as real);
    Distribute(base, c * (bf * f + bn), h.normal as real + h.fever as real * f + k * (h.sigmaNormal as real + h.sigmaFever as real * f));
  }

  lemma LossSplit(gap: real, c: real, f: real, bodyGreat: nat, bodyFeverGreat: nat, h: HeadCounts)
    requires gap >= 1.0
    ensures ShapeValue(LossShape(gap, bodyGreat, bodyFeverGreat, h), c, f)
         == BodyValue(gap, c, bodyFeverGreat as real, f, (bodyGreat - bodyFeverGreat) as real) + HeadLoss(h, gap, f)
          - bodyGreat as real
  {
    var hf, hn, bfg, bg := h.greatFever as real, h.greatNormal as real, bodyFeverGreat as real, (bodyGreat - bodyFeverGreat) as real;
    assert c * ((gap * bfg) * f + gap * bg) == gap * (c * (bfg * f + bg)) by {
      assert (gap * bfg) * f + gap * bg == gap * (bfg * f + bg);
      assert c * (gap * (bfg * f + bg)) == gap * (c * (bfg * f + bg));
    }
    assert (gap * hf) * f == gap * (hf * f);
  }

  lemma NoLoss(c: real, f: real, fg: real, g: real, h: HeadCounts)
    ensures ShapeValue(Shape(0.0, 0.0, 0.0, 0.0), c, f) == 0.0
    ensures BodyValue(0.0, c, fg, f, g) == 0.0 && HeadLoss(h, 0.0, f) == 0.0
  {
  }

  lemma Distribute(x: real, y: real, z: real)
    ensures x * (y + z) == x * y + x * z
  {
  }

  lemma ShapeSplit(c: real, f: real, bf: real, bn: real, hf: real, hn: real, sf: real, sn: real)
    ensures ShapeValue(Shape(bf + sf * 0.01, bn + sn * 0.01, hf - sf * 0.01, hn - sn * 0.01), c, f)
         == c * (bf * f + bn) + (hn + hf * f + ((c - 1.0) / 100.0) * (sn + sf * f))
  {
    var x := sf * f;
    assert (bf + sf * 0.01) * f == bf * f + x * 0.01;
    assert (hf - sf * 0.01) * f == hf * f - x * 0.01;
    assert c * ((bf * f + x * 0.01) + (bn + sn * 0.01)) == c * (bf * f + bn) + c * (x + sn) * 0.01;
    assert ((c - 1.0) / 100.0) * (sn + x) == c * (x + sn) * 0.01 - (x + sn) * 0.01;
  }

  // ---- A frontier's shape bounds its surfaces'.

  /** Head counts over n notes: the totals are the song's whatever the pattern, and positions are at most 100. */
  lemma {:induction false} CountHeadTotals(s: Surface, n: nat)
    requires |s.words| == 8 && n <= HEAD_NOTES
    ensures var h := CountHead(s, n);
            h.normal + h.fever == n && 2 * (h.sigmaNormal + h.sigmaFever) == n * (n + 1)
            && h.sigmaNormal <= HEAD_NOTES * h.normal && h.sigmaFever <= HEAD_NOTES * h.fever
  {
    if n > 0 {
      CountHeadTotals(s, n - 1);
      assert n * (n + 1) == (n - 1) * n + 2 * n;
    }
  }

  /** Two shapes with the same A + E and F + G, the first with the most A and F: their values differ by
      (fever - 1) x (combo x the A distance + the F distance). */
  lemma ShapeDistance(most: Shape, s: Shape, c: real, f: real)
    requires most.a + most.e == s.a + s.e && most.f + most.g == s.f + s.g
    ensures ShapeValue(most, c, f) - ShapeValue(s, c, f) == (f - 1.0) * (c * (most.a - s.a) + (most.f - s.f))
    ensures ShapeValue(Shape(most.a - s.a, most.e - s.e, most.f - s.f, most.g - s.g), c, f)
         == ShapeValue(most, c, f) - ShapeValue(s, c, f)
  {
    var x, y := most.a - s.a, most.f - s.f;
    assert most.e - s.e == -x && most.g - s.g == -y;
    assert c * (most.a * f + most.e) - c * (s.a * f + s.e) == c * (x * f - x) by {
      assert most.a * f - s.a * f == x * f;
    }
    assert c * (x * f - x) == (f - 1.0) * (c * x);
    assert most.f * f - s.f * f == y * f;
  }

  predicate BoundsShape(most: Shape, s: Shape) {
    most.a + most.e == s.a + s.e && most.f + most.g == s.f + s.g && s.a <= most.a && s.f <= most.f
  }

  lemma FrontierShapeBounds(most: Shape, s: Shape, c: real, f: real)
    requires BoundsShape(most, s) && c >= 0.0 && f >= 1.0
    ensures ShapeValue(s, c, f) <= ShapeValue(most, c, f)
  {
    ShapeDistance(most, s, c, f);
    Mono2(0.0, c, 0.0, most.a - s.a);
    Mono2(0.0, f - 1.0, 0.0, c * (most.a - s.a) + (most.f - s.f));
  }
}
