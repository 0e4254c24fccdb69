/** What the gem search searches (gear_optimizer/solver/gem_search.py): a loadout, its FT/FF split groups, the surfaces
    of their frontiers, and for each the (CM, FM, PP) gem allocations with their exact scores. */
module GemProblem {
  import opened Arithmetic
  import opened Scoring
  import opened GemBounds

  const MAX_STAT: nat := 160
  const GEM_BUDGET: nat := 90
  const STAT_GEM_GAIN_NORMAL: nat := 2
  const STAT_GEM_GAIN_FEVER: nat := 3
  const STAT_GEM_ELEMENT_GAIN: nat := 3
  const ELEMENT_GEM_GAIN: nat := 6

  /** The stat curves per stat value 0..MAX_STAT: Perfect Points, Combo Multiplier, its ramp over the head notes,
      Fever Multiplier. */
  datatype Curves = Curves(pp: seq<real>, cm: seq<real>, ramp: seq<seq<real>>, fm: seq<real>)

  /** Which gem elements raise the song's colors. */
  datatype ColorFlags = ColorFlags(ppPrimary: bool, ppSecondary: bool, cmPrimary: bool, cmSecondary: bool,
                                   fmPrimary: bool, fmSecondary: bool, elementPrimary: bool, elementSecondary: bool,
                                   singleColor: bool)

  /** A loadout's pre-gem stats and the row of its (FT, FF) key. */
  datatype Loadout = Loadout(pp: int, cm: int, fm: int, primary: nat, secondary: nat, key: nat)

  /** An FT/FF split: residual gems, what its gems add to the colors, the frontier it reaches. */
  datatype Group = Group(residual: nat, primaryGain: nat, secondaryGain: nat, frontier: nat)

  datatype BodyCounts = BodyCounts(fever: nat, great: nat, feverGreat: nat)

  /** Frontier f holds rows offsets[f] .. offsets[f] + lengths[f]; row r is head pattern patternIds[r]. */
  datatype SurfacePool = SurfacePool(offsets: seq<nat>, lengths: seq<nat>, patternIds: seq<nat>,
                                     patternWords: seq<seq<nat>>, headCounts: seq<HeadCounts>, counts: seq<BodyCounts>)

  datatype Song = Song(curves: Curves, flags: ColorFlags, pool: SurfacePool, headLen: nat, bodyTotal: nat)

  /** A gem allocation; the rest of the budget goes to element gems. */
  datatype Alloc = Alloc(cm: nat, fm: nat, pp: nat)

  ghost predicate NonDecreasing(s: seq<real>) {
    forall i, j :: 0 <= i <= j < |s| ==> s[i] <= s[j]
  }

  ghost predicate ValidCurves(c: Curves) {
    && |c.pp| == MAX_STAT + 1 && |c.cm| == MAX_STAT + 1 && |c.fm| == MAX_STAT + 1 && |c.ramp| == MAX_STAT + 1
    && NonDecreasing(c.pp) && NonDecreasing(c.cm) && NonDecreasing(c.fm)
    && c.pp[0] >= 0.0 && c.cm[0] >= 1.0 && c.fm[0] >= 1.0
    && forall s :: 0 <= s <= MAX_STAT ==> IsRamp(c.ramp[s], c.cm[s])
  }

  ghost predicate IsRamp(ramp: seq<real>, combo: real) {
    |ramp| == HEAD_NOTES
    && forall i :: 0 <= i < |ramp| ==> ramp[i] == 1.0 + (combo - 1.0) * (i + 1) as real / 100.0
  }

  function PatternSurface(words: seq<nat>): Surface { Surface(words, 0, 0, 0) }

  ghost predicate ValidPool(p: SurfacePool, headLen: nat, bodyTotal: nat)
    requires headLen <= HEAD_NOTES
  {
    && |p.offsets| == |p.lengths| && |p.patternIds| == |p.counts| && |p.patternWords| == |p.headCounts|
    && (forall f :: 0 <= f < |p.offsets| ==> p.lengths[f] > 0 && p.offsets[f] + p.lengths[f] <= |p.counts|)
    && (forall r :: 0 <= r < |p.counts| ==> p.patternIds[r] < |p.patternWords|)
    && (forall q :: 0 <= q < |p.patternWords| ==>
          |p.patternWords[q]| == 8 && p.headCounts[q] == CountHead(PatternSurface(p.patternWords[q]), headLen))
    && (forall r :: 0 <= r < |p.counts| ==>
          ValidSurface(Surface(p.patternWords[p.patternIds[r]], p.counts[r].fever, p.counts[r].great, p.counts[r].feverGreat), bodyTotal))
  }

  ghost predicate ValidSong(s: Song) {
    ValidCurves(s.curves) && s.headLen <= HEAD_NOTES && ValidPool(s.pool, s.headLen, s.bodyTotal)
  }

  /** A one-color song names its primary as its secondary too. */
  ghost predicate ValidLoadout(s: Song, l: Loadout) {
    s.flags.singleColor ==>
      && l.primary == l.secondary && s.flags.ppPrimary == s.flags.ppSecondary && s.flags.cmPrimary == s.flags.cmSecondary
      && s.flags.fmPrimary == s.flags.fmSecondary && s.flags.elementPrimary == s.flags.elementSecondary
  }

  ghost predicate ValidGroup(s: Song, g: Group) {
    && g.residual <= GEM_BUDGET && g.frontier < |s.pool.offsets|
    && (s.flags.singleColor ==> g.primaryGain == g.secondaryGain)
  }

  // ---- Gem curves and weights.

  function StatRow(stat: int): (r: nat)
    ensures r <= MAX_STAT
  {
    if stat < 0 then 0 else if stat > MAX_STAT then MAX_STAT else stat
  }

  /** How many gems can raise a stat before it is capped, at most the budget. */
  function GemCount(stat: int, gain: nat, allowed: bool): nat
    requires gain > 0
  {
    if allowed then Min(Max(0, (MAX_STAT - stat + gain - 1) / gain), GEM_BUDGET) else 0
  }

  /** Up to the count every gem still raises the stat; it is capped there unless the budget ends first. */
  lemma GemCountIsLeast(stat: int, gain: nat, k: nat)
    requires gain > 0
    ensures GemCount(stat, gain, false) == 0 && GemCount(stat, gain, true) <= GEM_BUDGET
    ensures k < GemCount(stat, gain, true) ==> stat + k * gain < MAX_STAT
    ensures GemCount(stat, gain, true) <= k <= GEM_BUDGET ==>
              StatRow(stat + k * gain) == StatRow(stat + GemCount(stat, gain, true) * gain) && (k < GEM_BUDGET ==> stat + k * gain >= MAX_STAT)
  {
    var need := MAX_STAT - stat;
    var least := (need + gain - 1) / gain;
    var count := GemCount(stat, gain, true);
    Quotient(need + gain - 1, gain, least);
    if k < count {
      BelowCap(need, gain, least, k);
    } else {
      MulMono(count, k, gain);
      if count < GEM_BUDGET {
        AtCap(need, gain, least, count);
        AtCap(need, gain, least, k);
      }
    }
  }

  lemma Quotient(x: int, gain: nat, q: int)
    requires gain > 0 && q == x / gain
    ensures q * gain <= x < q * gain + gain
  {
  }

  lemma BelowCap(need: int, gain: nat, least: int, k: nat)
    requires k < least && least * gain <= need + gain - 1
    ensures k * gain < need
  {
    MulMono(k + 1, least, gain);
    assert (k + 1) * gain == k * gain + gain;
  }

  lemma AtCap(need: int, gain: nat, least: int, k: nat)
    requires least <= k && need + gain - 1 < least * gain + gain
    ensures k * gain >= need
  {
    MulMono(least, k, gain);
  }

  function GemCurve(ref: seq<real>, stat: int, gain: nat, allowed: bool): (r: seq<real>)
    requires |ref| == MAX_STAT + 1 && gain > 0
  {
    seq(GemCount(stat, gain, allowed) + 1, k => ref[StatRow(stat + k * gain)])
  }

  lemma GemCurveRises(ref: seq<real>, stat: int, gain: nat, allowed: bool)
    requires |ref| == MAX_STAT + 1 && gain > 0 && NonDecreasing(ref)
    ensures NonDecreasing(GemCurve(ref, stat, gain, allowed))
    ensures forall k :: 0 <= k < |GemCurve(ref, stat, gain, allowed)| ==> ref[0] <= GemCurve(ref, stat, gain, allowed)[k]
  {
    var c := GemCurve(ref, stat, gain, allowed);
    forall i, j | 0 <= i <= j < |c| ensures c[i] <= c[j] {
      assert i * gain <= j * gain;
    }
  }

  function Gain(raises: bool, amount: nat): nat { if raises then amount else 0 }

  function PrimaryGain(f: ColorFlags, a: Alloc, elements: nat): nat {
    a.pp * Gain(f.ppPrimary, STAT_GEM_ELEMENT_GAIN) + a.cm * Gain(f.cmPrimary, STAT_GEM_ELEMENT_GAIN)
    + a.fm * Gain(f.fmPrimary, STAT_GEM_ELEMENT_GAIN) + elements * Gain(f.elementPrimary, ELEMENT_GEM_GAIN)
  }

  function SecondaryGain(f: ColorFlags, a: Alloc, elements: nat): nat {
    a.pp * Gain(f.ppSecondary, STAT_GEM_ELEMENT_GAIN) + a.cm * Gain(f.cmSecondary, STAT_GEM_ELEMENT_GAIN)
    + a.fm * Gain(f.fmSecondary, STAT_GEM_ELEMENT_GAIN) + elements * Gain(f.elementSecondary, ELEMENT_GEM_GAIN)
  }

  /** What one gem of each kind adds to 2 x primary + secondary. */
  datatype Weights = Weights(pp: nat, cm: nat, fm: nat, element: nat)

  function WeightsOf(f: ColorFlags): Weights {
    Weights(2 * Gain(f.ppPrimary, STAT_GEM_ELEMENT_GAIN) + Gain(f.ppSecondary, STAT_GEM_ELEMENT_GAIN),
            2 * Gain(f.cmPrimary, STAT_GEM_ELEMENT_GAIN) + Gain(f.cmSecondary, STAT_GEM_ELEMENT_GAIN),
            2 * Gain(f.fmPrimary, STAT_GEM_ELEMENT_GAIN) + Gain(f.fmSecondary, STAT_GEM_ELEMENT_GAIN),
            2 * Gain(f.elementPrimary, ELEMENT_GEM_GAIN) + Gain(f.elementSecondary, ELEMENT_GEM_GAIN))
  }

  predicate AllowPp(f: ColorFlags) { f.ppPrimary || f.ppSecondary }

  /** The stat curves per gem count of a loadout's PP, CM and FM. */
  datatype GemCurves = GemCurves(pp: seq<real>, cm: seq<real>, fm: seq<real>)

  function CurvesOf(s: Song, l: Loadout): GemCurves
    requires ValidSong(s)
  {
    GemCurves(GemCurve(s.curves.pp, l.pp, STAT_GEM_GAIN_NORMAL, AllowPp(s.flags)),
              GemCurve(s.curves.cm, l.cm, STAT_GEM_GAIN_NORMAL, true),
              GemCurve(s.curves.fm, l.fm, STAT_GEM_GAIN_FEVER, true))
  }

  // ---- The options of a loadout and their scores.

  ghost predicate InSpace(s: Song, l: Loadout, g: Group, a: Alloc)
    requires ValidSong(s)
  {
    var c := CurvesOf(s, l);
    a.cm < |c.cm| && a.fm < |c.fm| && a.pp < |c.pp| && a.cm + a.fm + a.pp <= g.residual
  }

  ghost predicate RowOf(s: Song, g: Group, row: nat)
    requires ValidSong(s) && ValidGroup(s, g)
  {
    s.pool.offsets[g.frontier] <= row < s.pool.offsets[g.frontier] + s.pool.lengths[g.frontier]
  }

  function SurfaceOf(s: Song, row: nat): Surface
    requires ValidSong(s) && row < |s.pool.counts|
  {
    Surface(s.pool.patternWords[s.pool.patternIds[row]], s.pool.counts[row].fever, s.pool.counts[row].great, s.pool.counts[row].feverGreat)
  }

  function GreatBase(primary: nat, secondary: nat, singleColor: bool): int {
    (if singleColor then 2 * primary
     else (primary as real * (4.0 / 3.0)).Floor + (secondary as real * (2.0 / 3.0)).Floor) + 150
  }

  /** The stat line of an allocation. */
  function AllocLine(s: Song, l: Loadout, g: Group, a: Alloc): Line
    requires ValidSong(s) && InSpace(s, l, g, a)
  {
    var c, elements := CurvesOf(s, l), g.residual - a.cm - a.fm - a.pp;
    var primary := l.primary + g.primaryGain + PrimaryGain(s.flags, a, elements);
    var secondary := l.secondary + g.secondaryGain + SecondaryGain(s.flags, a, elements);
    Line((primary * 2 + secondary) as real + c.pp[a.pp], GreatBase(primary, secondary, s.flags.singleColor) as real,
         c.cm[a.cm], s.curves.ramp[StatRow(l.cm + a.cm * STAT_GEM_GAIN_NORMAL)], c.fm[a.fm])
  }

  lemma AllocFields(s: Song, l: Loadout, g: Group, a: Alloc)
    requires ValidSong(s) && InSpace(s, l, g, a)
    ensures AllocLine(s, l, g, a).combo == CurvesOf(s, l).cm[a.cm] && AllocLine(s, l, g, a).fever == CurvesOf(s, l).fm[a.fm]
  {
    hide GreatBase, PrimaryGain, SecondaryGain;
  }

  function OptionScore(s: Song, l: Loadout, g: Group, row: nat, a: Alloc): int
    requires ValidSong(s) && InSpace(s, l, g, a) && row < |s.pool.counts|
  {
    SurfaceScore(SurfaceOf(s, row), AllocLine(s, l, g, a), s.headLen, s.bodyTotal)
  }

  predicate LexLess(a: Alloc, b: Alloc) {
    a.cm < b.cm || (a.cm == b.cm && (a.fm < b.fm || (a.fm == b.fm && a.pp < b.pp)))
  }

  // ---- The value of an allocation.

  /** 2 x primary + secondary of a group before its residual gems. */
  function BaseInit(l: Loadout, g: Group): nat {
    2 * (l.primary + g.primaryGain) + l.secondary + g.secondaryGain
  }

  /** What a count of gems adds to the base value over as many element gems. */
  function Over(weight: nat, w: Weights, gems: int): real {
    (gems * (weight - w.element)) as real
  }

  function PpPart(w: Weights, curve: seq<real>, gems: nat): real
    requires gems < |curve|
  {
    Over(w.pp, w, gems) + curve[gems]
  }

  /** The base value of a group with every residual gem on the element. */
  function BudgetDelta(w: Weights, l: Loadout, g: Group): real {
    (BaseInit(l, g) + g.residual * w.element) as real
  }

  lemma WeightSplit(n: int, p: int, q: int)
    ensures 2 * (n * p) + n * q == n * (2 * p + q)
  {
  }

  lemma GainsAreWeights(f: ColorFlags, a: Alloc, e: nat)
    ensures var w := WeightsOf(f);
            2 * PrimaryGain(f, a, e) + SecondaryGain(f, a, e) == a.pp * w.pp + a.cm * w.cm + a.fm * w.fm + e * w.element
  {
    hide Gain;
    WeightSplit(a.pp, Gain(f.ppPrimary, STAT_GEM_ELEMENT_GAIN), Gain(f.ppSecondary, STAT_GEM_ELEMENT_GAIN));
    WeightSplit(a.cm, Gain(f.cmPrimary, STAT_GEM_ELEMENT_GAIN), Gain(f.cmSecondary, STAT_GEM_ELEMENT_GAIN));
    WeightSplit(a.fm, Gain(f.fmPrimary, STAT_GEM_ELEMENT_GAIN), Gain(f.fmSecondary, STAT_GEM_ELEMENT_GAIN));
    WeightSplit(e, Gain(f.elementPrimary, ELEMENT_GEM_GAIN), Gain(f.elementSecondary, ELEMENT_GEM_GAIN));
  }

  lemma ElementSplit(r: int, x: int, y: int, z: int, wx: int, wy: int, wz: int, we: int)
    ensures x * wx + y * wy + z * wz + (r - y - z - x) * we == r * we + x * (wx - we) + y * (wy - we) + z * (wz - we)
  {
  }

  lemma BaseIsLinear(s: Song, l: Loadout, g: Group, a: Alloc)
    requires ValidSong(s) && InSpace(s, l, g, a)
    ensures var w := WeightsOf(s.flags);
            AllocLine(s, l, g, a).base == BudgetDelta(w, l, g) + Over(w.cm, w, a.cm) + Over(w.fm, w, a.fm)
                                          + PpPart(w, CurvesOf(s, l).pp, a.pp)
  {
    hide PrimaryGain, SecondaryGain, WeightsOf;
    var w := WeightsOf(s.flags);
    GainsAreWeights(s.flags, a, g.residual - a.cm - a.fm - a.pp);
    ElementSplit(g.residual, a.pp, a.cm, a.fm, w.pp, w.cm, w.fm, w.element);
  }

  /** The least an allocation's Perfect base exceeds its Great base. */
  function GreatGap(l: Loadout, g: Group, ppBase: real): real {
    BaseInit(l, g) as real / 3.0 + ppBase - 150.0
  }

  lemma GreatBaseUpper(primary: nat, secondary: nat, singleColor: bool)
    requires singleColor ==> primary == secondary
    ensures 0 <= GreatBase(primary, secondary, singleColor)
    ensures GreatBase(primary, secondary, singleColor) as real <= (2 * primary + secondary) as real * 2.0 / 3.0 + 150.0
  {
  }

  lemma SingleColorGains(f: ColorFlags, a: Alloc, elements: nat)
    requires f.ppPrimary == f.ppSecondary && f.cmPrimary == f.cmSecondary && f.fmPrimary == f.fmSecondary
    requires f.elementPrimary == f.elementSecondary
    ensures PrimaryGain(f, a, elements) == SecondaryGain(f, a, elements)
  {
  }

  /** An allocation's stat line is one the bounds hold at. */
  lemma AllocLineValid(s: Song, l: Loadout, g: Group, a: Alloc)
    requires ValidSong(s) && ValidLoadout(s, l) && ValidGroup(s, g) && InSpace(s, l, g, a)
    ensures var line := AllocLine(s, l, g, a);
            ValidLine(line) && RampIsLine(line) && line.base >= 0.0
    ensures var line := AllocLine(s, l, g, a);
            line.greatBase + GreatGap(l, g, CurvesOf(s, l).pp[0]) <= line.base
  {
    var line, c, e := AllocLine(s, l, g, a), CurvesOf(s, l), g.residual - a.cm - a.fm - a.pp;
    GemCurveRises(s.curves.pp, l.pp, STAT_GEM_GAIN_NORMAL, AllowPp(s.flags));
    GemCurveRises(s.curves.cm, l.cm, STAT_GEM_GAIN_NORMAL, true);
    GemCurveRises(s.curves.fm, l.fm, STAT_GEM_GAIN_FEVER, true);
    if s.flags.singleColor { SingleColorGains(s.flags, a, e); }
    var primary := l.primary + g.primaryGain + PrimaryGain(s.flags, a, e);
    var secondary := l.secondary + g.secondaryGain + SecondaryGain(s.flags, a, e);
    GreatBaseUpper(primary, secondary, s.flags.singleColor);
    RampValid(line.ramp, line.combo);
    assert c.pp[0] <= c.pp[a.pp];
  }

  lemma RampValid(ramp: seq<real>, combo: real)
    requires IsRamp(ramp, combo) && combo >= 1.0
    ensures forall i :: 0 <= i < |ramp| ==> ramp[i] >= 0.0
  {
    forall i | 0 <= i < |ramp| ensures ramp[i] >= 0.0 {
      Mono2(0.0, combo - 1.0, 0.0, (i + 1) as real);
    }
  }

  // ---- Every option's score is under base value x shape value less its Greats' loss.

  function RowShape(s: Song, row: nat): Shape
    requires ValidSong(s) && row < |s.pool.counts|
  {
    SurfaceShape(s.pool.counts[row].fever, s.bodyTotal - s.pool.counts[row].fever, s.pool.headCounts[s.pool.patternIds[row]])
  }

  function RowLoss(s: Song, row: nat, gap: real): Shape
    requires ValidSong(s) && row < |s.pool.counts|
  {
    LossShape(gap, s.pool.counts[row].great, s.pool.counts[row].feverGreat, s.pool.headCounts[s.pool.patternIds[row]])
  }

  lemma {:induction false} CountHeadOfWords(s: Surface, n: nat)
    requires |s.words| == 8 && n <= HEAD_NOTES
    ensures CountHead(s, n) == CountHead(PatternSurface(s.words), n)
  {
    if n > 0 { CountHeadOfWords(s, n - 1); }
  }

  /** Shapes have no negative coordinate: a head note's combo ramp is at most the full combo. */
  lemma RowShapeNonNegative(s: Song, row: nat)
    requires ValidSong(s) && row < |s.pool.counts|
    ensures NonNegative(RowShape(s, row))
  {
    CountHeadTotals(PatternSurface(s.pool.patternWords[s.pool.patternIds[row]]), s.headLen);
    assert ValidSurface(SurfaceOf(s, row), s.bodyTotal);
  }

  lemma OptionUpper(s: Song, l: Loadout, g: Group, row: nat, a: Alloc)
    requires ValidSong(s) && ValidLoadout(s, l) && ValidGroup(s, g) && InSpace(s, l, g, a) && row < |s.pool.counts|
    ensures var line, gap := AllocLine(s, l, g, a), GreatGap(l, g, CurvesOf(s, l).pp[0]);
            OptionScore(s, l, g, row, a) as real
            <= Worth(line.base, RowShape(s, row), line.combo, line.fever)
             - ShapeValue(RowLoss(s, row, gap), line.combo, line.fever)
    ensures 0 <= OptionScore(s, l, g, row, a)
  {
    hide AllocLine, ShapeValue, Worth, LossShape, SurfaceShape, SurfaceScore, GreatGap;
    var line, surface, gap := AllocLine(s, l, g, a), SurfaceOf(s, row), GreatGap(l, g, CurvesOf(s, l).pp[0]);
    AllocLineValid(s, l, g, a);
    CountHeadOfWords(surface, s.headLen);
    assert ValidSurface(surface, s.bodyTotal);
    ScoreUpper(surface, line, s.headLen, s.bodyTotal, gap);
    ScoreNonNegative(surface, line, s.headLen, s.bodyTotal);
  }
}
