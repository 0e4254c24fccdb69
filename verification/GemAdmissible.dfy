/** Each bound of the gem search is at least every score under it: the bounds of gem_search.py from a single split up
    to a whole group. */
module GemAdmissible {
  import opened Arithmetic
  import opened Scoring
  import opened GemBounds
  import opened GemProblem
  import opened GemTables

  /** One loadout's search: its weights, its gem curves and the most its PP gems add with at most k of them. */
  datatype Work = Work(song: Song, loadout: Loadout, w: Weights, c: GemCurves, prefixMax: seq<real>)

  function PrefixMax(w: Weights, curve: seq<real>, k: nat): real
    requires k < |curve|
  {
    if k == 0 then PpPart(w, curve, 0) else MaxReal(PrefixMax(w, curve, k - 1), PpPart(w, curve, k))
  }

  lemma {:induction false} PrefixMaxCovers(w: Weights, curve: seq<real>, i: nat, k: nat)
    requires i <= k < |curve|
    ensures PpPart(w, curve, i) <= PrefixMax(w, curve, k) && PrefixMax(w, curve, i) <= PrefixMax(w, curve, k)
  {
    if i < k { PrefixMaxCovers(w, curve, i, k - 1); }
  }

  ghost predicate Ready(x: Work) {
    && ValidSong(x.song) && ValidLoadout(x.song, x.loadout)
    && x.w == WeightsOf(x.song.flags) && x.c == CurvesOf(x.song, x.loadout)
    && |x.prefixMax| == |x.c.pp| && forall k :: 0 <= k < |x.c.pp| ==> x.prefixMax[k] == PrefixMax(x.w, x.c.pp, k)
  }

  ghost predicate GroupReady(x: Work, g: Group) {
    Ready(x) && ValidGroup(x.song, g)
  }

  ghost predicate Space(x: Work, g: Group, a: Alloc)
    requires Ready(x)
  {
    InSpace(x.song, x.loadout, g, a)
  }

  ghost function Score(x: Work, g: Group, row: nat, a: Alloc): int
    requires Ready(x) && Space(x, g, a) && row < |x.song.pool.counts|
  {
    OptionScore(x.song, x.loadout, g, row, a)
  }

  ghost function Base(x: Work, g: Group, a: Alloc): real
    requires Ready(x) && Space(x, g, a)
  {
    AllocLine(x.song, x.loadout, g, a).base
  }

  /** The best PP part with `left` gems over. */
  function BestPp(x: Work, left: nat): real
    requires |x.prefixMax| > 0
  {
    x.prefixMax[Min(|x.prefixMax| - 1, left)]
  }

  function Delta(x: Work, g: Group): real { BudgetDelta(x.w, x.loadout, g) }

  function Gap(x: Work, g: Group): real
    requires |x.c.pp| > 0
  {
    GreatGap(x.loadout, g, x.c.pp[0])
  }

  ghost predicate Curve(c: seq<real>) {
    NonDecreasing(c) && forall k :: 0 <= k < |c| ==> c[k] >= 1.0
  }

  lemma CurvesRise(x: Work)
    requires Ready(x)
    ensures Curve(x.c.cm) && Curve(x.c.fm)
  {
    GemCurveRises(x.song.curves.cm, x.loadout.cm, STAT_GEM_GAIN_NORMAL, true);
    GemCurveRises(x.song.curves.fm, x.loadout.fm, STAT_GEM_GAIN_FEVER, true);
  }

  lemma BestPpRises(x: Work, left: nat, more: nat)
    requires Ready(x) && left <= more
    ensures BestPp(x, left) <= BestPp(x, more)
  {
    PrefixMaxCovers(x.w, x.c.pp, Min(|x.prefixMax| - 1, left), Min(|x.prefixMax| - 1, more));
  }

  /** A pair's base value is at most its linear part with the best PP part of its leftover. */
  lemma BaseUpper(x: Work, g: Group, a: Alloc)
    requires GroupReady(x, g) && Space(x, g, a)
    ensures 0.0 <= Base(x, g, a)
         <= Delta(x, g) + Over(x.w.cm, x.w, a.cm) + Over(x.w.fm, x.w, a.fm) + BestPp(x, g.residual - a.cm - a.fm)
  {
    hide AllocLine, Over, PpPart, BudgetDelta;
    BaseIsLinear(x.song, x.loadout, g, a);
    AllocLineValid(x.song, x.loadout, g, a);
    PrefixMaxCovers(x.w, x.c.pp, a.pp, Min(|x.prefixMax| - 1, g.residual - a.cm - a.fm));
  }

  lemma OverMono(weight: nat, w: Weights, low: int, high: int)
    requires low <= high
    ensures weight > w.element ==> Over(weight, w, low) <= Over(weight, w, high)
    ensures weight <= w.element ==> Over(weight, w, high) <= Over(weight, w, low)
  {
    var d := weight - w.element;
    assert (high - low) * d == high * d - low * d;
    if d > 0 { assert (high - low) * d >= 0; } else { assert (high - low) * -d >= 0; }
  }

  // ---- An option's score by its own base value and multipliers.

  ghost predicate RowReady(x: Work, g: Group, row: nat) {
    GroupReady(x, g) && RowOf(x.song, g, row)
  }

  lemma ScoreUnder(x: Work, g: Group, row: nat, a: Alloc)
    requires RowReady(x, g, row) && Space(x, g, a)
    ensures row < |x.song.pool.counts|
    ensures 0 <= Score(x, g, row, a)
    ensures Score(x, g, row, a) as real
         <= Worth(Base(x, g, a), RowShape(x.song, row), x.c.cm[a.cm], x.c.fm[a.fm])
          - ShapeValue(RowLoss(x.song, row, Gap(x, g)), x.c.cm[a.cm], x.c.fm[a.fm])
  {
    hide ShapeValue, Worth, OptionScore, AllocLine, RowShape, RowLoss, GreatGap;
    AllocFields(x.song, x.loadout, g, a);
    OptionUpper(x.song, x.loadout, g, row, a);
  }

  lemma LossAtLeast(x: Work, g: Group, row: nat, c: real, f: real)
    requires RowReady(x, g, row) && c >= 1.0 && f >= 1.0
    ensures row < |x.song.pool.counts|
    ensures ShapeValue(RowLoss(x.song, row, Gap(x, g)), c, f) >= 0.0
    ensures forall c', f' :: c <= c' && f <= f' ==>
              ShapeValue(RowLoss(x.song, row, Gap(x, g)), c, f) <= ShapeValue(RowLoss(x.song, row, Gap(x, g)), c', f')
  {
    hide ShapeValue, LossShape;
    var q, h := x.song.pool.counts[row], x.song.pool.headCounts[x.song.pool.patternIds[row]];
    assert ValidSurface(SurfaceOf(x.song, row), x.song.bodyTotal);
    LossShapeAtLeast(Gap(x, g), q.great, q.feverGreat, h, c, f);
    var loss := RowLoss(x.song, row, Gap(x, g));
    forall c', f' | c <= c' && f <= f' ensures ShapeValue(loss, c, f) <= ShapeValue(loss, c', f') {
      ShapeValueMono(loss, c, f, c', f');
    }
  }

  lemma LossShapeAtLeast(gap: real, great: nat, feverGreat: nat, h: HeadCounts, c: real, f: real)
    requires feverGreat <= great && c >= 1.0 && f >= 1.0
    ensures var s := LossShape(gap, great, feverGreat, h);
            s.a >= 0.0 && s.e >= 0.0 && s.f >= 0.0 && ShapeValue(s, c, f) >= 0.0
  {
    if gap >= 1.0 {
      LossValue(gap, feverGreat as real, (great - feverGreat) as real, h.greatFever as real, h.greatNormal as real, c, f);
    }
  }

  lemma LossValue(gap: real, n: real, b: real, hf: real, hn: real, c: real, f: real)
    requires gap >= 1.0 && n >= 0.0 && b >= 0.0 && hf >= 0.0 && hn >= 0.0 && c >= 1.0 && f >= 1.0
    ensures gap * n >= n && gap * b >= b && gap * hf >= 0.0 && gap * hn >= 0.0
    ensures ShapeValue(Shape(gap * n, gap * b, gap * hf, gap * hn - (n + b)), c, f) >= 0.0
  {
    Mono2(1.0, gap, n, n);
    Mono2(1.0, gap, b, b);
    Mono2(0.0, gap, 0.0, hf);
    Mono2(0.0, gap, 0.0, hn);
    LossCoordinates(gap * n, gap * b, gap * hf, gap * hn, n + b, c, f);
  }

  lemma LossCoordinates(p: real, q: real, r: real, t: real, slack: real, c: real, f: real)
    requires p >= 0.0 && q >= 0.0 && r >= 0.0 && t >= 0.0 && p + q >= slack && c >= 1.0 && f >= 1.0
    ensures ShapeValue(Shape(p, q, r, t - slack), c, f) >= 0.0
  {
    ScaleMono(1.0, f, p);
    Mono2(0.0, r, 0.0, f);
    var x := p * f + q;
    ScaleMono(1.0, c, x);
    assert c * x >= slack;
  }

  lemma RowShapeBound(x: Work, g: Group, row: nat)
    requires RowReady(x, g, row)
    ensures row < |x.song.pool.counts| && NonNegative(RowShape(x.song, row))
  {
    RowShapeNonNegative(x.song, row);
  }

  // ---- One level up at a time.

  /** V x shape(C, F) - loss(C, F) at its most over base values up to `base` and multipliers between the corners. */
  lemma ValueUpper(v: real, base: real, s: Shape, c: real, c': real, f: real, f': real)
    requires 0.0 <= v <= base && 1.0 <= c <= c' && 1.0 <= f <= f' && NonNegative(s)
    ensures Worth(v, s, c, f) <= Worth(base, s, c', f')
  {
    hide ShapeValue;
    ShapeValueMono(s, c, f, c', f');
    ShapeValueNonNegative(s, c, f);
    Mono2(v, base, ShapeValue(s, c, f), ShapeValue(s, c', f'));
  }

  lemma WorthMono(v: real, s: Shape, s': Shape, c: real, f: real)
    requires v >= 0.0 && ShapeValue(s, c, f) <= ShapeValue(s', c, f)
    ensures Worth(v, s, c, f) <= Worth(v, s', c, f)
  {
    hide ShapeValue;
    ScaleMono(ShapeValue(s, c, f), ShapeValue(s', c, f), v);
  }

  /** At a combo, a shape's value is linear in the fever. */
  lemma ShapeAtCombo(s: Shape, c: real, f: real)
    ensures ShapeValue(s, c, f) == (s.a * c + s.f) * f + (s.e * c + s.g)
  {
  }

  /** A block's base value without delta, at the corner where its gems add the most. */
  ghost predicate InBlock(a: Alloc, q: Corner) {
    q.cm0 <= a.cm <= q.cm1 && q.fm0 <= a.fm <= q.fm1
  }

  lemma BlockOfAlloc(x: Work, g: Group, a: Alloc)
    requires GroupReady(x, g) && Space(x, g, a)
    ensures IsBlock(x.c, a.cm / TILE, a.fm / TILE) && InBlock(a, CornerOf(x.c, a.cm / TILE, a.fm / TILE))
  {
  }

  /** An allocation's base value and multipliers lie within its block's corners. */
  lemma AllocInBlock(x: Work, g: Group, a: Alloc, j: nat, k: nat)
    requires GroupReady(x, g) && Space(x, g, a) && IsBlock(x.c, j, k) && InBlock(a, CornerOf(x.c, j, k))
    ensures j * TILE + k * TILE <= g.residual
    ensures var b := BlockOf(x.c, x.w, j, k);
            && Base(x, g, a) <= b.base + (Delta(x, g) + BestPp(x, g.residual - j * TILE - k * TILE))
            && 1.0 <= b.worstCombo <= x.c.cm[a.cm] <= b.combo && 1.0 <= b.worstFever <= x.c.fm[a.fm] <= b.fever
  {
    hide AllocLine, Over, BudgetDelta, PrefixMax;
    var q := CornerOf(x.c, j, k);
    BaseUpper(x, g, a);
    CurvesRise(x);
    OverMono(x.w.cm, x.w, q.cm0, a.cm);
    OverMono(x.w.cm, x.w, a.cm, q.cm1);
    OverMono(x.w.fm, x.w, q.fm0, a.fm);
    OverMono(x.w.fm, x.w, a.fm, q.fm1);
    BestPpRises(x, g.residual - a.cm - a.fm, g.residual - q.cm0 - q.fm0);
  }

  ghost function BlockDelta(x: Work, g: Group, j: nat, k: nat): real
    requires Ready(x) && j * TILE + k * TILE <= g.residual
  {
    Delta(x, g) + BestPp(x, g.residual - j * TILE - k * TILE)
  }

  /** The block bound of a surface, less its Greats' loss at the block's worst corner. */
  lemma BlockBoundCovers(x: Work, g: Group, row: nat, a: Alloc, j: nat, k: nat)
    requires RowReady(x, g, row) && Space(x, g, a) && IsBlock(x.c, j, k) && InBlock(a, CornerOf(x.c, j, k))
    ensures j * TILE + k * TILE <= g.residual && row < |x.song.pool.counts|
    ensures var b := BlockOf(x.c, x.w, j, k);
            Score(x, g, row, a) as real
            <= BlockBound(b, BlockDelta(x, g, j, k), RowShape(x.song, row)) - 1025.0
             - ShapeValue(RowLoss(x.song, row, Gap(x, g)), b.worstCombo, b.worstFever)
  {
    hide ShapeValue, Worth, BlockOf, AllocLine, OptionScore, RowShape, RowLoss;
    var b := BlockOf(x.c, x.w, j, k);
    ScoreUnder(x, g, row, a);
    AllocInBlock(x, g, a, j, k);
    RowShapeBound(x, g, row);
    LossAtLeast(x, g, row, b.worstCombo, b.worstFever);
    BaseUpper(x, g, a);
    ValueUpper(Base(x, g, a), b.base + BlockDelta(x, g, j, k), RowShape(x.song, row), x.c.cm[a.cm], b.combo, x.c.fm[a.fm], b.fever);
  }

  /** A shape that bounds every surface of a frontier. */
  ghost predicate BoundsFrontier(s: Song, f: nat, most: Shape)
    requires ValidSong(s) && f < |s.pool.offsets|
  {
    NonNegative(most)
    && forall row :: s.pool.offsets[f] <= row < s.pool.offsets[f] + s.pool.lengths[f] ==> BoundsShape(most, RowShape(s, row))
  }

  /** The value a group's option would have on the frontier's shape is at least its score. */
  lemma FrontierCovers(x: Work, g: Group, row: nat, a: Alloc, most: Shape)
    requires RowReady(x, g, row) && Space(x, g, a) && BoundsFrontier(x.song, g.frontier, most)
    ensures row < |x.song.pool.counts|
    ensures Score(x, g, row, a) as real <= Worth(Base(x, g, a), most, x.c.cm[a.cm], x.c.fm[a.fm])
  {
    hide ShapeValue, Worth, AllocLine, OptionScore, RowShape, RowLoss, BoundsShape;
    CurvesRise(x);
    ScoreUnder(x, g, row, a);
    BaseUpper(x, g, a);
    LossAtLeast(x, g, row, x.c.cm[a.cm], x.c.fm[a.fm]);
    FrontierShapeBounds(most, RowShape(x.song, row), x.c.cm[a.cm], x.c.fm[a.fm]);
    WorthMono(Base(x, g, a), RowShape(x.song, row), most, x.c.cm[a.cm], x.c.fm[a.fm]);
  }

  /** The block bound at the frontier's shape covers every surface of the frontier. */
  lemma FrontierBlockCovers(x: Work, g: Group, row: nat, a: Alloc, j: nat, k: nat, most: Shape)
    requires RowReady(x, g, row) && Space(x, g, a) && IsBlock(x.c, j, k) && InBlock(a, CornerOf(x.c, j, k))
    requires BoundsFrontier(x.song, g.frontier, most)
    ensures j * TILE + k * TILE <= g.residual && row < |x.song.pool.counts|
    ensures Score(x, g, row, a) as real <= BlockBound(BlockOf(x.c, x.w, j, k), BlockDelta(x, g, j, k), most) - 1025.0
  {
    hide ShapeValue, Worth, AllocLine, OptionScore, BlockOf;
    var b := BlockOf(x.c, x.w, j, k);
    AllocInBlock(x, g, a, j, k);
    FrontierCovers(x, g, row, a, most);
    BaseUpper(x, g, a);
    ValueUpper(Base(x, g, a), b.base + BlockDelta(x, g, j, k), most, x.c.cm[a.cm], b.combo, x.c.fm[a.fm], b.fever);
  }

  // ---- Columns and budgets.

  /** Base value x fever under a chord, at any delta between its ends. */
  lemma UnderChordBetween(ch: Chord, b: Block, lo: real, hi: real, d: real)
    requires UnderChord(ch, b, lo, hi) && lo < hi && lo <= d <= hi
    ensures (b.base + d) * b.fever <= ch.intercept + d * ch.slope
  {
    var p, q := b.fever - ch.slope, b.base * b.fever - ch.intercept;
    assert (b.base + lo) * b.fever == b.base * b.fever + lo * b.fever;
    assert (b.base + hi) * b.fever == b.base * b.fever + hi * b.fever;
    assert (b.base + d) * b.fever == b.base * b.fever + d * b.fever;
    LinearBetween(p, q, lo, hi, d);
    assert d * b.fever - d * ch.slope == p * d;
    assert lo * b.fever - lo * ch.slope == p * lo;
    assert hi * b.fever - hi * ch.slope == p * hi;
  }

  lemma LinearBetween(p: real, q: real, lo: real, hi: real, d: real)
    requires p * lo + q <= 0.0 && p * hi + q <= 0.0 && lo <= d <= hi
    ensures p * d + q <= 0.0
  {
    if p >= 0.0 { ScaleMono(d, hi, p); } else { ScaleMono(lo, d, -p); }
  }

  lemma ColumnValue(v: real, base: real, baseFever: real, c: real, combo: real, f: real, s: Shape)
    requires 0.0 <= v <= base && v * f <= baseFever && 0.0 <= c <= combo && f >= 0.0 && NonNegative(s)
    ensures Worth(v, s, c, f) <= baseFever * (combo * s.a + s.f) + base * (combo * s.e + s.g)
  {
    hide Worth;
    Mono2(0.0, v, 0.0, f);
    Mono2(c, combo, s.a, s.a);
    Mono2(c, combo, s.e, s.e);
    AffineWorth(v, s, c, f);
    Mono2(v * f, baseFever, c * s.a + s.f, combo * s.a + s.f);
    Mono2(v, base, c * s.e + s.g, combo * s.e + s.g);
  }

  lemma AffineWorth(v: real, s: Shape, c: real, f: real)
    ensures Worth(v, s, c, f) == (v * f) * (c * s.a + s.f) + v * (c * s.e + s.g)
  {
    var x, y := c * s.a + s.f, c * s.e + s.g;
    assert ShapeValue(s, c, f) == f * x + y;
    assert v * (f * x + y) == (v * f) * x + v * y;
  }

  ghost function ColumnDelta(x: Work, g: Group, j: nat): real
    requires Ready(x) && j * TILE <= g.residual
  {
    Delta(x, g) + BestPp(x, g.residual - j * TILE)
  }

  /** A column's bound covers its blocks' options at every surface of the frontier. */
  lemma ColumnCovers(x: Work, g: Group, row: nat, a: Alloc, j: nat, ch: Chord, last: nat, lo: real, hi: real, most: Shape)
    requires RowReady(x, g, row) && Space(x, g, a) && j == a.cm / TILE && a.fm / TILE <= last
    requires BoundsFrontier(x.song, g.frontier, most) && IsBlock(x.c, j, last) && ChordBounds(ch, x.c, x.w, j, last, lo, hi)
    requires lo < hi && j * TILE <= g.residual && lo <= ColumnDelta(x, g, j) <= hi
    ensures row < |x.song.pool.counts|
    ensures Score(x, g, row, a) as real <= ColumnBound(x.c.cm[CornerOf(x.c, j, 0).cm1], ch, ColumnDelta(x, g, j), most) - 1025.0
  {
    hide ShapeValue, Worth, AllocLine, OptionScore, BlockOf, UnderChord, RowShape, ColumnBound;
    var k, d := a.fm / TILE, ColumnDelta(x, g, j);
    BlockOfAlloc(x, g, a);
    var b := BlockOf(x.c, x.w, j, k);
    AllocInBlock(x, g, a, j, k);
    BestPpRises(x, g.residual - j * TILE - k * TILE, g.residual - j * TILE);
    FrontierCovers(x, g, row, a, most);
    BaseUpper(x, g, a);
    BlockUnderColumn(x.c, x.w, j, k);
    assert UnderChord(ch, b, lo, hi);
    WorthUnderColumn(Base(x, g, a), x.c.cm[a.cm], x.c.fm[a.fm], b, d, ch, lo, hi, most);
  }

  lemma WorthUnderColumn(v: real, c: real, f: real, b: Block, d: real, ch: Chord, lo: real, hi: real, s: Shape)
    requires UnderChord(ch, b, lo, hi) && lo < hi && lo <= d <= hi && NonNegative(s)
    requires 0.0 <= v <= b.base + d && 0.0 <= c <= b.combo && 0.0 <= f <= b.fever
    ensures Worth(v, s, c, f) <= ColumnBound(b.combo, ch, d, s) - 1025.0
  {
    hide Worth;
    UnderChordBetween(ch, b, lo, hi, d);
    Mono2(v, b.base + d, f, b.fever);
    ColumnValue(v, ch.base + d, ch.intercept + d * ch.slope, c, b.combo, f, s);
  }

  lemma BlockUnderColumn(c: GemCurves, w: Weights, j: nat, k: nat)
    requires |c.cm| > 0 && |c.fm| > 0 && IsBlock(c, j, k)
    ensures BlockOf(c, w, j, k).combo == c.cm[CornerOf(c, j, 0).cm1]
  {
  }

  /** A budget's bound is at least each of its columns' (delta is not negative). */
  lemma BudgetCoversColumn(combo: real, ch: Chord, shift: real, t: Terms, delta: real, s: Shape)
    requires AtMost(ColumnTerms(combo, ch, shift), t) && delta >= 0.0 && NonNegative(s)
    ensures ColumnBound(combo, ch, delta + shift, s) <= BudgetBound(t, delta, s)
  {
    hide ColumnBound, ColumnTerms, BudgetBound;
    ColumnIsItsTerms(combo, ch, shift, delta, s);
    BudgetMono(ColumnTerms(combo, ch, shift), t, delta, s);
  }

  lemma BudgetMono(q: Terms, t: Terms, delta: real, s: Shape)
    requires AtMost(q, t) && delta >= 0.0 && NonNegative(s)
    ensures BudgetBound(q, delta, s) <= BudgetBound(t, delta, s)
  {
    hide Term;
    TermMono(s.a, q.a0, q.a1, t.a0, t.a1, delta);
    TermMono(s.e, q.e0, q.e1, t.e0, t.e1, delta);
    TermMono(s.f, q.f0, q.f1, t.f0, t.f1, delta);
    TermMono(s.g, q.g0, q.g1, t.g0, t.g1, delta);
  }

  lemma TermMono(k: real, v: real, slope: real, v': real, slope': real, delta: real)
    requires k >= 0.0 && delta >= 0.0 && v <= v' && slope <= slope'
    ensures Term(k, v, slope, delta) <= Term(k, v', slope', delta)
  {
    ScaleMono(slope, slope', delta);
    ScaleMono(v + delta * slope, v' + delta * slope', k);
  }

  lemma ColumnIsItsTerms(combo: real, ch: Chord, shift: real, delta: real, s: Shape)
    ensures ColumnBound(combo, ch, delta + shift, s) == BudgetBound(ColumnTerms(combo, ch, shift), delta, s)
  {
    var bf := ch.intercept + shift * ch.slope;
    assert ch.intercept + (delta + shift) * ch.slope == bf + delta * ch.slope;
    RegroupTerms(combo, bf + delta * ch.slope, ch.base + shift + delta, s);
    assert combo * bf + delta * (combo * ch.slope) == combo * (bf + delta * ch.slope);
    assert combo * (ch.base + shift) + delta * combo == combo * (ch.base + shift + delta);
  }

  lemma RegroupTerms(combo: real, p: real, q: real, s: Shape)
    ensures p * (combo * s.a + s.f) + q * (combo * s.e + s.g) == s.a * (combo * p) + s.e * (combo * q) + s.f * p + s.g * q
  {
  }

  // ---- The surface ceiling.

  /** Over a group's live blocks: the highest frontier bound and the lowest base value and multipliers. */
  datatype LiveSummary = LiveSummary(peak: real, base: real, combo: real, fever: real, worstCombo: real, worstFever: real)

  function Distance(most: Shape, s: Shape): Shape {
    Shape(most.a - s.a, most.e - s.e, most.f - s.f, most.g - s.g)
  }

  function SurfaceCeiling(live: LiveSummary, most: Shape, s: Shape, loss: Shape): real {
    live.peak - Worth(live.base, Distance(most, s), live.combo, live.fever) - ShapeValue(loss, live.worstCombo, live.worstFever)
  }

  ghost predicate Summarizes(live: LiveSummary, b: Block, delta: real, most: Shape) {
    && BlockBound(b, delta, most) <= live.peak
    && 0.0 <= live.base <= b.base + delta && 1.0 <= live.combo <= b.combo && 1.0 <= live.fever <= b.fever
    && 1.0 <= live.worstCombo <= b.worstCombo && 1.0 <= live.worstFever <= b.worstFever
  }

  /** What a surface misses of the frontier's shape at a block is at least what it misses at the lowest corner. */
  lemma DistanceMono(most: Shape, s: Shape, c: real, f: real, c': real, f': real)
    requires BoundsShape(most, s) && 1.0 <= c <= c' && 1.0 <= f <= f'
    ensures 0.0 <= ShapeValue(Distance(most, s), c, f) <= ShapeValue(Distance(most, s), c', f')
  {
    hide ShapeValue;
    var p, q := most.a - s.a, most.f - s.f;
    ShapeDistance(most, s, c, f);
    ShapeDistance(most, s, c', f');
    Mono2(c, c', p, p);
    Mono2(f - 1.0, f' - 1.0, c * p + q, c' * p + q);
  }

  lemma BlockLess(b: Block, delta: real, most: Shape, s: Shape)
    requires BoundsShape(most, s)
    ensures BlockBound(b, delta, s)
         == BlockBound(b, delta, most) - Worth(b.base + delta, Distance(most, s), b.combo, b.fever)
  {
    hide ShapeValue;
    ShapeDistance(most, s, b.combo, b.fever);
    Distribute(b.base + delta, ShapeValue(s, b.combo, b.fever), ShapeValue(Distance(most, s), b.combo, b.fever));
  }

  lemma WorthLowest(v: real, v': real, s: Shape, c: real, f: real, c': real, f': real)
    requires 0.0 <= v <= v' && 0.0 <= ShapeValue(s, c, f) <= ShapeValue(s, c', f')
    ensures Worth(v, s, c, f) <= Worth(v', s, c', f')
  {
    hide ShapeValue;
    Mono2(v, v', ShapeValue(s, c, f), ShapeValue(s, c', f'));
  }

  lemma CeilingCovers(x: Work, g: Group, row: nat, a: Alloc, j: nat, k: nat, most: Shape, live: LiveSummary)
    requires RowReady(x, g, row) && Space(x, g, a) && IsBlock(x.c, j, k) && InBlock(a, CornerOf(x.c, j, k))
    requires BoundsFrontier(x.song, g.frontier, most) && j * TILE + k * TILE <= g.residual
    requires Summarizes(live, BlockOf(x.c, x.w, j, k), BlockDelta(x, g, j, k), most)
    ensures row < |x.song.pool.counts|
    ensures Score(x, g, row, a) as real <= SurfaceCeiling(live, most, RowShape(x.song, row), RowLoss(x.song, row, Gap(x, g))) - 1025.0
  {
    hide ShapeValue, Worth, AllocLine, OptionScore, BlockOf, BlockBound, BoundsShape, Distance, RowShape, RowLoss;
    var b, d, s := BlockOf(x.c, x.w, j, k), BlockDelta(x, g, j, k), RowShape(x.song, row);
    BlockBoundCovers(x, g, row, a, j, k);
    BlockLess(b, d, most, s);
    DistanceMono(most, s, live.combo, live.fever, b.combo, b.fever);
    WorthLowest(live.base, b.base + d, Distance(most, s), live.combo, live.fever, b.combo, b.fever);
    LossAtLeast(x, g, row, live.worstCombo, live.worstFever);
  }
}
