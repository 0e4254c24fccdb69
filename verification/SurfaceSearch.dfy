/** The GPU's gem search on one surface (gear_optimizer/gpu/scoring.py, surface_search), over exact reals: (CM, FM)
    pairs in order, a row and then runs of pairs bounded before they are scored, PP gems from the prefix-argmax table. */
module SurfaceSearch {
  import opened Arithmetic
  import opened Words
  import opened Scoring
  import opened GemBounds
  import opened GemProblem
  import opened GemAdmissible
  import opened SplitScores

  const FM_RUN: nat := 8
  const HEAD_MARGIN: real := 128.0

  // ---- The PP gems of a pair.

  /** The fewest PP gems, at most k, of the best PP part (the prefix-argmax table). */
  function BestGems(w: Weights, curve: seq<real>, k: nat): (r: nat)
    requires k < |curve|
    ensures r <= k
  {
    if k == 0 then 0
    else
      var before := BestGems(w, curve, k - 1);
      if PpPart(w, curve, k) > PpPart(w, curve, before) then k else before
  }

  lemma {:induction false} BestGemsAreBest(w: Weights, curve: seq<real>, k: nat)
    requires k < |curve|
    ensures PpPart(w, curve, BestGems(w, curve, k)) == PrefixMax(w, curve, k)
    ensures forall i: nat :: i < BestGems(w, curve, k) ==> PpPart(w, curve, i) < PrefixMax(w, curve, k)
  {
    hide PpPart;
    if k > 0 {
      BestGemsAreBest(w, curve, k - 1);
      var best := BestGems(w, curve, k);
      forall i: nat | i < best ensures PpPart(w, curve, i) < PrefixMax(w, curve, k) {
        if best == k { PrefixMaxCovers(w, curve, i, k - 1); }
      }
    }
  }

  ghost predicate IsPair(x: Work, g: Group, cm: nat, fm: nat) {
    cm < |x.c.cm| && fm < |x.c.fm| && cm + fm <= g.residual
  }

  /** A pair's allocation: its leftover goes to the table's PP gems, the rest to the element. */
  function PairAlloc(x: Work, g: Group, cm: nat, fm: nat): Alloc
    requires cm + fm <= g.residual && |x.c.pp| > 0
  {
    Alloc(cm, fm, BestGems(x.w, x.c.pp, Min(|x.c.pp| - 1, g.residual - cm - fm)))
  }

  lemma PairInSpace(x: Work, g: Group, cm: nat, fm: nat)
    requires Ready(x) && IsPair(x, g, cm, fm)
    ensures |x.c.pp| > 0 && Space(x, g, PairAlloc(x, g, cm, fm))
  {
  }

  /** A pair's base value. */
  function PairBase(x: Work, g: Group, cm: nat, fm: nat): real
    requires |x.prefixMax| > 0 && cm + fm <= g.residual
  {
    Delta(x, g) + Over(x.w.cm, x.w, cm) + Over(x.w.fm, x.w, fm) + BestPp(x, g.residual - cm - fm)
  }

  lemma PairBaseIs(x: Work, g: Group, cm: nat, fm: nat)
    requires GroupReady(x, g) && IsPair(x, g, cm, fm)
    ensures |x.c.pp| > 0 && |x.prefixMax| > 0 && Space(x, g, PairAlloc(x, g, cm, fm))
    ensures Base(x, g, PairAlloc(x, g, cm, fm)) == PairBase(x, g, cm, fm) >= 0.0
  {
    hide AllocLine, Over, PpPart, BudgetDelta, PrefixMax;
    PairInSpace(x, g, cm, fm);
    var a := PairAlloc(x, g, cm, fm);
    BaseIsLinear(x.song, x.loadout, g, a);
    BaseUpper(x, g, a);
    BestGemsAreBest(x.w, x.c.pp, Min(|x.c.pp| - 1, g.residual - cm - fm));
  }

  ghost function PairScore(x: Work, g: Group, row: nat, cm: nat, fm: nat): int
    requires GroupReady(x, g) && IsPair(x, g, cm, fm) && row < |x.song.pool.counts|
  {
    PairInSpace(x, g, cm, fm);
    Score(x, g, row, PairAlloc(x, g, cm, fm))
  }

  // ---- Bounds.

  /** A pair's value at its own base and another fever multiplier of the row. */
  function RowValue(x: Work, s: Shape, base: real, combo: real, fever: real): real {
    base * ((combo * s.a + s.f) * fever + (combo * s.e + s.g))
  }

  lemma RowValueIs(x: Work, s: Shape, base: real, combo: real, fever: real)
    ensures RowValue(x, s, base, combo, fever) == Worth(base, s, combo, fever)
  {
    ShapeAtCombo(s, combo, fever);
  }

  /** Along a row an FM gem replaces an element gem and gains no base value. */
  lemma FewerFmMoreBase(x: Work, g: Group, cm: nat, fm: nat, more: nat)
    requires Ready(x) && x.w.fm <= x.w.element && fm <= more && cm + more <= g.residual
    ensures PairBase(x, g, cm, more) <= PairBase(x, g, cm, fm)
  {
    hide Over, BestPp;
    OverMono(x.w.fm, x.w, fm, more);
    BestPpRises(x, g.residual - cm - more, g.residual - cm - fm);
  }

  /** A run's bound covers its pairs. */
  lemma RunCovers(x: Work, g: Group, row: nat, cm: nat, first: nat, fm: nat, last: nat)
    requires RowReady(x, g, row) && x.w.fm <= x.w.element
    requires first <= fm <= last && IsPair(x, g, cm, last)
    ensures row < |x.song.pool.counts| && |x.prefixMax| > 0
    ensures PairScore(x, g, row, cm, fm) as real
         <= RowValue(x, RowShape(x.song, row), PairBase(x, g, cm, first), x.c.cm[cm], x.c.fm[last])
  {
    hide ShapeValue, Worth, AllocLine, OptionScore, RowShape, RowLoss, PairBase, RowValue, Gap;
    PairInSpace(x, g, cm, fm);
    PairBaseIs(x, g, cm, fm);
    ScoreUnder(x, g, row, PairAlloc(x, g, cm, fm));
    RowShapeBound(x, g, row);
    CurvesRise(x);
    LossAtLeast(x, g, row, x.c.cm[cm], x.c.fm[fm]);
    FewerFmMoreBase(x, g, cm, first, fm);
    ValueUpper(PairBase(x, g, cm, fm), PairBase(x, g, cm, first), RowShape(x.song, row), x.c.cm[cm], x.c.cm[cm], x.c.fm[fm], x.c.fm[last]);
    RowValueIs(x, RowShape(x.song, row), PairBase(x, g, cm, first), x.c.cm[cm], x.c.fm[last]);
  }

  // ---- The exact score, given up early where it stays below a floor.

  /** The timeline frontier's surfaces hold no Greats. */
  predicate Plain(s: Surface) {
    |s.words| == 8 && s.words[4..] == [0, 0, 0, 0] && s.bodyGreat == 0 && s.bodyFeverGreat == 0
  }

  lemma {:induction false} ZeroBit(b: nat)
    ensures !Bit(0, b)
  {
    if b > 0 { ZeroBit(b - 1); }
  }

  lemma PlainHasNoGreats(s: Surface, note: nat)
    requires Plain(s) && note < HEAD_NOTES
    ensures !IsGreat(s, note)
  {
    assert s.words[4 + note / 32] == s.words[4..][note / 32];
    ZeroBit(note % 32);
  }

  /** The head's sum before floors, from the shape less the body's notes. */
  lemma HeadSumCovers(s: Surface, l: Line, headLen: nat, bodyTotal: nat)
    requires ValidSurface(s, bodyTotal) && headLen <= HEAD_NOTES && ValidLine(l) && RampIsLine(l)
    ensures var q := SurfaceShape(s.bodyFever, bodyTotal - s.bodyFever, CountHead(s, headLen));
            HeadScore(s, l, headLen) as real
            <= Worth(l.base, Shape(q.a - s.bodyFever as real, q.e - (bodyTotal - s.bodyFever) as real, q.f, q.g), l.combo, l.fever)
  {
    hide HeadScore, HeadValue, HeadLoss, BodyValue, CountHead, ShapeValue, ValidLine;
    var h := CountHead(s, headLen);
    HeadShapeIs(s.bodyFever as real, (bodyTotal - s.bodyFever) as real, h.sigmaFever as real * 0.01, h.sigmaNormal as real * 0.01);
    HeadScoreUpper(s, l, headLen, 0.0);
    BaseSplit(l.base, RampSlope(l), l.combo, l.fever, 0.0, 0.0, h);
    NoLoss(l.combo, l.fever, 0.0, 0.0, h);
    NoBody(l.base, l.combo, l.fever);
  }

  lemma HeadShapeIs(bf: real, bn: real, sf: real, sn: real)
    ensures (bf + sf) - bf == 0.0 + sf && (bn + sn) - bn == 0.0 + sn
  {
  }

  lemma NoBody(base: real, c: real, f: real)
    ensures BodyValue(base, c, 0.0, f, 0.0) == 0.0
  {
  }

  /** The exact score of a surface without Greats; -1 when the body and the head's sum tell it stays below the floor. */
  method ScoreOrLess(s: Surface, l: Line, shape: Shape, headLen: nat, bodyTotal: nat, floor: int) returns (r: int)
    requires Plain(s) && ValidSurface(s, bodyTotal) && headLen <= HEAD_NOTES && ValidLine(l) && RampIsLine(l)
    requires shape == SurfaceShape(s.bodyFever, bodyTotal - s.bodyFever, CountHead(s, headLen))
    ensures r == SurfaceScore(s, l, headLen, bodyTotal) || (r == -1 && SurfaceScore(s, l, headLen, bodyTotal) < floor)
  {
    hide Points, CountHead, Worth;
    var bodyNormal := bodyTotal - s.bodyFever;
    r := s.bodyFever * Points(l.base, l.combo, l, true) + bodyNormal * Points(l.base, l.combo, l, false);
    PlainBody(s, l, bodyTotal);
    var headShape := shape.(a := shape.a - s.bodyFever as real, e := shape.e - bodyNormal as real);
    var headSum := Worth(l.base, headShape, l.combo, l.fever);
    HeadSumCovers(s, l, headLen, bodyTotal);
    if r + (headSum + HEAD_MARGIN).Floor < floor {
      return -1;
    }
    for note := 0 to headLen
      invariant r == BodyScore(s, l, bodyTotal) + HeadScore(s, l, note)
    {
      PlainHasNoGreats(s, note);
      r := r + Points(l.base, l.ramp[note], l, InFever(s, note));
    }
  }

  lemma PlainBody(s: Surface, l: Line, bodyTotal: nat)
    requires Plain(s)
    ensures BodyScore(s, l, bodyTotal)
         == s.bodyFever * Points(l.base, l.combo, l, true) + (bodyTotal - s.bodyFever) * Points(l.base, l.combo, l, false)
  {
    hide Points;
  }

  // ---- The search.

  /** The best pair so far; score -1: none. */
  datatype Found = Found(score: int, pp: nat, cm: nat, fm: nat, elements: int)

  ghost predicate PairBefore(cm: nat, fm: nat, cm': nat, fm': nat) { cm < cm' || (cm == cm' && fm < fm') }

  /** A pair that does not win: under the floor, or lower than the best, or tied and after it. */
  ghost predicate Settled(x: Work, g: Group, row: nat, floor: int, best: Found, cm: nat, fm: nat)
    requires RowReady(x, g, row) && IsPair(x, g, cm, fm) && row < |x.song.pool.counts|
  {
    var score := PairScore(x, g, row, cm, fm);
    score < floor || score < best.score || (score == best.score && !PairBefore(cm, fm, best.cm, best.fm))
  }

  ghost predicate IsFound(x: Work, g: Group, row: nat, best: Found)
    requires RowReady(x, g, row) && row < |x.song.pool.counts|
  {
    best.score >= -1
    && (best.score > -1 ==>
          && IsPair(x, g, best.cm, best.fm) && |x.c.pp| > 0 && PairScore(x, g, row, best.cm, best.fm) == best.score
          && best.pp == PairAlloc(x, g, best.cm, best.fm).pp && best.elements == g.residual - best.cm - best.fm - best.pp)
  }

  /** The search at pair (cm, fm): every pair before it is settled. */
  ghost predicate Searched(x: Work, g: Group, row: nat, floor: int, best: Found, cm: nat, fm: nat)
    requires RowReady(x, g, row) && row < |x.song.pool.counts|
  {
    && IsFound(x, g, row, best) && (best.score > -1 ==> PairBefore(best.cm, best.fm, cm, fm))
    && forall i: nat, j: nat :: IsPair(x, g, i, j) && PairBefore(i, j, cm, fm) ==> Settled(x, g, row, floor, best, i, j)
  }

  /** Scores a pair and keeps it when it improves. */
  method TryPair(x: Work, g: Group, row: nat, floor: int, best: Found, cm: nat, fm: nat) returns (best': Found)
    requires RowReady(x, g, row) && row < |x.song.pool.counts| && Plain(SurfaceOf(x.song, row)) && IsPair(x, g, cm, fm)
    requires Searched(x, g, row, floor, best, cm, fm)
    ensures Searched(x, g, row, floor, best', cm, fm + 1)
  {
    hide GroupReady, Ready, AllocLine, SurfaceOf, BestGems, PairScore, IsPair;
    var score := PairScoreOrLess(x, g, row, Max(best.score, floor), cm, fm);
    PairHasAlloc(x, g, cm, fm);
    var pp := PairAlloc(x, g, cm, fm).pp;
    best' := best;
    if score > best.score
       || (score == best.score && (cm < best.cm || (cm == best.cm && (fm < best.fm || (fm == best.fm && pp < best.pp))))) {
      best' := Found(score, pp, cm, fm, g.residual - cm - fm - pp);
    }
    forall i: nat, j: nat | IsPair(x, g, i, j) && PairBefore(i, j, cm, fm + 1) ensures Settled(x, g, row, floor, best', i, j) {
      if PairBefore(i, j, cm, fm) { assert Settled(x, g, row, floor, best, i, j); }
    }
  }

  lemma PairHasAlloc(x: Work, g: Group, cm: nat, fm: nat)
    requires GroupReady(x, g) && IsPair(x, g, cm, fm)
    ensures |x.c.pp| > 0 && cm + fm <= g.residual && PairAlloc(x, g, cm, fm).pp + cm + fm <= g.residual
  {
    hide ValidSong, BestGems;
    PairInSpace(x, g, cm, fm);
  }

  method PairScoreOrLess(x: Work, g: Group, row: nat, floor: int, cm: nat, fm: nat) returns (score: int)
    requires RowReady(x, g, row) && row < |x.song.pool.counts| && Plain(SurfaceOf(x.song, row)) && IsPair(x, g, cm, fm)
    ensures score == PairScore(x, g, row, cm, fm) >= 0 || (score == -1 && 0 <= PairScore(x, g, row, cm, fm) < floor)
  {
    hide ValidSong, AllocLine, BestGems, SurfaceScore, IsPair, CountHead, RowShape, RowLoss, Gap;
    PairInSpace(x, g, cm, fm);
    var a := PairAlloc(x, g, cm, fm);
    AllocLineValid(x.song, x.loadout, g, a);
    RowShapeIs(x.song, row);
    ScoreUnder(x, g, row, a);
    score := ScoreOrLess(SurfaceOf(x.song, row), AllocLine(x.song, x.loadout, g, a), RowShape(x.song, row), x.song.headLen,
                         x.song.bodyTotal, floor);
  }

  lemma RowShapeIs(s: Song, row: nat)
    requires ValidSong(s) && row < |s.pool.counts|
    ensures var q := SurfaceOf(s, row);
            ValidSurface(q, s.bodyTotal) && s.headLen <= HEAD_NOTES
            && RowShape(s, row) == SurfaceShape(q.bodyFever, s.bodyTotal - q.bodyFever, CountHead(q, s.headLen))
  {
    CountHeadOfWords(SurfaceOf(s, row), s.headLen);
  }

  /** A run of pairs bounded by a value that neither beats the best nor reaches the floor holds no winner. */
  lemma RunSettled(x: Work, g: Group, row: nat, floor: int, best: Found, cm: nat, first: nat, last: nat)
    requires RowReady(x, g, row) && row < |x.song.pool.counts| && x.w.fm <= x.w.element
    requires first <= last && IsPair(x, g, cm, last) && |x.prefixMax| > 0
    requires Searched(x, g, row, floor, best, cm, first)
    requires var bound := RowValue(x, RowShape(x.song, row), PairBase(x, g, cm, first), x.c.cm[cm], x.c.fm[last]) + MARGIN;
             !(bound > best.score as real && bound >= floor as real)
    ensures Searched(x, g, row, floor, best, cm, last + 1)
  {
    hide GroupReady, RowValue, PairBase, RowShape, PairScore;
    forall i: nat, j: nat | IsPair(x, g, i, j) && PairBefore(i, j, cm, last + 1) ensures Settled(x, g, row, floor, best, i, j) {
      if PairBefore(i, j, cm, first) {
        assert Settled(x, g, row, floor, best, i, j);
      } else {
        RunCovers(x, g, row, cm, first, j, last);
      }
    }
  }

  /** The pairs of an open run, each bounded before it is scored. */
  method SearchRun(x: Work, g: Group, row: nat, floor: int, best: Found, cm: nat, first: nat, last: nat) returns (best': Found)
    requires RowReady(x, g, row) && row < |x.song.pool.counts| && Plain(SurfaceOf(x.song, row)) && x.w.fm <= x.w.element
    requires first <= last && IsPair(x, g, cm, last) && |x.prefixMax| > 0
    requires Searched(x, g, row, floor, best, cm, first)
    ensures Searched(x, g, row, floor, best', cm, last + 1)
  {
    hide ValidSong, RowValue, PairBase, RowShape, PairScore, Searched, PrefixMax;
    best' := best;
    var fm := first;
    while fm <= last
      invariant first <= fm <= last + 1 && Searched(x, g, row, floor, best', cm, fm)
    {
      var bound := RowValue(x, RowShape(x.song, row), PairBase(x, g, cm, fm), x.c.cm[cm], x.c.fm[fm]) + MARGIN;
      if bound > best'.score as real && bound >= floor as real {
        best' := TryPair(x, g, row, floor, best', cm, fm);
      } else {
        RunSettled(x, g, row, floor, best', cm, fm, fm);
      }
      fm := fm + 1;
    }
  }

  /** A row: bounded whole, then in runs of FM_RUN pairs. */
  method SearchRow(x: Work, g: Group, row: nat, floor: int, best: Found, cm: nat) returns (best': Found)
    requires RowReady(x, g, row) && row < |x.song.pool.counts| && Plain(SurfaceOf(x.song, row)) && x.w.fm <= x.w.element
    requires cm < |x.c.cm| && cm <= g.residual && |x.c.fm| > 0 && |x.prefixMax| > 0
    requires Searched(x, g, row, floor, best, cm, 0)
    ensures Searched(x, g, row, floor, best', cm + 1, 0)
  {
    hide ValidSong, RowValue, PairBase, RowShape, PairScore, Searched, PrefixMax;
    best' := best;
    var fmTop := Min(|x.c.fm| - 1, g.residual - cm);
    var fm, runEnd := 0, fmTop;
    while fm <= fmTop
      invariant 0 <= fm <= fmTop + 1 && (fm <= fmTop ==> fm <= runEnd <= fmTop)
      invariant Searched(x, g, row, floor, best', cm, fm)
      decreases fmTop - fm, runEnd - fm
    {
      var bound := RowValue(x, RowShape(x.song, row), PairBase(x, g, cm, fm), x.c.cm[cm], x.c.fm[runEnd]) + MARGIN;
      var open := bound > best'.score as real && bound >= floor as real;
      if open && runEnd - fm >= FM_RUN {
        runEnd := fm + FM_RUN - 1;
        continue;
      }
      if open {
        best' := SearchRun(x, g, row, floor, best', cm, fm, runEnd);
      } else {
        RunSettled(x, g, row, floor, best', cm, fm, runEnd);
      }
      fm := runEnd + 1;
      runEnd := Min(fm + FM_RUN - 1, fmTop);
    }
    RowEnds(x, g, row, floor, best', cm, fm);
  }

  lemma RowEnds(x: Work, g: Group, row: nat, floor: int, best: Found, cm: nat, fm: nat)
    requires RowReady(x, g, row) && row < |x.song.pool.counts|
    requires fm == Min(|x.c.fm| - 1, g.residual - cm) + 1 && Searched(x, g, row, floor, best, cm, fm)
    ensures Searched(x, g, row, floor, best, cm + 1, 0)
  {
    hide GroupReady, PairScore, Settled;
  }

  /** The first pair of highest score, its PP gems from the table, when some pair reaches the floor. */
  method SurfaceSearch(x: Work, g: Group, row: nat, floor: int) returns (best: Found)
    requires RowReady(x, g, row) && row < |x.song.pool.counts| && Plain(SurfaceOf(x.song, row)) && x.w.fm <= x.w.element
    ensures IsFound(x, g, row, best)
    ensures forall i: nat, j: nat :: IsPair(x, g, i, j) ==> Settled(x, g, row, floor, best, i, j)
  {
    hide GroupReady, PairScore, Settled, Searched;
    NonEmptyCurves(x, g, row);
    best := Found(-1, 0, 0, 0, 0);
    var cmTop := Min(|x.c.cm| - 1, g.residual);
    NothingSearched(x, g, row, floor, best);
    for cm := 0 to cmTop + 1
      invariant Searched(x, g, row, floor, best, cm, 0)
    {
      best := SearchRow(x, g, row, floor, best, cm);
    }
    AllSearched(x, g, row, floor, best, cmTop + 1);
  }

  lemma NonEmptyCurves(x: Work, g: Group, row: nat)
    requires RowReady(x, g, row)
    ensures |x.c.cm| > 0 && |x.c.fm| > 0 && |x.c.pp| > 0 && |x.prefixMax| > 0
  {
  }

  lemma NothingSearched(x: Work, g: Group, row: nat, floor: int, best: Found)
    requires RowReady(x, g, row) && row < |x.song.pool.counts| && best == Found(-1, 0, 0, 0, 0)
    ensures Searched(x, g, row, floor, best, 0, 0)
  {
    hide GroupReady, PairScore, Settled;
  }

  lemma AllSearched(x: Work, g: Group, row: nat, floor: int, best: Found, cm: nat)
    requires RowReady(x, g, row) && row < |x.song.pool.counts| && Searched(x, g, row, floor, best, cm, 0)
    requires cm == Min(|x.c.cm| - 1, g.residual) + 1
    ensures IsFound(x, g, row, best)
    ensures forall i: nat, j: nat :: IsPair(x, g, i, j) ==> Settled(x, g, row, floor, best, i, j)
  {
    hide GroupReady, PairScore, Settled;
  }

  // ---- The table's PP gems lose nothing.

  /** Without Greats the Great base does not matter. */
  lemma {:induction false} PlainHead(s: Surface, l: Line, y: real, n: nat)
    requires Plain(s) && n <= HEAD_NOTES && n <= |l.ramp|
    ensures HeadScore(s, l.(greatBase := y), n) == HeadScore(s, l, n)
  {
    hide Points, InFever, IsGreat;
    if n > 0 {
      PlainHead(s, l, y, n - 1);
      PlainHasNoGreats(s, n - 1);
      PointsIgnoreGreat(l.base, l.ramp[n - 1], l, y, InFever(s, n - 1));
    }
  }

  lemma PointsIgnoreGreat(base: real, scaling: real, l: Line, y: real, fever: bool)
    ensures Points(base, scaling, l.(greatBase := y), fever) == Points(base, scaling, l, fever)
  {
  }

  lemma PlainScore(s: Surface, l: Line, y: real, headLen: nat, bodyTotal: nat)
    requires Plain(s) && headLen <= HEAD_NOTES && headLen <= |l.ramp|
    ensures SurfaceScore(s, l.(greatBase := y), headLen, bodyTotal) == SurfaceScore(s, l, headLen, bodyTotal)
  {
    hide Points, BodyScore, HeadScore, Plain;
    PlainHead(s, l, y, headLen);
    PlainBody(s, l, bodyTotal);
    PlainBody(s, l.(greatBase := y), bodyTotal);
    PointsIgnoreGreat(l.base, l.combo, l, y, true);
    PointsIgnoreGreat(l.base, l.combo, l, y, false);
  }

  /** A pair's score is the highest of its allocations. */
  lemma PairIsBest(x: Work, g: Group, row: nat, a: Alloc)
    requires RowReady(x, g, row) && row < |x.song.pool.counts| && Plain(SurfaceOf(x.song, row)) && Space(x, g, a)
    ensures IsPair(x, g, a.cm, a.fm) && Score(x, g, row, a) <= PairScore(x, g, row, a.cm, a.fm)
  {
    hide ValidSong, BestGems, SurfaceScore, AllocLine, PairBase, Plain;
    PairInSpace(x, g, a.cm, a.fm);
    PairBaseIs(x, g, a.cm, a.fm);
    var b, surface := PairAlloc(x, g, a.cm, a.fm), SurfaceOf(x.song, row);
    var la, lb := AllocLine(x.song, x.loadout, g, a), AllocLine(x.song, x.loadout, g, b);
    PairBaseCovers(x, g, a);
    SameMultipliers(x, g, a, b);
    LineAmplifies(x.song, x.loadout, g, a);
    RowShapeIs(x.song, row);
    ScoreRises(surface, la, lb.base - la.base, 0.0, x.song.headLen, x.song.bodyTotal, 0);
    PlainScore(surface, lb, la.greatBase, x.song.headLen, x.song.bodyTotal);
    assert Raised(la, lb.base - la.base, 0.0) == lb.(greatBase := la.greatBase);
  }

  lemma PairBaseCovers(x: Work, g: Group, a: Alloc)
    requires GroupReady(x, g) && Space(x, g, a) && |x.prefixMax| > 0
    ensures Base(x, g, a) <= PairBase(x, g, a.cm, a.fm)
  {
    BaseUpper(x, g, a);
  }

  lemma SameMultipliers(x: Work, g: Group, a: Alloc, b: Alloc)
    requires GroupReady(x, g) && Space(x, g, a) && Space(x, g, b) && a.cm == b.cm && a.fm == b.fm
    ensures AllocLine(x.song, x.loadout, g, a).combo == AllocLine(x.song, x.loadout, g, b).combo
    ensures AllocLine(x.song, x.loadout, g, a).ramp == AllocLine(x.song, x.loadout, g, b).ramp
    ensures AllocLine(x.song, x.loadout, g, a).fever == AllocLine(x.song, x.loadout, g, b).fever
  {
    hide PrimaryGain, SecondaryGain, GreatBase, CurvesOf, ValidSong;
  }

  /** The search's score is the highest of every allocation on the surface, whenever one reaches the floor. */
  lemma FoundIsBest(x: Work, g: Group, row: nat, floor: int, best: Found, a: Alloc)
    requires RowReady(x, g, row) && row < |x.song.pool.counts| && Plain(SurfaceOf(x.song, row)) && Space(x, g, a)
    requires forall i: nat, j: nat :: IsPair(x, g, i, j) ==> Settled(x, g, row, floor, best, i, j)
    ensures Score(x, g, row, a) < floor || Score(x, g, row, a) <= best.score
  {
    hide GroupReady, PairScore, Score, Plain;
    PairIsBest(x, g, row, a);
    assert Settled(x, g, row, floor, best, a.cm, a.fm);
  }
}
