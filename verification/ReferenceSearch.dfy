/** The bound-only search of the GPU's reference surface (gear_optimizer/gpu/scoring.py, surface_search without exact scores,
    and gem_reference), over exact reals: no pair's bound passes the one it returns, so the reference it builds bounds. */
module ReferenceSearch {
  import opened Arithmetic
  import opened Scoring
  import opened GemBounds
  import opened GemProblem
  import opened GemAdmissible
  import opened SurfaceSearch
  import opened ReferenceBound

  /** A reference whose base values cannot reach zero; the source gives any other no bound. */
  ghost predicate Bounding(x: Work, v: Wide) { WideReady(x, v) && BaseLow(x, v) >= 1.0 }

  predicate IsWidePair(x: Work, v: Wide, cm: nat, fm: nat) { cm < |x.c.cm| && fm < |x.c.fm| && cm + fm <= v.budget }

  function PairBound(x: Work, v: Wide, cm: nat, fm: nat): real
    requires |x.prefixMax| > 0 && IsWidePair(x, v, cm, fm)
  {
    Worth(WideBase(x, v, cm, fm), v.shape, x.c.cm[cm], x.c.fm[fm]) + MARGIN
  }

  /** What the loop computes for pairs up to `last` of a row, from the base value of its pair `first`. */
  function RunBound(x: Work, v: Wide, cm: nat, first: nat, last: nat): real
    requires |x.prefixMax| > 0 && first <= last && IsWidePair(x, v, cm, last)
  {
    RowValue(x, v.shape, WideBase(x, v, cm, first), x.c.cm[cm], x.c.fm[last]) + MARGIN
  }

  lemma RunBoundCovers(x: Work, v: Wide, cm: nat, first: nat, fm: nat, last: nat)
    requires Bounding(x, v) && first <= fm <= last && IsWidePair(x, v, cm, last)
    ensures MARGIN <= PairBound(x, v, cm, fm) <= RunBound(x, v, cm, first, last)
    ensures RunBound(x, v, cm, fm, fm) == PairBound(x, v, cm, fm)
  {
    hide Ready, ShapeValue, WideBase, BaseLow, Worth, RowValue, NonNegative;
    CurvesRise(x);
    WideBaseBetween(x, v, cm, fm);
    FewerFmMoreWide(x, v, cm, first, fm);
    RowValueIs(x, v.shape, WideBase(x, v, cm, first), x.c.cm[cm], x.c.fm[last]);
    RowValueIs(x, v.shape, WideBase(x, v, cm, fm), x.c.cm[cm], x.c.fm[fm]);
    ValueUpper(WideBase(x, v, cm, fm), WideBase(x, v, cm, first), v.shape, x.c.cm[cm], x.c.cm[cm], x.c.fm[fm], x.c.fm[last]);
    WorthNotNegative(WideBase(x, v, cm, fm), v.shape, x.c.cm[cm], x.c.fm[fm]);
  }

  lemma WorthNotNegative(base: real, s: Shape, c: real, f: real)
    requires base >= 0.0 && NonNegative(s) && c >= 0.0 && f >= 0.0
    ensures Worth(base, s, c, f) >= 0.0
  {
    hide ShapeValue;
    ShapeValueNonNegative(s, c, f);
    Mono2(0.0, base, 0.0, ShapeValue(s, c, f));
  }

  lemma FewerFmMoreWide(x: Work, v: Wide, cm: nat, fm: nat, more: nat)
    requires WideReady(x, v) && fm <= more && cm + more <= v.budget
    ensures WideBase(x, v, cm, more) <= WideBase(x, v, cm, fm)
  {
    hide Over, BestPp, Ready;
    OverMono(x.w.fm, x.w, fm, more);
    BestPpRises(x, v.budget - cm - more, v.budget - cm - fm);
  }

  // ---- The search.

  /** The gems of a pair and its bound. */
  ghost predicate IsWideFound(x: Work, v: Wide, best: Found) {
    && |x.prefixMax| > 0 && |x.c.pp| > 0 && IsWidePair(x, v, best.cm, best.fm)
    && best.score == PairBound(x, v, best.cm, best.fm).Floor
    && best.pp == WidePp(x, v, best.cm, best.fm) && best.elements == v.budget - best.cm - best.fm - best.pp
  }

  function WidePp(x: Work, v: Wide, cm: nat, fm: nat): nat
    requires |x.c.pp| > 0 && cm + fm <= v.budget
  {
    BestGems(x.w, x.c.pp, Min(|x.c.pp| - 1, v.budget - cm - fm))
  }

  function WideFound(x: Work, v: Wide, cm: nat, fm: nat): (f: Found)
    requires |x.prefixMax| > 0 && |x.c.pp| > 0 && IsWidePair(x, v, cm, fm)
    ensures IsWideFound(x, v, f)
  {
    var pp := WidePp(x, v, cm, fm);
    Found(PairBound(x, v, cm, fm).Floor, pp, cm, fm, v.budget - cm - fm - pp)
  }

  /** No pair before (cm, fm) passes the best. */
  ghost predicate Capped(x: Work, v: Wide, best: Found, cm: nat, fm: nat)
    requires |x.prefixMax| > 0
  {
    forall i: nat, j: nat {:trigger PairBound(x, v, i, j)} :: IsWidePair(x, v, i, j) && PairBefore(i, j, cm, fm) ==>
      PairBound(x, v, i, j).Floor <= best.score
  }

  /** A pair near the bound's peak along one axis: whatever the search finds, it is a pair. */
  method PeakAlong(x: Work, v: Wide, alongCm: bool, other: nat) returns (gems: nat)
    requires Bounding(x, v) && other <= v.budget && other < |if alongCm then x.c.fm else x.c.cm|
    ensures if alongCm then IsWidePair(x, v, gems, other) else IsWidePair(x, v, other, gems)
  {
    hide Ready, ShapeValue, WideBase, BaseLow, Worth, NonNegative;
    var lo, hi := 0, Min((if alongCm then |x.c.cm| else |x.c.fm|) - 1, v.budget - other);
    while lo < hi
      invariant 0 <= lo <= hi <= Min((if alongCm then |x.c.cm| else |x.c.fm|) - 1, v.budget - other)
    {
      var mid := (lo + hi) / 2;
      var rises := if alongCm then PairBound(x, v, mid + 1, other) > PairBound(x, v, mid, other)
                   else PairBound(x, v, other, mid + 1) > PairBound(x, v, other, mid);
      if rises { lo := mid + 1; } else { hi := mid; }
    }
    gems := lo;
  }

  /** Twice along each axis. */
  method SeedPair(x: Work, v: Wide) returns (cm: nat, fm: nat)
    requires Bounding(x, v)
    ensures IsWidePair(x, v, cm, fm)
  {
    hide Ready, BaseLow, NonNegative;
    fm := 0;
    cm := PeakAlong(x, v, true, fm);
    fm := PeakAlong(x, v, false, cm);
    cm := PeakAlong(x, v, true, fm);
    fm := PeakAlong(x, v, false, cm);
  }

  predicate Improves(f: Found, best: Found) {
    f.score > best.score
    || (f.score == best.score && (f.cm < best.cm || (f.cm == best.cm && (f.fm < best.fm || (f.fm == best.fm && f.pp < best.pp)))))
  }

  /** A run whose bound does not pass the best holds no pair that does. */
  lemma RunCapped(x: Work, v: Wide, best: Found, cm: nat, first: nat, last: nat)
    requires Bounding(x, v) && first <= last && IsWidePair(x, v, cm, last) && Capped(x, v, best, cm, first)
    requires RunBound(x, v, cm, first, last) <= best.score as real
    ensures Capped(x, v, best, cm, last + 1)
  {
    hide Bounding, RunBound, PairBound;
    HasTables(x, v);
    forall i: nat, j: nat | IsWidePair(x, v, i, j) && PairBefore(i, j, cm, last + 1) ensures PairBound(x, v, i, j).Floor <= best.score {
      if !PairBefore(i, j, cm, first) { RunBoundCovers(x, v, cm, first, j, last); }
    }
  }

  lemma StillCapped(x: Work, v: Wide, best: Found, best': Found, cm: nat, fm: nat)
    requires |x.prefixMax| > 0 && Capped(x, v, best, cm, fm) && best.score <= best'.score
    requires IsWidePair(x, v, cm, fm) && PairBound(x, v, cm, fm).Floor <= best'.score
    ensures Capped(x, v, best', cm, fm + 1)
  {
    hide PairBound;
  }

  method SearchWideRun(x: Work, v: Wide, best: Found, cm: nat, first: nat, last: nat) returns (best': Found)
    requires Bounding(x, v) && first <= last && IsWidePair(x, v, cm, last)
    requires IsWideFound(x, v, best) && Capped(x, v, best, cm, first)
    ensures IsWideFound(x, v, best') && Capped(x, v, best', cm, last + 1)
  {
    hide Bounding, PairBound, RunBound, IsWideFound, Capped, WidePp;
    HasTables(x, v);
    best' := best;
    var fm := first;
    while fm <= last
      invariant first <= fm <= last + 1 && IsWideFound(x, v, best') && Capped(x, v, best', cm, fm)
    {
      RunBoundCovers(x, v, cm, fm, fm, fm);
      if RunBound(x, v, cm, fm, fm) > best'.score as real && RunBound(x, v, cm, fm, fm) >= 0.0 {
        var f := WideFound(x, v, cm, fm);
        FoundScore(x, v, f);
        StillCapped(x, v, best', if Improves(f, best') then f else best', cm, fm);
        if Improves(f, best') { best' := f; }
      } else {
        RunCapped(x, v, best', cm, fm, fm);
      }
      fm := fm + 1;
    }
  }

  lemma HasTables(x: Work, v: Wide)
    requires Bounding(x, v)
    ensures |x.prefixMax| > 0 && |x.c.pp| > 0 && |x.c.cm| > 0 && |x.c.fm| > 0
  {
    hide Ready, BaseLow;
  }

  lemma FoundScore(x: Work, v: Wide, f: Found)
    requires IsWideFound(x, v, f)
    ensures |x.prefixMax| > 0 && IsWidePair(x, v, f.cm, f.fm) && f.score == PairBound(x, v, f.cm, f.fm).Floor
  {
    hide PairBound, WidePp;
  }

  method SearchWideRow(x: Work, v: Wide, best: Found, cm: nat) returns (best': Found)
    requires Bounding(x, v) && cm < |x.c.cm| && cm <= v.budget && IsWideFound(x, v, best) && Capped(x, v, best, cm, 0)
    ensures IsWideFound(x, v, best') && Capped(x, v, best', cm + 1, 0)
  {
    hide Bounding, PairBound, RunBound, IsWideFound, Capped, WidePp;
    HasTables(x, v);
    best' := best;
    var fmTop := Min(|x.c.fm| - 1, v.budget - cm);
    var fm, runEnd := 0, fmTop;
    while fm <= fmTop
      invariant 0 <= fm <= fmTop + 1 && (fm <= fmTop ==> fm <= runEnd <= fmTop)
      invariant IsWideFound(x, v, best') && Capped(x, v, best', cm, fm)
      decreases fmTop - fm, runEnd - fm
    {
      var bound := RunBound(x, v, cm, fm, runEnd);
      RunBoundCovers(x, v, cm, fm, fm, runEnd);
      var open := bound > best'.score as real && bound >= 0.0;
      if open && runEnd - fm >= FM_RUN {
        runEnd := fm + FM_RUN - 1;
        continue;
      }
      if open {
        best' := SearchWideRun(x, v, best', cm, fm, runEnd);
      } else {
        RunCapped(x, v, best', cm, fm, runEnd);
      }
      fm := runEnd + 1;
      runEnd := Min(fm + FM_RUN - 1, fmTop);
    }
    RowCapped(x, v, best', cm, fm);
  }

  lemma RowCapped(x: Work, v: Wide, best: Found, cm: nat, fm: nat)
    requires Bounding(x, v) && cm <= v.budget && fm == Min(|x.c.fm| - 1, v.budget - cm) + 1 && Capped(x, v, best, cm, fm)
    ensures Capped(x, v, best, cm + 1, 0)
  {
    hide Bounding, PairBound;
  }

  /** The score returned is a pair's bound and at least every pair's. */
  method BoundSearch(x: Work, v: Wide) returns (best: Found)
    requires Bounding(x, v)
    ensures IsWideFound(x, v, best)
    ensures |x.prefixMax| > 0 && forall i: nat, j: nat {:trigger PairBound(x, v, i, j)} :: IsWidePair(x, v, i, j) ==>
              PairBound(x, v, i, j).Floor <= best.score
  {
    hide Bounding, PairBound, RunBound, IsWideFound, WidePp;
    HasTables(x, v);
    var seedCm, seedFm := SeedPair(x, v);
    best := WideFound(x, v, seedCm, seedFm);
    var cmTop := Min(|x.c.cm| - 1, v.budget);
    for cm := 0 to cmTop + 1
      invariant IsWideFound(x, v, best) && Capped(x, v, best, cm, 0)
    {
      best := SearchWideRow(x, v, best, cm);
    }
  }

  // ---- The reference it gives.

  const SLACK: real := 1.00001

  /** The highest bound caps every pair's value. */
  lemma BestCaps(x: Work, v: Wide, best: Found)
    requires Bounding(x, v) && IsWideFound(x, v, best)
    requires forall i: nat, j: nat {:trigger PairBound(x, v, i, j)} :: IsWidePair(x, v, i, j) ==> PairBound(x, v, i, j).Floor <= best.score
    ensures |x.prefixMax| > 0 && CapsValues(x, v, best.score as real * SLACK)
  {
    hide Ready, ShapeValue, WideBase, BaseLow, NonNegative, WidePp, PairBound;
    FoundScore(x, v, best);
    RunBoundCovers(x, v, best.cm, best.fm, best.fm, best.fm);
    var top := best.score as real * SLACK;
    assert best.score >= 0 && top >= best.score as real;
    forall i: nat, j: nat | i < |x.c.cm| && j < |x.c.fm| && i + j <= v.budget
      ensures WideBase(x, v, i, j) * ShapeValue(v.shape, x.c.cm[i], x.c.fm[j]) <= top
    {
      assert IsWidePair(x, v, i, j);
      assert PairBound(x, v, i, j).Floor <= best.score;
      BoundIsWorth(x, v, i, j);
    }
  }

  lemma BoundIsWorth(x: Work, v: Wide, i: nat, j: nat)
    requires |x.prefixMax| > 0 && IsWidePair(x, v, i, j)
    ensures PairBound(x, v, i, j) == WideBase(x, v, i, j) * ShapeValue(v.shape, x.c.cm[i], x.c.fm[j]) + MARGIN
  {
    hide WideBase, ShapeValue;
  }

  /** The reference of a surface: its highest bound is found, and the reference built from it bounds every combo of at most its
      budget. */
  method SearchReference(x: Work, v: Wide) returns (r: GemReference, ghost top: real)
    requires Bounding(x, v) && ShapeValue(v.shape, x.c.cm[0], x.c.fm[0]) > 0.0
    ensures IsReference(x, v, top, r)
  {
    hide Ready, ShapeValue, WideBase, BaseLow, NonNegative, IsWideFound, PairBound, CapsValues;
    var best := BoundSearch(x, v);
    BestCaps(x, v, best);
    top := best.score as real * SLACK;
    CornersPositive(x, v, top, 0, 0);
    CornersPositive(x, v, top, 0, MaxFm(x, v));
    CornersPositive(x, v, top, MaxCm(x, v), 0);
    CornersPositive(x, v, top, MaxCm(x, v), MaxFm(x, v));
    WideBasePositive(x, v, top);
    r := ReferenceOf(x, v, best.score as real * SLACK);
  }

  /** A combo's search with a reference searched first: the first surface of highest score, or nothing reaches the floor. */
  method SearchCombo(x: Work, g: Group, floor: int, v: Wide) returns (best: ComboBest)
    requires GroupReady(x, g) && PlainFrontier(x, g) && g.residual <= v.budget
    requires Bounding(x, v) && ShapeValue(v.shape, x.c.cm[0], x.c.fm[0]) > 0.0
    ensures BestOf(x, g, floor, best, x.song.pool.lengths[g.frontier])
  {
    hide IsReference, Ready, ShapeValue, BestOf, PlainFrontier, BaseLow;
    var r, top := SearchReference(x, v);
    best := ExactGemSearch(x, g, floor, r, v, top);
  }
}
