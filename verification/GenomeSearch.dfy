/** One genome's search over the combos of its key (gear_optimizer/gpu/kernels.py): a sure score as the first incumbent, the
    combos whose reference bound reaches it, their exact searches in any order with any stale incumbent, and the reduction to
    the winner. Over exact reals. */
module GenomeSearch {
  import opened Arithmetic
  import opened Scoring
  import opened GemBounds
  import opened GemProblem
  import opened GemAdmissible
  import opened SurfaceSearch
  import opened ReferenceBound
  import opened ReferenceSearch

  // ---- What a pair is sure to score.

  lemma PointsLower(base: real, scaling: real, l: Line, fever: bool)
    ensures Points(base, scaling, l, fever) as real >= Times(base, Multiplier(l, scaling, fever)) - 1.0
  {
  }

  lemma {:induction false} PlainHeadLower(s: Surface, l: Line, n: nat)
    requires Plain(s) && |s.words| == 8 && n <= HEAD_NOTES && ValidLine(l) && RampIsLine(l)
    ensures HeadScore(s, l, n) as real >= HeadValue(CountHead(s, n), l.base, RampSlope(l), l.fever) - n as real
  {
    hide HeadValue, Points, Plain, Multiplier, InFever, IsGreat;
    if n == 0 {
      NoHeadValue(l);
    } else {
      PlainHeadLower(s, l, n - 1);
      PlainHasNoGreats(s, n - 1);
      RampAt(l, n);
      PointsLower(l.base, l.ramp[n - 1], l, InFever(s, n - 1));
      HeadValueStep(CountHead(s, n - 1), n, l, RampSlope(l), l.ramp[n - 1], InFever(s, n - 1), IsGreat(s, n - 1));
    }
  }

  lemma NoHeadValue(l: Line)
    ensures HeadValue(HeadCounts(0, 0, 0, 0, 0, 0), l.base, RampSlope(l), l.fever) == 0.0
  {
  }

  lemma PlainBodyLower(s: Surface, l: Line, bodyTotal: nat)
    requires Plain(s) && ValidSurface(s, bodyTotal) && ValidLine(l)
    ensures BodyScore(s, l, bodyTotal) as real
         >= BodyValue(l.base, l.combo, s.bodyFever as real, l.fever, (bodyTotal - s.bodyFever) as real) - bodyTotal as real
  {
    hide Points, BodyValue, Plain, BodyScore;
    var f, m := s.bodyFever, bodyTotal - s.bodyFever;
    PlainBody(s, l, bodyTotal);
    PlainFits(s, bodyTotal);
    CountLower(f, l, true);
    CountLower(m, l, false);
    BodyFactor(l.base, l.combo, f as real, l.fever, m as real);
  }

  lemma PlainFits(s: Surface, bodyTotal: nat)
    requires Plain(s) && ValidSurface(s, bodyTotal)
    ensures s.bodyFever <= bodyTotal
  {
  }

  lemma CountLower(count: nat, l: Line, fever: bool)
    ensures (count * Points(l.base, l.combo, l, fever)) as real >= count as real * (l.base * Multiplier(l, l.combo, fever)) - count as real
  {
    hide Points, Multiplier;
    PointsLower(l.base, l.combo, l, fever);
    var p, v := Points(l.base, l.combo, l, fever), l.base * Multiplier(l, l.combo, fever);
    IntProduct(count, p);
    ScaleMono(v - 1.0, p as real, count as real);
    assert count as real * (v - 1.0) == count as real * v - count as real;
  }

  /** A surface without Greats loses less than a point per note against its shape's value. */
  lemma PlainScoreLower(s: Surface, l: Line, headLen: nat, bodyTotal: nat)
    requires Plain(s) && ValidSurface(s, bodyTotal) && headLen <= HEAD_NOTES && ValidLine(l) && RampIsLine(l)
    ensures SurfaceScore(s, l, headLen, bodyTotal) as real
         >= Worth(l.base, SurfaceShape(s.bodyFever, bodyTotal - s.bodyFever, CountHead(s, headLen)), l.combo, l.fever) - (headLen + bodyTotal) as real
  {
    hide HeadValue, BodyScore, HeadScore, ShapeValue, BodyValue, Plain;
    PlainFits(s, bodyTotal);
    PlainHeadLower(s, l, headLen);
    PlainBodyLower(s, l, bodyTotal);
    BaseSplit(l.base, RampSlope(l), l.combo, l.fever, s.bodyFever as real, (bodyTotal - s.bodyFever) as real, CountHead(s, headLen));
  }

  /** Truncation toward zero. */
  function Truncated(v: real): int { if v >= 0.0 then v.Floor else -(-v).Floor }

  /** A cast to an integer drops the fraction, toward zero. */
  lemma TruncatedIs(v: real)
    ensures v >= 0.0 ==> 0.0 <= Truncated(v) as real <= v < Truncated(v) as real + 1.0
    ensures v <= 0.0 ==> Truncated(v) as real - 1.0 < v <= Truncated(v) as real <= 0.0
  {
  }

  /** A pair's floor: its bound less twice the margin, truncated, less a point per note. */
  function PairFloor(x: Work, g: Group, row: nat, cm: nat, fm: nat): int
    requires RowReady(x, g, row) && IsPair(x, g, cm, fm) && row < |x.song.pool.counts| && |x.prefixMax| > 0
  {
    Truncated(Worth(PairBase(x, g, cm, fm), RowShape(x.song, row), x.c.cm[cm], x.c.fm[fm]) + MARGIN - 2.0 * MARGIN)
    - (x.song.bodyTotal + x.song.headLen)
  }

  lemma PairFloorIsSure(x: Work, g: Group, row: nat, cm: nat, fm: nat)
    requires RowReady(x, g, row) && IsPair(x, g, cm, fm) && row < |x.song.pool.counts| && Plain(SurfaceOf(x.song, row))
    ensures |x.prefixMax| > 0 && PairFloor(x, g, row, cm, fm) <= PairScore(x, g, row, cm, fm)
  {
    hide ShapeValue, Worth, AllocLine, RowShape, SurfaceScore, ValidSong, BestGems, PairBase, Plain, ValidLine, RampIsLine, CountHead;
    PairInSpace(x, g, cm, fm);
    PairBaseIs(x, g, cm, fm);
    var a := PairAlloc(x, g, cm, fm);
    AllocLineValid(x.song, x.loadout, g, a);
    AllocFields(x.song, x.loadout, g, a);
    RowShapeIs(x.song, row);
    ScoreUnder(x, g, row, a);
    PlainScoreLower(SurfaceOf(x.song, row), AllocLine(x.song, x.loadout, g, a), x.song.headLen, x.song.bodyTotal);
  }

  // ---- The genome's combos.

  /** A pair of a combo that is known to be spendable: its floor is the first incumbent. */
  datatype Sure = Sure(combo: nat, surface: nat, cm: nat, fm: nat)

  ghost predicate CombosReady(x: Work, combos: seq<Group>, budget: nat) {
    forall i :: 0 <= i < |combos| ==> ComboReady(x, combos[i], budget)
  }

  ghost predicate ComboReady(x: Work, g: Group, budget: nat) { GroupReady(x, g) && PlainFrontier(x, g) && g.residual <= budget }

  ghost predicate IsSure(x: Work, combos: seq<Group>, sure: Sure) {
    sure.combo < |combos| && GroupReady(x, combos[sure.combo]) && SurfacePair(x, combos[sure.combo], sure.surface, sure.cm, sure.fm)
  }

  /** Every pair of the combo scores below the incumbent, below the best, or ties with it and its combo is not earlier. */
  ghost predicate Behind(x: Work, g: Group, i: nat, incumbent: int, winner: nat, score: int)
    requires GroupReady(x, g)
  {
    forall surface: nat, cm: nat, fm: nat :: SurfacePair(x, g, surface, cm, fm) ==>
      PairScoreOn(x, g, surface, cm, fm) < incumbent || PairScoreOn(x, g, surface, cm, fm) < score
      || (PairScoreOn(x, g, surface, cm, fm) == score && winner <= i)
  }

  /** The genome's winner: no pair of any combo scores more, an earlier combo's score less, and within the combo the surface and
      pair are the first. */
  ghost predicate IsGenomeWinner(x: Work, combos: seq<Group>, budget: nat, winner: nat, best: ComboBest) {
    && best.found.score > -1 && winner < |combos| && IsResult(x, combos[winner], budget, best.found.score, best)
    && forall i :: 0 <= i < |combos| ==> ComboReady(x, combos[i], budget) && NotBefore(x, combos[i], i, winner, best.found.score)
  }

  ghost predicate NotBefore(x: Work, g: Group, i: nat, winner: nat, score: int)
    requires GroupReady(x, g)
  {
    forall surface: nat, cm: nat, fm: nat :: SurfacePair(x, g, surface, cm, fm) ==>
      PairScoreOn(x, g, surface, cm, fm) < score || (PairScoreOn(x, g, surface, cm, fm) == score && winner <= i)
  }

  /** Some surface's reference bound reaches the incumbent. */
  ghost predicate MayReach(x: Work, g: Group, incumbent: int, r: GemReference, count: nat)
    requires GroupReady(x, g) && |r.scale| == 4 && count <= x.song.pool.lengths[g.frontier]
  {
    exists surface: nat :: surface < count && BoundReaches(x, g, incumbent, r, surface)
  }

  ghost predicate BoundReaches(x: Work, g: Group, incumbent: int, r: GemReference, surface: nat)
    requires GroupReady(x, g) && |r.scale| == 4 && surface < x.song.pool.lengths[g.frontier]
  {
    var row := x.song.pool.offsets[g.frontier] + surface;
    row < |x.song.pool.counts| && BoundBy(r, Delta(x, g), RowShape(x.song, row)) >= incumbent as real
  }

  /** Whether some surface of the combo may reach the incumbent. */
  method Reaches(x: Work, g: Group, incumbent: int, r: GemReference, ghost v: Wide, ghost top: real) returns (reaches: bool)
    requires GroupReady(x, g) && IsReference(x, v, top, r) && g.residual <= v.budget
    ensures |r.scale| == 4 && (reaches <==> MayReach(x, g, incumbent, r, x.song.pool.lengths[g.frontier]))
    ensures !reaches ==> forall surface: nat, cm: nat, fm: nat :: SurfacePair(x, g, surface, cm, fm) ==>
              PairScoreOn(x, g, surface, cm, fm) < incumbent
  {
    hide ShapeValue, IsReference, BoundBy, PairScore, Ready, RowShape, Delta, IsPair;
    reaches := false;
    FrontierInPool(x, g);
    ReferenceScales(x, v, top, r);
    var first, count := x.song.pool.offsets[g.frontier], x.song.pool.lengths[g.frontier];
    for surface := 0 to count
      invariant reaches <==> MayReach(x, g, incumbent, r, surface)
      invariant !reaches ==> forall s: nat, cm: nat, fm: nat :: s < surface && SurfacePair(x, g, s, cm, fm) ==>
                  PairScoreOn(x, g, s, cm, fm) < incumbent
    {
      if BoundBy(r, Delta(x, g), RowShape(x.song, first + surface)) >= incumbent as real {
        reaches := true;
        assert BoundReaches(x, g, incumbent, r, surface);
      } else {
        SurfaceUnder(x, g, incumbent, surface, r, v, top);
      }
    }
  }

  lemma SurfaceUnder(x: Work, g: Group, incumbent: int, surface: nat, r: GemReference, v: Wide, top: real)
    requires GroupReady(x, g) && surface < x.song.pool.lengths[g.frontier]
    requires IsReference(x, v, top, r) && |r.scale| == 4 && g.residual <= v.budget
    requires var row := x.song.pool.offsets[g.frontier] + surface;
             row < |x.song.pool.counts| && BoundBy(r, Delta(x, g), RowShape(x.song, row)) < incumbent as real
    ensures forall cm: nat, fm: nat :: SurfacePair(x, g, surface, cm, fm) ==> PairScoreOn(x, g, surface, cm, fm) < incumbent
  {
    hide PairScore, Ready, IsPair, BoundBy, RowShape, Delta, IsReference;
    FrontierInPool(x, g);
    var row := x.song.pool.offsets[g.frontier] + surface;
    assert RowReady(x, g, row);
    forall cm: nat, fm: nat | SurfacePair(x, g, surface, cm, fm) ensures PairScoreOn(x, g, surface, cm, fm) < incumbent {
      ReferenceCovers(x, v, top, r, g, row, cm, fm);
    }
  }

  /** A combo's result with a floor no higher than the incumbent or the best so far. */
  lemma ResultSettles(x: Work, g: Group, i: nat, floor: int, incumbent: int, result: ComboBest, winner: nat, score: int)
    requires GroupReady(x, g) && BestOf(x, g, floor, result, x.song.pool.lengths[g.frontier])
    requires (floor <= incumbent || floor <= score) && result.found.score <= score && (result.found.score == score ==> winner <= i)
    ensures Behind(x, g, i, incumbent, winner, score)
  {
    hide PairScoreOn, Ready, IsPair;
    forall surface: nat, cm: nat, fm: nat | SurfacePair(x, g, surface, cm, fm)
      ensures PairScoreOn(x, g, surface, cm, fm) < incumbent || PairScoreOn(x, g, surface, cm, fm) < score
              || (PairScoreOn(x, g, surface, cm, fm) == score && winner <= i)
    {
      assert Lost(x, g, floor, result, surface, cm, fm);
    }
  }

  /** A better best keeps the others behind. */
  lemma StillBehind(x: Work, g: Group, i: nat, incumbent: int, winner: nat, score: int, winner': nat, score': int)
    requires GroupReady(x, g) && Behind(x, g, i, incumbent, winner, score)
    requires score < score' || (score == score' && winner' <= winner)
    ensures Behind(x, g, i, incumbent, winner', score')
  {
    hide PairScoreOn, Ready, IsPair;
  }

  /** What is first above a floor is first above a higher one. */
  lemma HigherFloor(x: Work, g: Group, floor: int, higher: int, result: ComboBest)
    requires GroupReady(x, g) && g.frontier < |x.song.pool.lengths|
    requires BestOf(x, g, floor, result, x.song.pool.lengths[g.frontier]) && floor <= higher
    ensures BestOf(x, g, higher, result, x.song.pool.lengths[g.frontier])
  {
    hide PairScoreOn, Ready, IsPair;
    forall surface: nat, cm: nat, fm: nat | surface < x.song.pool.lengths[g.frontier] && SurfacePair(x, g, surface, cm, fm)
      ensures Lost(x, g, higher, result, surface, cm, fm)
    {
      assert Lost(x, g, floor, result, surface, cm, fm);
    }
  }

  /** After the searches so far: the best is a combo's result, and every combo searched is behind it. */
  ghost predicate Progress(x: Work, combos: seq<Group>, budget: nat, incumbent: int, winner: nat, best: ComboBest, done: set<nat>)
    requires CombosReady(x, combos, budget)
  {
    && best.found.score >= -1
    && (best.found.score > -1 ==> winner < |combos| && IsResult(x, combos[winner], budget, Max(incumbent, best.found.score), best))
    && forall i :: i in done && i < |combos| ==> BehindIt(x, combos[i], budget, i, incumbent, winner, best.found.score)
  }

  ghost predicate IsResult(x: Work, g: Group, budget: nat, floor: int, best: ComboBest) {
    ComboReady(x, g, budget) && g.frontier < |x.song.pool.lengths| && BestOf(x, g, floor, best, x.song.pool.lengths[g.frontier])
  }

  ghost predicate BehindIt(x: Work, g: Group, budget: nat, i: nat, incumbent: int, winner: nat, score: int) {
    ComboReady(x, g, budget) && Behind(x, g, i, incumbent, winner, score)
  }

  lemma NothingDone(x: Work, combos: seq<Group>, budget: nat, incumbent: int)
    requires CombosReady(x, combos, budget)
    ensures Progress(x, combos, budget, incumbent, 0, ComboBest(Found(-1, 0, 0, 0, 0), 0), {})
  {
  }

  /** A combo that cannot reach the incumbent is behind unsearched. */
  lemma Passed(x: Work, combos: seq<Group>, budget: nat, incumbent: int, winner: nat, best: ComboBest, done: set<nat>, i: nat)
    requires CombosReady(x, combos, budget) && Progress(x, combos, budget, incumbent, winner, best, done) && i < |combos|
    requires ComboReady(x, combos[i], budget)
    requires forall surface: nat, cm: nat, fm: nat :: SurfacePair(x, combos[i], surface, cm, fm) ==>
               PairScoreOn(x, combos[i], surface, cm, fm) < incumbent
    ensures Progress(x, combos, budget, incumbent, winner, best, done + {i})
  {
    hide PairScoreOn, ComboReady, SurfacePair, IsResult;
  }

  /** One search, reduced. */
  lemma Searched(x: Work, combos: seq<Group>, budget: nat, incumbent: int, winner: nat, best: ComboBest, done: set<nat>, i: nat, floor: int,
                 result: ComboBest, winner': nat, best': ComboBest)
    requires CombosReady(x, combos, budget) && Progress(x, combos, budget, incumbent, winner, best, done) && i < |combos|
    requires IsResult(x, combos[i], budget, floor, result) && (floor <= incumbent || floor <= best.found.score)
    requires (winner', best') == if result.found.score > best.found.score || (result.found.score == best.found.score && i < winner)
                                 then (i, result) else (winner, best)
    ensures Progress(x, combos, budget, incumbent, winner', best', done + {i})
  {
    hide Behind, BestOf, PlainFrontier, Ready;
    ResultBelow(x, combos[i], floor, result);
    ResultSettles(x, combos[i], i, floor, incumbent, result, winner', best'.found.score);
    HigherFloor(x, combos[i], floor, Max(incumbent, Max(result.found.score, best.found.score)), result);
    forall k | k in done && k < |combos| ensures BehindIt(x, combos[k], budget, k, incumbent, winner', best'.found.score) {
      assert BehindIt(x, combos[k], budget, k, incumbent, winner, best.found.score);
      if best' != best || winner' != winner { StillBehind(x, combos[k], k, incumbent, winner, best.found.score, winner', best'.found.score); }
    }
  }

  lemma ResultBelow(x: Work, g: Group, floor: int, result: ComboBest)
    requires GroupReady(x, g) && g.frontier < |x.song.pool.lengths| && BestOf(x, g, floor, result, x.song.pool.lengths[g.frontier])
    ensures result.found.score >= -1
  {
    hide PairScoreOn, Ready, IsPair;
  }

  /** With every combo searched or passed over: the sure pair's combo scores at least the incumbent, so nothing was lost to it. */
  lemma Concluded(x: Work, combos: seq<Group>, budget: nat, incumbent: int, sure: Sure, winner: nat, best: ComboBest, done: set<nat>)
    requires CombosReady(x, combos, budget) && Progress(x, combos, budget, incumbent, winner, best, done)
    requires forall i: nat :: i < |combos| ==> i in done
    requires IsSure(x, combos, sure) && incumbent <= PairScoreOn(x, combos[sure.combo], sure.surface, sure.cm, sure.fm)
    requires PairScoreOn(x, combos[sure.combo], sure.surface, sure.cm, sure.fm) >= 0
    ensures IsGenomeWinner(x, combos, budget, winner, best)
  {
    hide PairScoreOn, Ready, PlainFrontier, BestOf, SurfacePair;
    assert BehindIt(x, combos[sure.combo], budget, sure.combo, incumbent, winner, best.found.score);
    forall i: nat | i < |combos| ensures ComboReady(x, combos[i], budget) && NotBefore(x, combos[i], i, winner, best.found.score) {
      assert BehindIt(x, combos[i], budget, i, incumbent, winner, best.found.score);
    }
  }

  lemma SureReaches(x: Work, combos: seq<Group>, budget: nat, sure: Sure)
    requires CombosReady(x, combos, budget) && IsSure(x, combos, sure)
    ensures |x.prefixMax| > 0
    ensures var g := combos[sure.combo];
            && g.frontier < |x.song.pool.offsets| && sure.surface < x.song.pool.lengths[g.frontier]
            && var row := x.song.pool.offsets[g.frontier] + sure.surface;
               && RowReady(x, g, row) && row < |x.song.pool.counts| && IsPair(x, g, sure.cm, sure.fm)
               && PairFloor(x, g, row, sure.cm, sure.fm) <= PairScoreOn(x, g, sure.surface, sure.cm, sure.fm)
               && PairScoreOn(x, g, sure.surface, sure.cm, sure.fm) >= 0
  {
    hide PairScore, Ready, IsPair, RowShape, Plain, PairFloor;
    var g := combos[sure.combo];
    assert ComboReady(x, g, budget);
    FrontierInPool(x, g);
    var row := x.song.pool.offsets[g.frontier] + sure.surface;
    assert PlainAt(x, g, sure.surface);
    PairFloorIsSure(x, g, row, sure.cm, sure.fm);
    PairScoreNotNegative(x, g, row, sure.cm, sure.fm);
  }

  /** The winner, in whatever order the combos are searched and whatever incumbent so far each search reads. */
  method SearchGenome(x: Work, combos: seq<Group>, v: Wide, sure: Sure, order: seq<nat>, pick: nat -> nat)
    returns (winner: nat, best: ComboBest)
    requires Bounding(x, v) && ShapeValue(v.shape, x.c.cm[0], x.c.fm[0]) > 0.0
    requires CombosReady(x, combos, v.budget) && IsSure(x, combos, sure)
    requires (forall i: nat :: i < |combos| <==> i in order)
    ensures IsGenomeWinner(x, combos, v.budget, winner, best)
  {
    hide IsReference, Ready, ShapeValue, BestOf, PlainFrontier, BaseLow, PairFloor, PairScoreOn, SurfacePair, Progress;
    SureReaches(x, combos, v.budget, sure);
    var r, top := SearchReference(x, v);
    var g := combos[sure.combo];
    var incumbent := PairFloor(x, g, x.song.pool.offsets[g.frontier] + sure.surface, sure.cm, sure.fm);
    var known := [incumbent];
    winner, best := 0, ComboBest(Found(-1, 0, 0, 0, 0), 0);
    ghost var done: set<nat> := {};
    NothingDone(x, combos, v.budget, incumbent);
    for j := 0 to |order|
      invariant |known| > 0 && forall h :: h in known ==> h <= incumbent || h <= best.found.score
      invariant forall k :: 0 <= k < j ==> order[k] in done
      invariant Progress(x, combos, v.budget, incumbent, winner, best, done)
    {
      var i := order[j];
      assert i in order && ComboReady(x, combos[i], v.budget);
      var reaches := Reaches(x, combos[i], incumbent, r, v, top);
      if reaches {
        var floor := known[pick(j) % |known|];
        assert floor in known;
        var result := ExactGemSearch(x, combos[i], floor, r, v, top);
        ghost var was, wasBest := winner, best;
        if result.found.score > best.found.score || (result.found.score == best.found.score && i < winner) {
          winner, best := i, result;
        }
        ResultOf(x, combos[i], v.budget, floor, result);
        Searched(x, combos, v.budget, incumbent, was, wasBest, done, i, floor, result, winner, best);
        known := known + [result.found.score];
      } else {
        Passed(x, combos, v.budget, incumbent, winner, best, done, i);
      }
      done := done + {i};
    }
    forall i: nat | i < |combos| ensures i in done {
      assert i in order;
      var k :| 0 <= k < |order| && order[k] == i;
    }
    Concluded(x, combos, v.budget, incumbent, sure, winner, best, done);
  }

  lemma ResultOf(x: Work, g: Group, budget: nat, floor: int, result: ComboBest)
    requires ComboReady(x, g, budget) && BestOf(x, g, floor, result, x.song.pool.lengths[g.frontier])
    ensures IsResult(x, g, budget, floor, result)
  {
    hide BestOf, Ready, PlainFrontier;
    FrontierInPool(x, g);
  }
}
