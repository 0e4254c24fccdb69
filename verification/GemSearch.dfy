/** The exact gem search (gear_optimizer/solver/gem_search.py, _score_loadouts): group, column, block, surface, row and
    pair pruning, whose winner is the exhaustive one, ties included, whenever it reaches the loadout's floor. */
module GemSearch {
  import opened Arithmetic
  import opened Scoring
  import opened GemBounds
  import opened GemProblem
  import opened GemTables
  import opened GemAdmissible

  // ---- One surface: the incumbent and what it has settled.

  /** A surface row of a group, the group's best score before it and the score everything has to reach. */
  datatype Target = Target(group: Group, row: nat, groupBest: int, floor: int)

  datatype Incumbent = Incumbent(score: int, alloc: Alloc)

  ghost predicate TargetReady(x: Work, t: Target) {
    RowReady(x, t.group, t.row) && t.row < |x.song.pool.counts|
  }

  /** The incumbent is the group's best so far or an option of this surface above it. */
  ghost predicate GoodIncumbent(x: Work, t: Target, i: Incumbent)
    requires TargetReady(x, t)
  {
    i.score >= t.groupBest
    && (i.score > t.groupBest ==> Space(x, t.group, i.alloc) && Score(x, t.group, t.row, i.alloc) == i.score)
  }

  /** An option that cannot change the incumbent: below it or the floor, or tied and not lexicographically smaller. */
  ghost predicate Settled(x: Work, t: Target, i: Incumbent, a: Alloc)
    requires TargetReady(x, t) && Space(x, t.group, a)
  {
    var score := Score(x, t.group, t.row, a);
    score < Max(i.score, t.floor)
    || (score == i.score && (i.score > t.groupBest ==> !LexLess(a, i.alloc)))
  }

  /** A later incumbent: nothing settled comes back. */
  ghost predicate Extends(x: Work, t: Target, i: Incumbent, i': Incumbent)
    requires TargetReady(x, t)
  {
    i.score <= i'.score
    && forall a :: Space(x, t.group, a) && Settled(x, t, i, a) ==> Settled(x, t, i', a)
  }

  /** Taking a higher score, or a tied and lexicographically smaller allocation, settles the option taken. */
  method Take(x: Work, t: Target, i: Incumbent, a: Alloc, s: int) returns (i': Incumbent)
    requires TargetReady(x, t) && GoodIncumbent(x, t, i) && Space(x, t.group, a)
    requires s == Score(x, t.group, t.row, a)
    ensures GoodIncumbent(x, t, i') && Extends(x, t, i, i') && Settled(x, t, i', a)
  {
    hide *;
    i' := i;
    if s > i.score || (s == i.score && LexLess(a, i.alloc)) {
      i' := Incumbent(s, a);
    }
    TakeSettles(x, t, i, a, i');
  }

  lemma TakeSettles(x: Work, t: Target, i: Incumbent, a: Alloc, i': Incumbent)
    requires TargetReady(x, t) && GoodIncumbent(x, t, i) && Space(x, t.group, a)
    requires var s := Score(x, t.group, t.row, a);
             i' == if s > i.score || (s == i.score && LexLess(a, i.alloc)) then Incumbent(s, a) else i
    ensures GoodIncumbent(x, t, i') && Extends(x, t, i, i') && Settled(x, t, i', a)
  {
    hide Score, Space;
  }

  // ---- The rows of a block.

  /** What a surface's bounds need at one combo. */
  datatype AtCombo = AtCombo(alpha: real, beta: real, gamma: real, eta: real)

  function SurfaceAtCombo(shape: Shape, loss: Shape, combo: real): AtCombo {
    AtCombo(shape.a * combo + shape.f, shape.e * combo + shape.g, loss.a * combo + loss.f, loss.e * combo + loss.g)
  }

  function ValueAt(base: real, q: AtCombo, fever: real): real { base * (q.alpha * fever + q.beta) }

  function LossAt(q: AtCombo, fever: real): real { q.gamma * fever + q.eta }

  lemma ValueAtIsWorth(shape: Shape, loss: Shape, combo: real, base: real, fever: real)
    ensures ValueAt(base, SurfaceAtCombo(shape, loss, combo), fever) == Worth(base, shape, combo, fever)
    ensures LossAt(SurfaceAtCombo(shape, loss, combo), fever) == ShapeValue(loss, combo, fever)
  {
    ShapeAtCombo(shape, combo, fever);
    ShapeAtCombo(loss, combo, fever);
  }

  /** 2 x primary + secondary at a pair with every leftover gem on the element. */
  function PairLinear(x: Work, g: Group, cm: nat, fm: nat): int {
    BaseInit(x.loadout, g) + cm * x.w.cm + fm * x.w.fm + (g.residual - cm - fm) * x.w.element
  }

  lemma PairLinearIs(x: Work, g: Group, cm: nat, fm: nat)
    ensures PairLinear(x, g, cm, fm) as real == Delta(x, g) + Over(x.w.cm, x.w, cm) + Over(x.w.fm, x.w, fm)
  {
    ElementSplit(g.residual, 0, cm, fm, 0, x.w.cm, x.w.fm, x.w.element);
  }

  ghost function ShapesAt(x: Work, t: Target, cm: nat): AtCombo
    requires TargetReady(x, t) && cm < |x.c.cm|
  {
    SurfaceAtCombo(RowShape(x.song, t.row), RowLoss(x.song, t.row, Gap(x, t.group)), x.c.cm[cm])
  }

  /** Any base value at least the allocation's, any fever multiplier at least its own and any loss at a lower one. */
  lemma RowBoundCovers(x: Work, t: Target, a: Alloc, base: real, high: real, low: real)
    requires TargetReady(x, t) && Space(x, t.group, a)
    requires Base(x, t.group, a) <= base && 1.0 <= low <= x.c.fm[a.fm] <= high
    ensures Score(x, t.group, t.row, a) as real
         <= ValueAt(base, ShapesAt(x, t, a.cm), high) - LossAt(ShapesAt(x, t, a.cm), low)
  {
    hide Worth, ShapeValue, ValueAt, LossAt, SurfaceAtCombo, RowShape, RowLoss, AllocLine, OptionScore;
    var shape, loss, c := RowShape(x.song, t.row), RowLoss(x.song, t.row, Gap(x, t.group)), x.c.cm[a.cm];
    CurvesRise(x);
    ScoreUnder(x, t.group, t.row, a);
    BaseUpper(x, t.group, a);
    RowShapeBound(x, t.group, t.row);
    ValueUpper(Base(x, t.group, a), base, shape, c, c, x.c.fm[a.fm], high);
    LossAtLeast(x, t.group, t.row, c, low);
    ValueAtIsWorth(shape, loss, c, base, high);
    ValueAtIsWorth(shape, loss, c, base, low);
  }

  /** The base value of an allocation by its pair's linear part. */
  lemma SplitBase(x: Work, g: Group, a: Alloc)
    requires GroupReady(x, g) && Space(x, g, a)
    ensures Base(x, g, a) == (PairLinear(x, g, a.cm, a.fm) + a.pp * (x.w.pp - x.w.element)) as real + x.c.pp[a.pp]
    ensures Base(x, g, a) <= PairLinear(x, g, a.cm, a.fm) as real + BestPp(x, g.residual - a.cm - a.fm)
  {
    hide AllocLine, BudgetDelta, PairLinear;
    BaseIsLinear(x.song, x.loadout, g, a);
    BaseUpper(x, g, a);
    PairLinearIs(x, g, a.cm, a.fm);
  }

  /** The PP/element splits of a (CM, FM) pair. */
  method ScorePair(x: Work, t: Target, q: AtCombo, cm: nat, fm: nat, i: Incumbent) returns (i': Incumbent)
    requires TargetReady(x, t) && GoodIncumbent(x, t, i)
    requires cm < |x.c.cm| && fm < |x.c.fm| && cm + fm <= t.group.residual && q == ShapesAt(x, t, cm)
    ensures GoodIncumbent(x, t, i') && Extends(x, t, i, i')
    ensures forall a: Alloc :: a.cm == cm && a.fm == fm && Space(x, t.group, a) ==> Settled(x, t, i', a)
  {
    hide ValueAt, LossAt, SurfaceAtCombo, RowShape, RowLoss, AllocLine, OptionScore, PairLinear, GoodIncumbent, ValidSong;
    var left := t.group.residual - cm - fm;
    var linear := PairLinear(x, t.group, cm, fm);
    var fever := x.c.fm[fm];
    i' := i;
    var mostPp := Min(|x.c.pp| - 1, left);
    PairBound(x, t, q, cm, fm, i);
    if ValueAt(linear as real + BestPp(x, left), q, fever) + MARGIN - LossAt(q, fever) < Max(i.score, t.floor) as real {
      return;
    }
    for pp := 0 to mostPp + 1
      invariant GoodIncumbent(x, t, i') && Extends(x, t, i, i')
      invariant forall a: Alloc :: a.cm == cm && a.fm == fm && a.pp < pp && Space(x, t.group, a) ==> Settled(x, t, i', a)
    {
      var a := Alloc(cm, fm, pp);
      assert Space(x, t.group, a);
      SplitBound(x, t, q, a, i');
      var base := (linear + pp * (x.w.pp - x.w.element)) as real + x.c.pp[pp];
      if ValueAt(base, q, fever) + MARGIN - LossAt(q, fever) >= Max(i'.score, t.floor) as real {
        var score := ComputeScore(x, t, a);
        i' := Take(x, t, i', a, score);
      }
    }
  }

  method ComputeScore(x: Work, t: Target, a: Alloc) returns (score: int)
    requires TargetReady(x, t) && Space(x, t.group, a)
    ensures score == Score(x, t.group, t.row, a)
  {
    score := SurfaceScore(SurfaceOf(x.song, t.row), AllocLine(x.song, x.loadout, t.group, a), x.song.headLen, x.song.bodyTotal);
  }

  lemma PairBound(x: Work, t: Target, q: AtCombo, cm: nat, fm: nat, i: Incumbent)
    requires TargetReady(x, t) && cm < |x.c.cm| && fm < |x.c.fm| && cm + fm <= t.group.residual && q == ShapesAt(x, t, cm)
    ensures var base := PairLinear(x, t.group, cm, fm) as real + BestPp(x, t.group.residual - cm - fm);
            ValueAt(base, q, x.c.fm[fm]) + MARGIN - LossAt(q, x.c.fm[fm]) < Max(i.score, t.floor) as real ==>
            forall a: Alloc :: a.cm == cm && a.fm == fm && Space(x, t.group, a) ==> Settled(x, t, i, a)
  {
    hide ValueAt, LossAt, ShapesAt, AllocLine, OptionScore, PairLinear, ValidSong;
    var base := PairLinear(x, t.group, cm, fm) as real + BestPp(x, t.group.residual - cm - fm);
    CurvesRise(x);
    forall a: Alloc | a.cm == cm && a.fm == fm && Space(x, t.group, a)
      ensures Score(x, t.group, t.row, a) as real <= ValueAt(base, q, x.c.fm[fm]) - LossAt(q, x.c.fm[fm])
    {
      SplitBase(x, t.group, a);
      RowBoundCovers(x, t, a, base, x.c.fm[fm], x.c.fm[fm]);
    }
  }

  lemma SplitBound(x: Work, t: Target, q: AtCombo, a: Alloc, i: Incumbent)
    requires TargetReady(x, t) && Space(x, t.group, a) && q == ShapesAt(x, t, a.cm)
    ensures var base := (PairLinear(x, t.group, a.cm, a.fm) + a.pp * (x.w.pp - x.w.element)) as real + x.c.pp[a.pp];
            ValueAt(base, q, x.c.fm[a.fm]) + MARGIN - LossAt(q, x.c.fm[a.fm]) < Max(i.score, t.floor) as real ==> Settled(x, t, i, a)
  {
    hide ValueAt, LossAt, ShapesAt, AllocLine, OptionScore, PairLinear, ValidSong;
    CurvesRise(x);
    SplitBase(x, t.group, a);
    RowBoundCovers(x, t, a, Base(x, t.group, a), x.c.fm[a.fm], x.c.fm[a.fm]);
  }

  /** A CM row of a block: bounded by its best base value and highest fever, then its pairs. */
  method ScoreRow(x: Work, t: Target, k: Corner, ghost at: (nat, nat), cm: nat, i: Incumbent) returns (i': Incumbent)
    requires TargetReady(x, t) && GoodIncumbent(x, t, i)
    requires IsBlock(x.c, at.0, at.1) && k == CornerOf(x.c, at.0, at.1)
    requires k.cm0 <= cm <= k.cm1 && cm <= t.group.residual
    ensures GoodIncumbent(x, t, i') && Extends(x, t, i, i')
    ensures forall a: Alloc :: a.cm == cm && InBlock(a, k) && Space(x, t.group, a) ==> Settled(x, t, i', a)
  {
    hide ValueAt, LossAt, SurfaceAtCombo, RowShape, RowLoss, AllocLine, OptionScore, PairLinear, GoodIncumbent, ValidSong;
    i' := i;
    var left := t.group.residual - cm;
    var fmHi := Min(k.fm1, left);
    if fmHi < k.fm0 {
      return;  // the block's corner fits the budget, this row of it does not: it has no pair
    }
    var q := SurfaceAtCombo(RowShape(x.song, t.row), RowLoss(x.song, t.row, Gap(x, t.group)), x.c.cm[cm]);
    var linear := PairLinear(x, t.group, cm, if x.w.fm > x.w.element then fmHi else k.fm0);
    RowBound(x, t, q, k, at, cm, fmHi, i);
    if ValueAt(linear as real + BestPp(x, left - k.fm0), q, x.c.fm[fmHi]) + MARGIN - LossAt(q, x.c.fm[k.fm0])
       < Max(i.score, t.floor) as real {
      return;
    }
    for fm := k.fm0 to fmHi + 1
      invariant GoodIncumbent(x, t, i') && Extends(x, t, i, i')
      invariant forall a: Alloc :: a.cm == cm && k.fm0 <= a.fm < fm && Space(x, t.group, a) ==> Settled(x, t, i', a)
    {
      i' := ScorePair(x, t, q, cm, fm, i');
    }
  }

  lemma RowBound(x: Work, t: Target, q: AtCombo, k: Corner, at: (nat, nat), cm: nat, fmHi: nat, i: Incumbent)
    requires TargetReady(x, t) && IsBlock(x.c, at.0, at.1) && k == CornerOf(x.c, at.0, at.1)
    requires k.cm0 <= cm <= k.cm1 && cm <= t.group.residual && q == ShapesAt(x, t, cm)
    requires k.fm0 <= fmHi == Min(k.fm1, t.group.residual - cm)
    ensures var linear := PairLinear(x, t.group, cm, if x.w.fm > x.w.element then fmHi else k.fm0);
            ValueAt(linear as real + BestPp(x, t.group.residual - cm - k.fm0), q, x.c.fm[fmHi]) + MARGIN - LossAt(q, x.c.fm[k.fm0])
            < Max(i.score, t.floor) as real ==>
            forall a: Alloc :: a.cm == cm && InBlock(a, k) && Space(x, t.group, a) ==> Settled(x, t, i, a)
  {
    hide ValueAt, LossAt, ShapesAt, AllocLine, OptionScore, PairLinear, ValidSong, Over, BudgetDelta;
    var lin := if x.w.fm > x.w.element then fmHi else k.fm0;
    var base := PairLinear(x, t.group, cm, lin) as real + BestPp(x, t.group.residual - cm - k.fm0);
    CurvesRise(x);
    forall a: Alloc | a.cm == cm && InBlock(a, k) && Space(x, t.group, a)
      ensures Score(x, t.group, t.row, a) as real <= ValueAt(base, q, x.c.fm[fmHi]) - LossAt(q, x.c.fm[k.fm0])
    {
      BaseUpper(x, t.group, a);
      PairLinearIs(x, t.group, cm, lin);
      OverMono(x.w.fm, x.w, k.fm0, a.fm);
      OverMono(x.w.fm, x.w, a.fm, fmHi);
      BestPpRises(x, t.group.residual - cm - a.fm, t.group.residual - cm - k.fm0);
      RowBoundCovers(x, t, a, base, x.c.fm[fmHi], x.c.fm[k.fm0]);
    }
  }

  /** The rows of a block. */
  method ScoreBlock(x: Work, t: Target, k: Corner, ghost at: (nat, nat), i: Incumbent) returns (i': Incumbent)
    requires TargetReady(x, t) && GoodIncumbent(x, t, i)
    requires IsBlock(x.c, at.0, at.1) && k == CornerOf(x.c, at.0, at.1) && k.cm0 <= t.group.residual
    ensures GoodIncumbent(x, t, i') && Extends(x, t, i, i')
    ensures forall a: Alloc :: InBlock(a, k) && Space(x, t.group, a) ==> Settled(x, t, i', a)
  {
    hide GoodIncumbent, ValidSong, Score;
    i' := i;
    for cm := k.cm0 to Min(k.cm1, t.group.residual) + 1
      invariant GoodIncumbent(x, t, i') && Extends(x, t, i, i')
      invariant forall a: Alloc :: InBlock(a, k) && a.cm < cm && Space(x, t.group, a) ==> Settled(x, t, i', a)
    {
      i' := ScoreRow(x, t, k, at, cm, i');
    }
  }

  // ---- A group's live blocks and its surfaces.

  /** The live blocks of a group: their table rows, deltas and places. */
  ghost predicate LiveBlocks(x: Work, g: Group, tables: BoundTables, live: seq<nat>, deltas: seq<real>, at: seq<(nat, nat)>)
    requires Ready(x)
    reads tables.blocks, tables.corners
  {
    |live| == |deltas| == |at|
    && forall p :: 0 <= p < |live| ==> LiveBlock(x, g, tables, live[p], deltas[p], at[p])
  }

  ghost predicate LiveBlock(x: Work, g: Group, tables: BoundTables, b: nat, delta: real, at: (nat, nat))
    requires Ready(x)
    reads tables.blocks, tables.corners
  {
    && tables.Allocated() && b < tables.blocks.Length && IsBlock(x.c, at.0, at.1)
    && tables.blocks[b] == BlockOf(x.c, x.w, at.0, at.1) && tables.corners[b] == CornerOf(x.c, at.0, at.1)
    && at.0 * TILE + at.1 * TILE <= g.residual && delta == BlockDelta(x, g, at.0, at.1)
  }

  ghost predicate Place(a: Alloc, at: (nat, nat)) {
    at == (a.cm / TILE, a.fm / TILE)
  }

  /** A block's own corner is an allocation, so its base value is not negative. */
  lemma CornerAlloc(x: Work, g: Group, j: nat, k: nat)
    requires GroupReady(x, g) && IsBlock(x.c, j, k) && j * TILE + k * TILE <= g.residual
    ensures var b := BlockOf(x.c, x.w, j, k);
            b.base + BlockDelta(x, g, j, k) >= 0.0 && 1.0 <= b.worstCombo && 1.0 <= b.worstFever && 1.0 <= b.combo && 1.0 <= b.fever
  {
    hide BlockOf, BlockDelta, AllocLine;
    var a := Alloc(j * TILE, k * TILE, 0);
    assert Space(x, g, a);
    BaseUpper(x, g, a);
    AllocInBlock(x, g, a, j, k);
    AllocDelta(x, g, j, k);
  }

  lemma AllocDelta(x: Work, g: Group, j: nat, k: nat)
    requires Ready(x) && j * TILE + k * TILE <= g.residual
    ensures BlockDelta(x, g, j, k) == Delta(x, g) + BestPp(x, g.residual - j * TILE - k * TILE)
  {
  }

  method SummarizeLive(x: Work, g: Group, tables: BoundTables, live: seq<nat>, deltas: seq<real>, ghost at: seq<(nat, nat)>, most: Shape)
    returns (r: LiveSummary)
    requires GroupReady(x, g) && LiveBlocks(x, g, tables, live, deltas, at)
    ensures forall p :: 0 <= p < |live| ==> Summarizes(r, tables.blocks[live[p]], deltas[p], most)
  {
    hide BlockOf, BlockDelta, BlockBound, ValidSong, Delta, BestPp;
    r := LiveSummary(0.0, 1.0e30, 1.0e30, 1.0e30, 1.0e30, 1.0e30);
    for p := 0 to |live|
      invariant r.base >= 0.0 && r.combo >= 1.0 && r.fever >= 1.0 && r.worstCombo >= 1.0 && r.worstFever >= 1.0
      invariant forall i :: 0 <= i < p ==> Summarizes(r, tables.blocks[live[i]], deltas[i], most)
    {
      var b, d := tables.blocks[live[p]], deltas[p];
      CornerAlloc(x, g, at[p].0, at[p].1);
      r := LiveSummary(MaxReal(r.peak, BlockBound(b, d, most)), MinReal(r.base, b.base + d), MinReal(r.combo, b.combo),
                       MinReal(r.fever, b.fever), MinReal(r.worstCombo, b.worstCombo), MinReal(r.worstFever, b.worstFever));
    }
  }

  function MinReal(x: real, y: real): real { if x <= y then x else y }

  /** A surface: skipped under its ceiling, else its live blocks one by one. */
  method ScoreSurface(x: Work, t: Target, most: Shape, tables: BoundTables, live: seq<nat>, deltas: seq<real>,
                      ghost at: seq<(nat, nat)>, summary: LiveSummary, i: Incumbent) returns (i': Incumbent)
    requires TargetReady(x, t) && i.score == t.groupBest && BoundsFrontier(x.song, t.group.frontier, most)
    requires LiveBlocks(x, t.group, tables, live, deltas, at)
    requires forall p :: 0 <= p < |live| ==> Summarizes(summary, tables.blocks[live[p]], deltas[p], most)
    ensures GoodIncumbent(x, t, i')
    ensures forall a, p :: 0 <= p < |at| && Space(x, t.group, a) && Place(a, at[p]) ==> Settled(x, t, i', a)
  {
    hide RowShape, RowLoss, AllocLine, OptionScore, ValidSong, BlockOf, BlockDelta, BlockBound, SurfaceCeiling, ShapeValue,
         Summarizes, CornerOf, BoundsFrontier;
    i' := i;
    var shape, loss := RowShape(x.song, t.row), RowLoss(x.song, t.row, Gap(x, t.group));
    if SurfaceCeiling(summary, most, shape, loss) < Max(i.score, t.floor) as real {
      forall a, p | 0 <= p < |at| && Space(x, t.group, a) && Place(a, at[p]) ensures Settled(x, t, i', a) {
        assert LiveBlock(x, t.group, tables, live[p], deltas[p], at[p]);
        BlockOfAlloc(x, t.group, a);
        CeilingCovers(x, t.group, t.row, a, at[p].0, at[p].1, most, summary);
      }
      return;
    }
    for p := 0 to |live|
      invariant GoodIncumbent(x, t, i') && Extends(x, t, i, i')
      invariant forall a, n :: 0 <= n < p && Space(x, t.group, a) && Place(a, at[n]) ==> Settled(x, t, i', a)
    {
      assert LiveBlock(x, t.group, tables, live[p], deltas[p], at[p]);
      i' := ScoreLiveBlock(x, t, tables.blocks[live[p]], tables.corners[live[p]], deltas[p], at[p], shape, loss, i');
    }
  }

  method ScoreLiveBlock(x: Work, t: Target, b: Block, k: Corner, delta: real, ghost at: (nat, nat), shape: Shape, loss: Shape, i: Incumbent)
    returns (i': Incumbent)
    requires TargetReady(x, t) && GoodIncumbent(x, t, i) && IsBlock(x.c, at.0, at.1) && at.0 * TILE + at.1 * TILE <= t.group.residual
    requires b == BlockOf(x.c, x.w, at.0, at.1) && k == CornerOf(x.c, at.0, at.1) && delta == BlockDelta(x, t.group, at.0, at.1)
    requires shape == RowShape(x.song, t.row) && loss == RowLoss(x.song, t.row, Gap(x, t.group))
    ensures GoodIncumbent(x, t, i') && Extends(x, t, i, i')
    ensures forall a :: Space(x, t.group, a) && Place(a, at) ==> Settled(x, t, i', a)
  {
    hide RowShape, RowLoss, AllocLine, OptionScore, ValidSong, BlockOf, BlockDelta, BlockBound, ShapeValue, GoodIncumbent;
    i' := i;
    if BlockBound(b, delta, shape) - ShapeValue(loss, b.worstCombo, b.worstFever) < Max(i.score, t.floor) as real {
      forall a | Space(x, t.group, a) && Place(a, at) ensures Settled(x, t, i', a) {
        BlockOfAlloc(x, t.group, a);
        BlockBoundCovers(x, t.group, t.row, a, at.0, at.1);
      }
    } else {
      i' := ScoreBlock(x, t, k, at, i);
      forall a | Space(x, t.group, a) && Place(a, at) ensures Settled(x, t, i', a) {
        BlockOfAlloc(x, t.group, a);
      }
    }
  }
}
