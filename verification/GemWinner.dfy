/** The gem search's groups and loadouts, and its theorem: the winner is the exhaustive one. */
module GemWinner {
  import opened Arithmetic
  import opened Scoring
  import opened GemBounds
  import opened GemProblem
  import opened GemTables
  import opened GemAdmissible
  import opened GemSearch

  // ---- One group.

  /** A group's best surface (counted from its frontier's first row) and allocation; score -1: none yet. */
  datatype GroupBest = GroupBest(score: int, surface: nat, alloc: Alloc)

  ghost predicate SurfaceOption(x: Work, g: Group, surface: nat, a: Alloc)
    requires GroupReady(x, g)
  {
    surface < x.song.pool.lengths[g.frontier] && Space(x, g, a)
  }

  ghost function SurfaceOptionScore(x: Work, g: Group, surface: nat, a: Alloc): int
    requires GroupReady(x, g) && SurfaceOption(x, g, surface, a)
  {
    Score(x, g, x.song.pool.offsets[g.frontier] + surface, a)
  }

  /** `b` is the first surface reaching the best score of the first n surfaces, with its lexicographically smallest
      allocation; a group that stays below the floor is only known to. */
  ghost predicate BestOfSurfaces(x: Work, g: Group, floor: int, b: GroupBest, n: nat)
    requires GroupReady(x, g)
  {
    && b.score >= -1
    && (b.score > -1 ==> b.surface < n && SurfaceOption(x, g, b.surface, b.alloc)
                         && SurfaceOptionScore(x, g, b.surface, b.alloc) == b.score)
    && (forall surface: nat, a :: surface < n && SurfaceOption(x, g, surface, a) ==> NotAbove(x, g, floor, b, surface, a))
  }

  /** An option that is not better than the group's best, nor as good and before it. */
  ghost predicate NotAbove(x: Work, g: Group, floor: int, b: GroupBest, surface: nat, a: Alloc)
    requires GroupReady(x, g) && SurfaceOption(x, g, surface, a)
  {
    var score := SurfaceOptionScore(x, g, surface, a);
    score < floor || score < b.score
    || (score == b.score && (surface > b.surface || (surface == b.surface && !LexLess(a, b.alloc))))
  }

  ghost predicate Covered(x: Work, g: Group, floor: int, at: seq<(nat, nat)>, a: Alloc)
    requires GroupReady(x, g) && Space(x, g, a)
  {
    (exists p :: 0 <= p < |at| && Place(a, at[p])) || Dead(x, g, floor, a)
  }

  /** No surface of the group's frontier lets the allocation reach the floor. */
  ghost predicate Dead(x: Work, g: Group, floor: int, a: Alloc)
    requires GroupReady(x, g) && Space(x, g, a)
  {
    forall row: nat :: RowOf(x.song, g, row) && row < |x.song.pool.counts| ==> Score(x, g, row, a) < floor
  }

  ghost predicate DeltasIn(x: Work, g: Group, lo: real, hi: real)
    requires Ready(x)
  {
    forall left: nat :: lo <= Delta(x, g) + BestPp(x, left) <= hi
  }

  /** The column's blocks a group can still use, added to its live ones. */
  method LiveColumn(x: Work, g: Group, most: Shape, tables: BoundTables, floor: int, lo: real, hi: real, j: nat,
                    live: seq<nat>, deltas: seq<real>, ghost at: seq<(nat, nat)>)
    returns (live': seq<nat>, deltas': seq<real>, ghost at': seq<(nat, nat)>)
    requires GroupReady(x, g) && tables.Filled(x.c, x.w, x.prefixMax, lo, hi) && BoundsFrontier(x.song, g.frontier, most)
    requires lo < hi && DeltasIn(x, g, lo, hi) && j <= Min(|x.c.cm| - 1, g.residual) / TILE
    requires LiveBlocks(x, g, tables, live, deltas, at)
    ensures LiveBlocks(x, g, tables, live', deltas', at') && at <= at'
    ensures forall a :: Space(x, g, a) && a.cm / TILE == j ==> Covered(x, g, floor, at', a)
  {
    hide BlockOf, CornerOf, BlockBound, ColumnBound, BoundsFrontier, AllocLine, OptionScore, ValidSong, ChordBounds, BlockDelta, ColumnDelta;
    live', deltas', at' := live, deltas, at;
    assert tables.ColumnFilled(x.c, x.w, lo, hi, j);
    var cm0 := j * TILE;
    var last := Min(|x.c.fm| - 1, g.residual - cm0) / TILE;
    var columnDelta := Delta(x, g) + BestPp(x, g.residual - cm0);
    ColumnDeltaIs(x, g, j);
    if ColumnBound(tables.columnCombo[j], tables.columnTerms[j, last], columnDelta, most) < floor as real {
      forall a | Space(x, g, a) && a.cm / TILE == j ensures Covered(x, g, floor, at', a) {
        ColumnDead(x, g, a, j, tables.columnTerms[j, last], last, lo, hi, most, floor);
      }
      return;
    }
    for k := 0 to last + 1
      invariant LiveBlocks(x, g, tables, live', deltas', at') && at <= at'
      invariant forall a :: Space(x, g, a) && a.cm / TILE == j && a.fm / TILE < k ==> Covered(x, g, floor, at', a)
    {
      var b := tables.columnFirst[j] + k;
      assert tables.blocks[b] == BlockOf(x.c, x.w, j, k) && tables.corners[b] == CornerOf(x.c, j, k);
      CornerOfBlock(x.c, j, k);
      var delta := if AllowPp(x.song.flags) then Delta(x, g) + BestPp(x, g.residual - cm0 - tables.corners[b].fm0) else columnDelta;
      DeltaOfBlock(x, g, j, k, delta);
      ghost var was := at';
      if BlockBound(tables.blocks[b], delta, most) >= floor as real {
        live', deltas', at' := live' + [b], deltas' + [delta], at' + [(j, k)];
        assert at'[|was|] == (j, k);
      }
      forall a | Space(x, g, a) && a.cm / TILE == j && a.fm / TILE < k + 1 ensures Covered(x, g, floor, at', a) {
        if a.fm / TILE < k {
          CoveredGrows(x, g, floor, was, at', a);
        } else if |at'| == |was| {
          BlockDead(x, g, a, j, k, most, floor);
        } else {
          assert Place(a, at'[|was|]);
        }
      }
    }
    forall a | Space(x, g, a) && a.cm / TILE == j ensures a.fm / TILE < last + 1 {
    }
  }

  lemma CornerOfBlock(c: GemCurves, j: nat, k: nat)
    requires |c.cm| > 0 && |c.fm| > 0
    ensures CornerOf(c, j, k).fm0 == k * TILE
  {
  }

  lemma ColumnDeltaIs(x: Work, g: Group, j: nat)
    requires Ready(x) && j * TILE <= g.residual
    ensures ColumnDelta(x, g, j) == Delta(x, g) + BestPp(x, g.residual - j * TILE)
  {
  }

  lemma DeltaOfBlock(x: Work, g: Group, j: nat, k: nat, delta: real)
    requires GroupReady(x, g) && j * TILE + k * TILE <= g.residual
    requires delta == if AllowPp(x.song.flags) then Delta(x, g) + BestPp(x, g.residual - j * TILE - k * TILE)
                      else Delta(x, g) + BestPp(x, g.residual - j * TILE)
    ensures delta == BlockDelta(x, g, j, k)
  {
    hide Delta;
  }

  lemma CoveredGrows(x: Work, g: Group, floor: int, at: seq<(nat, nat)>, at': seq<(nat, nat)>, a: Alloc)
    requires GroupReady(x, g) && Space(x, g, a) && Covered(x, g, floor, at, a) && at <= at'
    ensures Covered(x, g, floor, at', a)
  {
    hide Space, Dead, GroupReady;
    if p :| 0 <= p < |at| && Place(a, at[p]) { assert Place(a, at'[p]); }
  }

  lemma ColumnDead(x: Work, g: Group, a: Alloc, j: nat, ch: Chord, last: nat, lo: real, hi: real, most: Shape, floor: int)
    requires GroupReady(x, g) && Space(x, g, a) && j == a.cm / TILE && last == Min(|x.c.fm| - 1, g.residual - j * TILE) / TILE
    requires BoundsFrontier(x.song, g.frontier, most) && IsBlock(x.c, j, last) && ChordBounds(ch, x.c, x.w, j, last, lo, hi)
    requires lo < hi && DeltasIn(x, g, lo, hi)
    requires ColumnBound(x.c.cm[CornerOf(x.c, j, 0).cm1], ch, ColumnDelta(x, g, j), most) < floor as real
    ensures Dead(x, g, floor, a)
  {
    hide ColumnBound, BoundsFrontier, AllocLine, OptionScore, ValidSong, ChordBounds;
    forall row: nat | RowOf(x.song, g, row) && row < |x.song.pool.counts| ensures Score(x, g, row, a) < floor {
      ColumnCovers(x, g, row, a, j, ch, last, lo, hi, most);
    }
  }

  lemma BlockDead(x: Work, g: Group, a: Alloc, j: nat, k: nat, most: Shape, floor: int)
    requires GroupReady(x, g) && Space(x, g, a) && Place(a, (j, k)) && IsBlock(x.c, j, k) && j * TILE + k * TILE <= g.residual
    requires BoundsFrontier(x.song, g.frontier, most)
    requires BlockBound(BlockOf(x.c, x.w, j, k), BlockDelta(x, g, j, k), most) < floor as real
    ensures Dead(x, g, floor, a)
  {
    hide BlockBound, BoundsFrontier, AllocLine, OptionScore, ValidSong, BlockDelta, BlockOf;
    BlockOfAlloc(x, g, a);
    forall row: nat | RowOf(x.song, g, row) && row < |x.song.pool.counts| ensures Score(x, g, row, a) < floor {
      FrontierBlockCovers(x, g, row, a, j, k, most);
    }
  }

  /** A group: its live blocks, then its frontier's surfaces. */
  method ScoreGroup(x: Work, g: Group, most: Shape, tables: BoundTables, floor: int, lo: real, hi: real) returns (best: GroupBest)
    requires GroupReady(x, g) && tables.Filled(x.c, x.w, x.prefixMax, lo, hi) && BoundsFrontier(x.song, g.frontier, most)
    requires lo < hi && DeltasIn(x, g, lo, hi)
    ensures BestOfSurfaces(x, g, floor, best, x.song.pool.lengths[g.frontier])
  {
    hide BoundsFrontier, AllocLine, OptionScore, ValidSong, BlockDelta, BlockOf, Score, Covered, Settled, NotAbove, GoodIncumbent,
         Summarizes, DeltasIn;
    var live: seq<nat>, deltas: seq<real> := [], [];
    ghost var at: seq<(nat, nat)> := [];
    for j := 0 to Min(|x.c.cm| - 1, g.residual) / TILE + 1
      invariant LiveBlocks(x, g, tables, live, deltas, at)
      invariant forall a :: Space(x, g, a) && a.cm / TILE < j ==> Covered(x, g, floor, at, a)
    {
      ghost var was := at;
      live, deltas, at := LiveColumn(x, g, most, tables, floor, lo, hi, j, live, deltas, at);
      forall a | Space(x, g, a) && a.cm / TILE < j + 1 ensures Covered(x, g, floor, at, a) {
        if a.cm / TILE < j { CoveredGrows(x, g, floor, was, at, a); }
      }
    }
    assert forall a :: Space(x, g, a) ==> Covered(x, g, floor, at, a);
    var summary := SummarizeLive(x, g, tables, live, deltas, at, most);
    best := GroupBest(-1, 0, Alloc(0, 0, 0));
    PoolRows(x, g);
    var start, count := x.song.pool.offsets[g.frontier], x.song.pool.lengths[g.frontier];
    if |live| == 0 {
      NothingLive(x, g, floor, at, best);
      return;
    }
    for surface := 0 to count
      invariant BestOfSurfaces(x, g, floor, best, surface)
    {
      var t := Target(g, start + surface, best.score, floor);
      var found := ScoreSurface(x, t, most, tables, live, deltas, at, summary, Incumbent(best.score, best.alloc));
      AllSettled(x, t, at, found);
      ghost var was := best;
      if found.score > best.score {
        best := GroupBest(found.score, surface, found.alloc);
      }
      NextSurface(x, g, floor, was, surface, found, best);
    }
  }

  lemma PoolRows(x: Work, g: Group)
    requires GroupReady(x, g)
    ensures g.frontier < |x.song.pool.lengths| && g.frontier < |x.song.pool.offsets| && 0 < x.song.pool.lengths[g.frontier]
    ensures x.song.pool.offsets[g.frontier] + x.song.pool.lengths[g.frontier] <= |x.song.pool.counts|
  {
  }

  lemma NothingLive(x: Work, g: Group, floor: int, at: seq<(nat, nat)>, best: GroupBest)
    requires GroupReady(x, g) && |at| == 0 && forall a :: Space(x, g, a) ==> Covered(x, g, floor, at, a)
    requires best.score == -1
    ensures BestOfSurfaces(x, g, floor, best, x.song.pool.lengths[g.frontier])
  {
    hide Score, Space;
    PoolRows(x, g);
    forall surface: nat, a | surface < x.song.pool.lengths[g.frontier] && SurfaceOption(x, g, surface, a)
      ensures NotAbove(x, g, floor, best, surface, a)
    {
      assert Covered(x, g, floor, at, a);
      assert Dead(x, g, floor, a);
      assert RowOf(x.song, g, x.song.pool.offsets[g.frontier] + surface);
    }
  }

  lemma AllSettled(x: Work, t: Target, at: seq<(nat, nat)>, i: Incumbent)
    requires TargetReady(x, t)
    requires forall a :: Space(x, t.group, a) ==> Covered(x, t.group, t.floor, at, a)
    requires forall a, p :: 0 <= p < |at| && Space(x, t.group, a) && Place(a, at[p]) ==> Settled(x, t, i, a)
    ensures forall a :: Space(x, t.group, a) ==> Settled(x, t, i, a)
  {
    hide Score, Space, Place;
    forall a | Space(x, t.group, a) ensures Settled(x, t, i, a) {
      assert Covered(x, t.group, t.floor, at, a);
      if p :| 0 <= p < |at| && Place(a, at[p]) {
      } else {
        assert Dead(x, t.group, t.floor, a);
        assert RowOf(x.song, t.group, t.row);
      }
    }
  }

  lemma NextSurface(x: Work, g: Group, floor: int, was: GroupBest, surface: nat, found: Incumbent, best: GroupBest)
    requires GroupReady(x, g) && surface < x.song.pool.lengths[g.frontier]
    requires BestOfSurfaces(x, g, floor, was, surface)
    requires x.song.pool.offsets[g.frontier] + surface < |x.song.pool.counts|
    requires var t := Target(g, x.song.pool.offsets[g.frontier] + surface, was.score, floor);
             GoodIncumbent(x, t, found) && forall a :: Space(x, g, a) ==> Settled(x, t, found, a)
    requires best == if found.score > was.score then GroupBest(found.score, surface, found.alloc) else was
    ensures BestOfSurfaces(x, g, floor, best, surface + 1)
  {
    hide Score, Space, LexLess;
    var t := Target(g, x.song.pool.offsets[g.frontier] + surface, was.score, floor);
    forall s: nat, a | s < surface + 1 && SurfaceOption(x, g, s, a) ensures NotAbove(x, g, floor, best, s, a) {
      if s == surface { assert Settled(x, t, found, a); ScoreNotNegative(x, g, surface, a); } else { assert NotAbove(x, g, floor, was, s, a); }
    }
  }

  lemma ScoreNotNegative(x: Work, g: Group, surface: nat, a: Alloc)
    requires GroupReady(x, g) && SurfaceOption(x, g, surface, a)
    ensures 0 <= SurfaceOptionScore(x, g, surface, a)
  {
    hide ShapeValue, Worth, AllocLine, OptionScore, RowShape, RowLoss;
    ScoreUnder(x, g, x.song.pool.offsets[g.frontier] + surface, a);
  }

  // ---- One loadout.

  /** A loadout's result row: the score, the group and its surface, and the gems (`elements` of the rest). */
  datatype Winner = Winner(score: int, group: nat, surface: nat, alloc: Alloc, elements: nat)

  ghost predicate GroupsReady(x: Work, gs: seq<Group>) {
    Ready(x) && forall i :: 0 <= i < |gs| ==> ValidGroup(x.song, gs[i])
  }

  ghost predicate IsOption(x: Work, gs: seq<Group>, i: nat, surface: nat, a: Alloc)
    requires GroupsReady(x, gs)
  {
    i < |gs| && SurfaceOption(x, gs[i], surface, a)
  }

  ghost function OptionValue(x: Work, gs: seq<Group>, i: nat, surface: nat, a: Alloc): int
    requires GroupsReady(x, gs) && IsOption(x, gs, i, surface, a)
  {
    SurfaceOptionScore(x, gs[i], surface, a)
  }

  /** Whether option (i, surface, a) loses to w: lower, or tied and after it (a later group, a later surface of its
      group, or a lexicographically larger allocation). */
  ghost predicate Loses(x: Work, gs: seq<Group>, w: Winner, i: nat, surface: nat, a: Alloc)
    requires GroupsReady(x, gs) && IsOption(x, gs, i, surface, a)
  {
    var score := OptionValue(x, gs, i, surface, a);
    score < w.score
    || (score == w.score && (i > w.group || (i == w.group && (surface > w.surface || (surface == w.surface && !LexLess(a, w.alloc))))))
  }

  /** The exhaustive search's winner: the first group of highest score, its first surface reaching it, the
      lexicographically smallest (CM, FM, PP) there. */
  ghost predicate IsExhaustiveWinner(x: Work, gs: seq<Group>, w: Winner)
    requires GroupsReady(x, gs)
  {
    && IsOption(x, gs, w.group, w.surface, w.alloc)
    && OptionValue(x, gs, w.group, w.surface, w.alloc) == w.score
    && w.elements == gs[w.group].residual - w.alloc.cm - w.alloc.fm - w.alloc.pp
    && forall i: nat, surface: nat, a :: IsOption(x, gs, i, surface, a) ==> Loses(x, gs, w, i, surface, a)
  }

  /** There is one exhaustive winner. */
  lemma WinnerIsUnique(x: Work, gs: seq<Group>, w: Winner, v: Winner)
    requires GroupsReady(x, gs) && IsExhaustiveWinner(x, gs, w) && IsExhaustiveWinner(x, gs, v)
    ensures w == v
  {
    hide SurfaceOption, SurfaceOptionScore;
    assert Loses(x, gs, w, v.group, v.surface, v.alloc);
    assert Loses(x, gs, v, w.group, w.surface, w.alloc);
  }

  ghost predicate AllBelow(x: Work, gs: seq<Group>, floor: int)
    requires GroupsReady(x, gs)
  {
    forall i: nat, surface: nat, a :: IsOption(x, gs, i, surface, a) ==> OptionValue(x, gs, i, surface, a) < floor
  }

  /** The winner among the first n groups, or nothing that reaches the floor; `best` -2: no group was searched. */
  ghost predicate BestOfGroups(x: Work, gs: seq<Group>, floor: int, best: int, w: Winner, n: nat)
    requires GroupsReady(x, gs)
  {
    && best >= -2
    && (best == -2 ==> w.score == 0) && (best != -2 ==> w.score == best)
    && (best > -1 ==>
          && w.group < n && IsOption(x, gs, w.group, w.surface, w.alloc)
          && OptionValue(x, gs, w.group, w.surface, w.alloc) == best
          && w.elements == gs[w.group].residual - w.alloc.cm - w.alloc.fm - w.alloc.pp)
    && forall i: nat, surface: nat, a :: i < n && IsOption(x, gs, i, surface, a) ==>
         OptionValue(x, gs, i, surface, a) < floor || (best > -1 && Loses(x, gs, w, i, surface, a))
  }

  method ScoreLoadout(x: Work, gs: seq<Group>, shapes: array<Shape>, tables: BoundTables, floor: int, lo: real, hi: real)
    returns (w: Winner)
    requires GroupsReady(x, gs) && |gs| > 0 && shapes.Length == |x.song.pool.offsets|
    requires forall i :: 0 <= i < |gs| ==> BoundsFrontier(x.song, gs[i].frontier, shapes[gs[i].frontier])
    requires tables.Filled(x.c, x.w, x.prefixMax, lo, hi) && lo < hi
    requires forall i :: 0 <= i < |gs| ==> DeltasIn(x, gs[i], lo, hi)
    ensures w.score >= floor ==> IsExhaustiveWinner(x, gs, w)
    ensures w.score < floor ==> AllBelow(x, gs, floor)
  {
    hide BoundsFrontier, BudgetBound, SurfaceOptionScore, BestOfSurfaces, DeltasIn, ValidSong, AtMost;
    var best, candidate := -2, floor;
    w := Winner(0, 0, 0, Alloc(0, 0, 0), 0);
    for i := 0 to |gs|
      invariant BestOfGroups(x, gs, floor, best, w, i)
      invariant candidate == if best == -2 then floor else Max(floor, best)
      invariant best == -2 && i > 0 ==> floor > 0
    {
      var g := gs[i];
      assert GroupReady(x, g);
      var most := shapes[g.frontier];
      var bound := BudgetBound(tables.termMax[g.residual], BaseInit(x.loadout, g) as real, most);
      if bound < candidate as real {
        GroupPruned(x, g, most, tables, lo, hi, bound, candidate);
        KeepWinner(x, gs, floor, best, candidate, w, i);
      } else {
        var found := ScoreGroup(x, g, most, tables, candidate, lo, hi);
        ghost var was, wasBest := w, best;
        if found.score > best {
          best := found.score;
          w := Winner(found.score, i, found.surface, found.alloc,
                      Max(0, g.residual - found.alloc.pp - found.alloc.cm - found.alloc.fm));
        }
        NextGroup(x, gs, floor, wasBest, was, candidate, i, found, best, w);
        candidate := Max(candidate, found.score);
      }
    }
    FinalWinner(x, gs, floor, best, w);
  }

  ghost predicate GroupBelow(x: Work, g: Group, floor: int)
    requires GroupReady(x, g)
  {
    forall surface: nat, a :: SurfaceOption(x, g, surface, a) ==> SurfaceOptionScore(x, g, surface, a) < floor
  }

  lemma NoGems(x: Work, g: Group)
    requires GroupReady(x, g)
    ensures SurfaceOption(x, g, 0, Alloc(0, 0, 0))
  {
  }

  /** A group whose budget bound stays below a score has no option that reaches it, and that score is positive. */
  lemma GroupPruned(x: Work, g: Group, most: Shape, tables: BoundTables, lo: real, hi: real, bound: real, floor: int)
    requires GroupReady(x, g) && BoundsFrontier(x.song, g.frontier, most)
    requires tables.Filled(x.c, x.w, x.prefixMax, lo, hi) && lo < hi && DeltasIn(x, g, lo, hi)
    requires bound == BudgetBound(tables.termMax[g.residual], BaseInit(x.loadout, g) as real, most) && bound < floor as real
    ensures GroupBelow(x, g, floor) && floor > 0
  {
    hide BoundsFrontier, BudgetBound, SurfaceOptionScore, ValidSong;
    forall surface: nat, a | SurfaceOption(x, g, surface, a)
      ensures SurfaceOptionScore(x, g, surface, a) < floor && floor > 0
    {
      BudgetCovers(x, g, surface, a, most, tables, lo, hi);
      ScoreNotNegative(x, g, surface, a);
    }
    NoGems(x, g);
  }

  lemma BudgetCovers(x: Work, g: Group, surface: nat, a: Alloc, most: Shape, tables: BoundTables, lo: real, hi: real)
    requires GroupReady(x, g) && BoundsFrontier(x.song, g.frontier, most) && SurfaceOption(x, g, surface, a)
    requires tables.Filled(x.c, x.w, x.prefixMax, lo, hi) && lo < hi && DeltasIn(x, g, lo, hi)
    ensures SurfaceOptionScore(x, g, surface, a) as real
         <= BudgetBound(tables.termMax[g.residual], BaseInit(x.loadout, g) as real, most) - 1025.0
  {
    hide BudgetBound, ColumnBound, AtMost, ColumnTerms, AllocLine, OptionScore, BlockOf, ValidSong, Shift;
    var j := a.cm / TILE;
    var last := Min(|x.c.fm| - 1, g.residual - j * TILE) / TILE;
    assert tables.ColumnFilled(x.c, x.w, lo, hi, j);
    assert tables.BudgetFilled(x.c, x.w, x.prefixMax, g.residual);
    var combo, ch := tables.columnCombo[j], tables.columnTerms[j, last];
    ColumnCovers(x, g, x.song.pool.offsets[g.frontier] + surface, a, j, ch, last, lo, hi, most);
    ShiftIs(x, g, j);
    BudgetCoversColumn(combo, ch, Shift(x.w, x.prefixMax, g.residual, j * TILE), tables.termMax[g.residual],
                       BaseInit(x.loadout, g) as real, most);
  }

  lemma ShiftIs(x: Work, g: Group, j: nat)
    requires Ready(x) && j * TILE <= g.residual
    ensures ColumnDelta(x, g, j) == BaseInit(x.loadout, g) as real + Shift(x.w, x.prefixMax, g.residual, j * TILE)
  {
  }

  lemma KeepWinner(x: Work, gs: seq<Group>, floor: int, best: int, candidate: int, w: Winner, i: nat)
    requires GroupsReady(x, gs) && i < |gs| && BestOfGroups(x, gs, floor, best, w, i)
    requires candidate == (if best == -2 then floor else Max(floor, best)) && GroupBelow(x, gs[i], candidate)
    ensures BestOfGroups(x, gs, floor, best, w, i + 1)
  {
    hide SurfaceOption, SurfaceOptionScore, LexLess;
    forall k: nat, surface: nat, a | k < i + 1 && IsOption(x, gs, k, surface, a)
      ensures OptionValue(x, gs, k, surface, a) < floor || (best > -1 && Loses(x, gs, w, k, surface, a))
    {
      if k == i { OptionNotNegative(x, gs, i, surface, a); }
    }
  }

  lemma OptionNotNegative(x: Work, gs: seq<Group>, i: nat, surface: nat, a: Alloc)
    requires GroupsReady(x, gs) && IsOption(x, gs, i, surface, a)
    ensures 0 <= OptionValue(x, gs, i, surface, a)
  {
    ScoreNotNegative(x, gs[i], surface, a);
  }

  lemma NextGroup(x: Work, gs: seq<Group>, floor: int, was: int, w: Winner, candidate: int, i: nat, found: GroupBest, best: int, w': Winner)
    requires GroupsReady(x, gs) && i < |gs| && BestOfGroups(x, gs, floor, was, w, i)
    requires candidate == (if was == -2 then floor else Max(floor, was))
    requires BestOfSurfaces(x, gs[i], candidate, found, x.song.pool.lengths[gs[i].frontier])
    requires best == if found.score > was then found.score else was
    requires w' == if found.score > was then Winner(found.score, i, found.surface, found.alloc,
                   Max(0, gs[i].residual - found.alloc.pp - found.alloc.cm - found.alloc.fm)) else w
    ensures BestOfGroups(x, gs, floor, best, w', i + 1) && found.score >= -1
  {
    hide SurfaceOptionScore, LexLess, InSpace, ValidSong;
    if found.score > -1 { GemsFit(x, gs[i], found.alloc); }
    forall k: nat, surface: nat, a | k < i + 1 && IsOption(x, gs, k, surface, a)
      ensures OptionValue(x, gs, k, surface, a) < floor || (best > -1 && Loses(x, gs, w', k, surface, a))
    {
      OptionNotNegative(x, gs, k, surface, a);
      if k == i { assert NotAbove(x, gs[i], candidate, found, surface, a); }
    }
  }

  lemma GemsFit(x: Work, g: Group, a: Alloc)
    requires GroupReady(x, g) && Space(x, g, a)
    ensures a.cm + a.fm + a.pp <= g.residual
  {
  }

  lemma FinalWinner(x: Work, gs: seq<Group>, floor: int, best: int, w: Winner)
    requires GroupsReady(x, gs) && |gs| > 0 && BestOfGroups(x, gs, floor, best, w, |gs|) && (best == -2 ==> floor > 0)
    ensures w.score >= floor ==> IsExhaustiveWinner(x, gs, w)
    ensures w.score < floor ==> AllBelow(x, gs, floor)
  {
    hide SurfaceOptionScore, LexLess, InSpace, ValidSong;
    assert GroupReady(x, gs[0]);
    NoGems(x, gs[0]);
    assert IsOption(x, gs, 0, 0, Alloc(0, 0, 0));
    OptionNotNegative(x, gs, 0, 0, Alloc(0, 0, 0));
    forall i: nat, surface: nat, a | IsOption(x, gs, i, surface, a) && w.score < floor
      ensures OptionValue(x, gs, i, surface, a) < floor
    {
      assert i < |gs|;
    }
  }
}
