/** The gem search's bound tables (gear_optimizer/solver/gem_search.py, _fill_block_bounds): (CM, FM) pairs in
    TILE x TILE blocks, columns of blocks with equal CM, and residual budgets, each with terms that bound the base
    value and base value x fever of everything under it. */
module GemTables {
  import opened Arithmetic
  import opened Scoring
  import opened GemBounds
  import opened GemProblem

  const TILE: nat := 3
  const SIDE: nat := 31

  /** A block's base value over element gems at its best corner, and the multipliers at its best and worst corners. */
  datatype Block = Block(base: real, combo: real, fever: real, worstCombo: real, worstFever: real)

  datatype Corner = Corner(cm0: nat, cm1: nat, fm0: nat, fm1: nat)

  /** The most base value of a column's first blocks, and their most base value x fever as a chord in delta. */
  datatype Chord = Chord(base: real, intercept: real, slope: real)

  /** A budget's most of each term of a column's bound, as a value and a slope in delta per shape coordinate. */
  datatype Terms = Terms(a0: real, a1: real, e0: real, e1: real, f0: real, f1: real, g0: real, g1: real)

  function BlockBound(b: Block, delta: real, s: Shape): real {
    Worth(b.base + delta, s, b.combo, b.fever) + 1025.0
  }

  function ColumnBound(combo: real, c: Chord, delta: real, s: Shape): real {
    (c.intercept + delta * c.slope) * (combo * s.a + s.f) + (c.base + delta) * (combo * s.e + s.g) + 1025.0
  }

  function BudgetBound(t: Terms, delta: real, s: Shape): real {
    Term(s.a, t.a0, t.a1, delta) + Term(s.e, t.e0, t.e1, delta) + Term(s.f, t.f0, t.f1, delta) + Term(s.g, t.g0, t.g1, delta) + 1025.0
  }

  /** A shape coordinate times a value with a slope in delta. */
  function Term(coordinate: real, value: real, slope: real, delta: real): real {
    coordinate * (value + delta * slope)
  }

  function Columns(c: GemCurves): nat
    requires |c.cm| > 0
  {
    (|c.cm| - 1) / TILE + 1
  }

  function BlocksIn(c: GemCurves, j: nat): nat
    requires |c.fm| > 0 && j * TILE <= GEM_BUDGET
  {
    Min(|c.fm| - 1, GEM_BUDGET - j * TILE) / TILE + 1
  }

  function CornerOf(c: GemCurves, j: nat, k: nat): Corner
    requires |c.cm| > 0 && |c.fm| > 0
  {
    Corner(j * TILE, Min(j * TILE + TILE - 1, |c.cm| - 1), k * TILE, Min(k * TILE + TILE - 1, |c.fm| - 1))
  }

  ghost predicate IsBlock(c: GemCurves, j: nat, k: nat)
    requires |c.cm| > 0 && |c.fm| > 0
  {
    j * TILE < |c.cm| && k * TILE < |c.fm|
  }

  function BlockOf(c: GemCurves, w: Weights, j: nat, k: nat): Block
    requires |c.cm| > 0 && |c.fm| > 0 && IsBlock(c, j, k)
  {
    var q := CornerOf(c, j, k);
    Block(Over(w.cm, w, if w.cm > w.element then q.cm1 else q.cm0) + Over(w.fm, w, if w.fm > w.element then q.fm1 else q.fm0),
          c.cm[q.cm1], c.fm[q.fm1], c.cm[q.cm0], c.fm[q.fm0])
  }

  /** A chord over the first k + 1 blocks of column j, between two deltas. */
  ghost predicate ChordBounds(ch: Chord, c: GemCurves, w: Weights, j: nat, k: nat, lo: real, hi: real)
    requires |c.cm| > 0 && |c.fm| > 0 && IsBlock(c, j, k)
  {
    forall i :: 0 <= i <= k ==> UnderChord(ch, BlockOf(c, w, j, i), lo, hi)
  }

  ghost predicate UnderChord(ch: Chord, b: Block, lo: real, hi: real) {
    b.base <= ch.base
    && (b.base + lo) * b.fever <= ch.intercept + lo * ch.slope
    && (b.base + hi) * b.fever <= ch.intercept + hi * ch.slope
  }

  function ColumnTerms(combo: real, c: Chord, shift: real): Terms {
    var base, baseFever := c.base + shift, c.intercept + shift * c.slope;
    Terms(combo * baseFever, combo * c.slope, combo * base, combo, baseFever, c.slope, base, 1.0)
  }

  predicate AtMost(x: Terms, y: Terms) {
    x.a0 <= y.a0 && x.a1 <= y.a1 && x.e0 <= y.e0 && x.e1 <= y.e1 && x.f0 <= y.f0 && x.f1 <= y.f1 && x.g0 <= y.g0 && x.g1 <= y.g1
  }

  function MaxReal(x: real, y: real): real { if x >= y then x else y }

  function MaxTerms(x: Terms, y: Terms): (r: Terms)
    ensures AtMost(x, r) && AtMost(y, r)
  {
    Terms(MaxReal(x.a0, y.a0), MaxReal(x.a1, y.a1), MaxReal(x.e0, y.e0), MaxReal(x.e1, y.e1),
          MaxReal(x.f0, y.f0), MaxReal(x.f1, y.f1), MaxReal(x.g0, y.g0), MaxReal(x.g1, y.g1))
  }

  /** What a budget adds to a column's base value: its element gems and the best PP part of the column's leftover. */
  function Shift(w: Weights, prefixMax: seq<real>, r: nat, cm0: nat): real
    requires |prefixMax| > 0 && cm0 <= r
  {
    (r * w.element) as real + prefixMax[Min(|prefixMax| - 1, r - cm0)]
  }

  class BoundTables {
    const termMax: array<Terms>
    const columnCombo: array<real>
    const columnFirst: array<nat>
    const columnTerms: array2<Chord>
    const blocks: array<Block>
    const corners: array<Corner>

    constructor ()
      ensures Allocated()
      ensures fresh(termMax) && fresh(columnCombo) && fresh(columnFirst) && fresh(columnTerms) && fresh(blocks) && fresh(corners)
    {
      termMax := new Terms[GEM_BUDGET + 1](_ => Terms(0.0, 0.0, 0.0, 0.0, 0.0, 0.0, 0.0, 0.0));
      columnCombo := new real[SIDE](_ => 0.0);
      columnFirst := new nat[SIDE + 1](_ => 0);
      columnTerms := new Chord[SIDE, SIDE]((_, _) => Chord(0.0, 0.0, 0.0));
      blocks := new Block[SIDE * SIDE](_ => Block(0.0, 0.0, 0.0, 0.0, 0.0));
      corners := new Corner[SIDE * SIDE](_ => Corner(0, 0, 0, 0));
    }

    ghost predicate Allocated() {
      termMax.Length == GEM_BUDGET + 1 && columnCombo.Length == SIDE && columnFirst.Length == SIDE + 1
      && columnTerms.Length0 == SIDE && columnTerms.Length1 == SIDE
      && blocks.Length == SIDE * SIDE && corners.Length == SIDE * SIDE
    }

    /** Column j holds its blocks side by side, with their chords. */
    ghost predicate ColumnFilled(c: GemCurves, w: Weights, lo: real, hi: real, j: nat)
      requires Allocated() && |c.fm| > 0 && |c.cm| > 0 && j * TILE < |c.cm| && j < SIDE
      reads columnCombo, columnFirst, columnTerms, blocks, corners
    {
      && columnCombo[j] == c.cm[CornerOf(c, j, 0).cm1]
      && j * TILE <= GEM_BUDGET && columnFirst[j] + BlocksIn(c, j) <= blocks.Length
      && forall k :: 0 <= k < BlocksIn(c, j) ==>
           && k * TILE < |c.fm|
           && blocks[columnFirst[j] + k] == BlockOf(c, w, j, k) && corners[columnFirst[j] + k] == CornerOf(c, j, k)
           && ChordBounds(columnTerms[j, k], c, w, j, k, lo, hi)
    }

    ghost predicate BudgetFilled(c: GemCurves, w: Weights, prefixMax: seq<real>, r: nat)
      requires Allocated() && |c.fm| > 0 && |c.cm| > 0 && |prefixMax| > 0 && r <= GEM_BUDGET
      reads columnCombo, columnTerms, termMax
    {
      forall j :: 0 <= j <= Min(|c.cm| - 1, r) / TILE ==>
        AtMost(ColumnTerms(columnCombo[j], columnTerms[j, Min(|c.fm| - 1, r - j * TILE) / TILE], Shift(w, prefixMax, r, j * TILE)),
               termMax[r])
    }

    ghost predicate Filled(c: GemCurves, w: Weights, prefixMax: seq<real>, lo: real, hi: real)
      reads termMax, columnCombo, columnFirst, columnTerms, blocks, corners
    {
      && Allocated() && |c.fm| > 0 && 0 < |c.cm| <= GEM_BUDGET + 1 && |prefixMax| > 0
      && (forall j :: 0 <= j < Columns(c) ==> ColumnFilled(c, w, lo, hi, j))
      && (forall r :: 0 <= r <= GEM_BUDGET ==> BudgetFilled(c, w, prefixMax, r))
    }

    method FillBlockBounds(c: GemCurves, w: Weights, prefixMax: seq<real>, lo: real, hi: real)
      requires Allocated() && lo < hi
      requires 0 < |c.fm| <= GEM_BUDGET + 1 && 0 < |c.cm| <= GEM_BUDGET + 1 && |prefixMax| > 0
      modifies termMax, columnCombo, columnFirst, columnTerms, blocks, corners
      ensures Filled(c, w, prefixMax, lo, hi)
    {
      FillColumns(c, w, lo, hi);
      FillBudgets(c, w, prefixMax);
    }

    method FillColumns(c: GemCurves, w: Weights, lo: real, hi: real)
      requires Allocated() && lo < hi
      requires 0 < |c.fm| <= GEM_BUDGET + 1 && 0 < |c.cm| <= GEM_BUDGET + 1
      modifies columnCombo, columnFirst, columnTerms, blocks, corners
      ensures forall j :: 0 <= j < Columns(c) ==> ColumnFilled(c, w, lo, hi, j)
    {
      hide Over, UnderChord, BlockOf, CornerOf;
      var b: nat := 0;
      for j := 0 to Columns(c)
        invariant b <= j * SIDE
        invariant forall i :: 0 <= i < j ==> ColumnFilled(c, w, lo, hi, i) && columnFirst[i] + BlocksIn(c, i) <= b
      {
        b := FillColumn(c, w, lo, hi, j, b);
      }
    }

    method FillBudgets(c: GemCurves, w: Weights, prefixMax: seq<real>)
      requires Allocated()
      requires 0 < |c.fm| <= GEM_BUDGET + 1 && 0 < |c.cm| <= GEM_BUDGET + 1 && |prefixMax| > 0
      modifies termMax
      ensures forall r :: 0 <= r <= GEM_BUDGET ==> BudgetFilled(c, w, prefixMax, r)
    {
      for r := 0 to GEM_BUDGET + 1
        invariant forall i :: 0 <= i < r ==> BudgetFilled(c, w, prefixMax, i)
      {
        label before:
        FillBudget(c, w, prefixMax, r);
        forall i | 0 <= i < r ensures BudgetFilled(c, w, prefixMax, i) {
          assert old@before(BudgetFilled(c, w, prefixMax, i));
        }
      }
    }

    method FillColumn(c: GemCurves, w: Weights, lo: real, hi: real, j: nat, first: nat) returns (b: nat)
      requires Allocated() && lo < hi
      requires 0 < |c.fm| <= GEM_BUDGET + 1 && 0 < |c.cm| <= GEM_BUDGET + 1 && j < Columns(c) && first <= j * SIDE
      modifies columnCombo, columnFirst, columnTerms, blocks, corners
      ensures b <= (j + 1) * SIDE && b == first + BlocksIn(c, j)
      ensures columnFirst[j] == first && ColumnFilled(c, w, lo, hi, j)
      ensures forall i :: 0 <= i < j ==> columnCombo[i] == old(columnCombo[i]) && columnFirst[i] == old(columnFirst[i])
      ensures forall i, k :: 0 <= i < j && 0 <= k < SIDE ==> columnTerms[i, k] == old(columnTerms[i, k])
      ensures forall i :: 0 <= i < first ==> blocks[i] == old(blocks[i]) && corners[i] == old(corners[i])
    {
      hide Over, UnderPeaks, UnderChord, BlockOf, CornerOf, ChordOf;
      b := first;
      columnCombo[j] := c.cm[Min(j * TILE + TILE - 1, |c.cm| - 1)];
      assert columnCombo[j] == c.cm[CornerOf(c, j, 0).cm1] by { CornerFields(c, j, 0); }
      columnFirst[j] := b;
      var mostBase, mostLow, mostHigh := -1.0e30, -1.0e30, -1.0e30;
      for k := 0 to BlocksIn(c, j)
        invariant b == first + k
        invariant columnCombo[j] == c.cm[CornerOf(c, j, 0).cm1] && columnFirst[j] == first
        invariant forall i :: 0 <= i < j ==> columnCombo[i] == old(columnCombo[i]) && columnFirst[i] == old(columnFirst[i])
        invariant forall i, k' :: 0 <= i < j && 0 <= k' < SIDE ==> columnTerms[i, k'] == old(columnTerms[i, k'])
        invariant forall i :: 0 <= i < first ==> blocks[i] == old(blocks[i]) && corners[i] == old(corners[i])
        invariant forall i :: 0 <= i < k ==> UnderPeaks(BlockOf(c, w, j, i), mostBase, mostLow, mostHigh, lo, hi)
        invariant forall i :: 0 <= i < k ==>
                    && blocks[first + i] == BlockOf(c, w, j, i) && corners[first + i] == CornerOf(c, j, i)
                    && ChordBounds(columnTerms[j, i], c, w, j, i, lo, hi)
      {
        corners[b], blocks[b] := MakeBlock(c, w, j, k);
        mostBase, mostLow, mostHigh := Peaks(blocks[b], mostBase, mostLow, mostHigh, lo, hi);
        columnTerms[j, k] := ChordOf(mostBase, mostLow, mostHigh, lo, hi);
        b := b + 1;
      }
    }

    method MakeBlock(c: GemCurves, w: Weights, j: nat, k: nat) returns (corner: Corner, block: Block)
      requires |c.cm| > 0 && |c.fm| > 0 && IsBlock(c, j, k)
      ensures corner == CornerOf(c, j, k) && block == BlockOf(c, w, j, k)
    {
      var cm0, fm0 := j * TILE, k * TILE;
      var cm1, fm1 := Min(cm0 + TILE - 1, |c.cm| - 1), Min(fm0 + TILE - 1, |c.fm| - 1);
      var base := Over(w.cm, w, if w.cm > w.element then cm1 else cm0) + Over(w.fm, w, if w.fm > w.element then fm1 else fm0);
      corner, block := Corner(cm0, cm1, fm0, fm1), Block(base, c.cm[cm1], c.fm[fm1], c.cm[cm0], c.fm[fm0]);
    }

    static lemma CornerFields(c: GemCurves, j: nat, k: nat)
      requires |c.cm| > 0 && |c.fm| > 0
      ensures CornerOf(c, j, k) == Corner(j * TILE, Min(j * TILE + TILE - 1, |c.cm| - 1), k * TILE, Min(k * TILE + TILE - 1, |c.fm| - 1))
    {
    }

    method FillBudget(c: GemCurves, w: Weights, prefixMax: seq<real>, r: nat)
      requires Allocated() && r <= GEM_BUDGET
      requires 0 < |c.fm| <= GEM_BUDGET + 1 && 0 < |c.cm| <= GEM_BUDGET + 1 && |prefixMax| > 0
      modifies termMax
      ensures BudgetFilled(c, w, prefixMax, r)
      ensures forall i :: 0 <= i <= GEM_BUDGET && i != r ==> termMax[i] == old(termMax[i])
    {
      for j := 0 to Min(|c.cm| - 1, r) / TILE + 1
        invariant forall i :: 0 <= i < j ==>
          AtMost(ColumnTerms(columnCombo[i], columnTerms[i, Min(|c.fm| - 1, r - i * TILE) / TILE], Shift(w, prefixMax, r, i * TILE)),
                 termMax[r])
        invariant forall i :: 0 <= i <= GEM_BUDGET && i != r ==> termMax[i] == old(termMax[i])
      {
        var terms := ColumnTerms(columnCombo[j], columnTerms[j, Min(|c.fm| - 1, r - j * TILE) / TILE], Shift(w, prefixMax, r, j * TILE));
        termMax[r] := if j > 0 then MaxTerms(termMax[r], terms) else terms;
      }
    }
  }

  /** A block's base value, and its base value x fever at both deltas, are at most the column's so far. */
  ghost predicate UnderPeaks(b: Block, base: real, low: real, high: real, lo: real, hi: real) {
    b.base <= base && (b.base + lo) * b.fever <= low && (b.base + hi) * b.fever <= high
  }

  method Peaks(b: Block, base: real, low: real, high: real, lo: real, hi: real)
    returns (base': real, low': real, high': real)
    ensures UnderPeaks(b, base', low', high', lo, hi)
    ensures forall x :: UnderPeaks(x, base, low, high, lo, hi) ==> UnderPeaks(x, base', low', high', lo, hi)
  {
    base' := MaxReal(base, b.base);
    low' := MaxReal(low, (b.base + lo) * b.fever);
    high' := MaxReal(high, (b.base + hi) * b.fever);
  }

  /** The chord through a column's most base value x fever at two deltas. */
  function ChordOf(base: real, low: real, high: real, lo: real, hi: real): (r: Chord)
    requires lo < hi
    ensures forall b :: UnderPeaks(b, base, low, high, lo, hi) ==> UnderChord(r, b, lo, hi)
  {
    var slope := (high - low) / (hi - lo);
    ChordEnds(low, high, lo, hi);
    Chord(base, low - lo * slope, slope)
  }

  lemma ChordEnds(low: real, high: real, lo: real, hi: real)
    requires lo < hi
    ensures var slope := (high - low) / (hi - lo);
            (low - lo * slope) + lo * slope == low && (low - lo * slope) + hi * slope == high
  {
    var slope := (high - low) / (hi - lo);
    assert slope * (hi - lo) == high - low;
  }
}
