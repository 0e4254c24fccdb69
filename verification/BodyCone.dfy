/** The body cone filter (gear_optimizer/frontier/producer_kernels.py): the rows no other row beats by the pair's margin at
    every corner of the stat box, and why dropping the others costs no stat line anything. */
module BodyCone {
  import opened Arithmetic
  import opened ConeBox
  import FillRuns
  import Scoring

  const FLOOR_WEIGHT := 2.0
  const GREAT_FLOOR_WEIGHT := 30.0

  function Abs(x: real): real { if x >= 0.0 then x else -x }

  function Weigh(d: Body, s: Cell): real { Weighted(d.fever as real, d.normal as real, d.feverGreat as real, s) }

  function Minus(x: Body, y: Body): Body { Body(x.fever - y.fever, x.normal - y.normal, x.feverGreat - y.feverGreat) }

  /** The most the integer floors can move the gap between two rows. */
  function Margin(x: Body, y: Body): real {
    var normal, great := Abs((x.normal - y.normal) as real), Abs((x.feverGreat - y.feverGreat) as real);
    FLOOR_WEIGHT * (Abs((x.fever - y.fever) as real) + normal + great) + GREAT_FLOOR_WEIGHT * (normal + great)
  }

  function Score(x: Body, k: nat): real
    requires k < 16
  {
    Weigh(x, Corner(k))
  }

  /** The gap reaches the margin at all 16 corners. */
  ghost predicate Dominates(x: Body, y: Body) { GapAtLeast(x, y, Margin(x, y)) }

  ghost predicate GapAtLeast(x: Body, y: Body, m: real) {
    forall k :: 0 <= k < 16 ==> Score(x, k) - Score(y, k) >= m
  }

  // ---- Dominance.

  /** The margin is a metric. */
  lemma MarginIsMetric(x: Body, y: Body, z: Body)
    ensures Margin(x, z) <= Margin(x, y) + Margin(y, z)
    ensures Margin(x, y) >= 0.0 && (Margin(x, y) == 0.0 <==> x == y)
  {
  }

  lemma DominanceIsTransitive(x: Body, y: Body, z: Body)
    requires Dominates(x, y) && Dominates(y, z)
    ensures Dominates(x, z)
  {
    hide Score, Margin;
    MarginIsMetric(x, y, z);
  }

  lemma DominanceIsReflexive(x: Body)
    ensures Dominates(x, x)
  {
    hide Score, Margin;
    MarginIsMetric(x, x, x);
  }

  function Total(x: Body, n: nat): real
    requires n <= 16
  {
    if n == 0 then 0.0 else Total(x, n - 1) + Score(x, n - 1)
  }

  lemma {:induction false} TotalOfGaps(x: Body, y: Body, m: real, n: nat)
    requires n <= 16 && GapAtLeast(x, y, m)
    ensures Total(x, n) - Total(y, n) >= n as real * m
  {
    hide Score;
    if n > 0 {
      TotalOfGaps(x, y, m, n - 1);
      assert n as real * m == (n - 1) as real * m + m;
    }
  }

  /** A dominator's corner sum is larger, unless the rows are identical. */
  lemma DominatorSumsMore(x: Body, y: Body)
    requires Dominates(x, y)
    ensures x == y || Total(x, 16) > Total(y, 16)
  {
    hide Score, Margin, Total;
    MarginIsMetric(x, y, y);
    TotalOfGaps(x, y, Margin(x, y), 16);
  }

  // ---- The filter.

  /** A stable or unstable sort of the rows by descending corner sum. */
  ghost predicate IsOrder(rows: seq<Body>, order: seq<nat>) {
    && |order| == |rows|
    && (forall p :: 0 <= p < |order| ==> order[p] < |rows|)
    && (forall i :: 0 <= i < |rows| ==> i in order)
    && (forall p, q :: 0 <= p < q < |order| ==> order[p] != order[q] && Total(rows[order[p]], 16) >= Total(rows[order[q]], 16))
  }

  /** Kept exactly the rows no other row dominates, of identical ones a single one. */
  ghost predicate IsKept(rows: seq<Body>, kept: seq<nat>) {
    && (forall k :: 0 <= k < |kept| ==> kept[k] < |rows|)
    && (forall k, l :: 0 <= k < l < |kept| ==> rows[kept[k]] != rows[kept[l]])
    && (forall x :: x in Values(rows, kept) <==> x in rows && Undominated(rows, x))
  }

  ghost predicate Undominated(rows: seq<Body>, x: Body) { forall y :: y in rows && Dominates(y, x) ==> y == x }

  ghost function Values(rows: seq<Body>, kept: seq<nat>): set<Body> {
    set k | 0 <= k < |kept| && kept[k] < |rows| :: rows[kept[k]]
  }

  ghost predicate HasDominator(rows: seq<Body>, kept: seq<nat>, x: Body) {
    exists k :: 0 <= k < |kept| && kept[k] < |rows| && Dominates(rows[kept[k]], x)
  }

  /** The corner scores of every row, in the kernel's nested loops. */
  method CornerScores(rows: seq<Body>) returns (scores: seq<seq<real>>)
    ensures Scored(rows, scores)
  {
    hide Score;
    scores := [];
    for i := 0 to |rows|
      invariant |scores| == i
      invariant forall j :: 0 <= j < i ==> |scores[j]| == 16 && forall k :: 0 <= k < 16 ==> scores[j][k] == Score(rows[j], k)
    {
      var row: seq<real> := [];
      for e := 0 to 2
        invariant |row| == 8 * e && forall k :: 0 <= k < |row| ==> row[k] == Score(rows[i], k)
      {
        for c := 0 to 2
          invariant |row| == 8 * e + 4 * c && forall k :: 0 <= k < |row| ==> row[k] == Score(rows[i], k)
        {
          for f := 0 to 2
            invariant |row| == 8 * e + 4 * c + 2 * f && forall k :: 0 <= k < |row| ==> row[k] == Score(rows[i], k)
          {
            for b := 0 to 2
              invariant |row| == 8 * e + 4 * c + 2 * f + b && forall k :: 0 <= k < |row| ==> row[k] == Score(rows[i], k)
            {
              var cell := Cell(if e == 0 then E_LOW else E_HIGH, if b == 0 then B_LOW else B_HIGH,
                               if c == 0 then C_LOW else C_HIGH, if f == 0 then F_LOW else F_HIGH);
              CornerOf(e, c, f, b, rows[i]);
              row := row + [Weigh(rows[i], cell)];
            }
          }
        }
      }
      scores := scores + [row];
    }
  }

  lemma CornerOf(e: nat, c: nat, f: nat, b: nat, row: Body)
    requires e < 2 && c < 2 && f < 2 && b < 2
    ensures Score(row, 8 * e + 4 * c + 2 * f + b)
            == Weigh(row, Cell(if e == 0 then E_LOW else E_HIGH, if b == 0 then B_LOW else B_HIGH,
                               if c == 0 then C_LOW else C_HIGH, if f == 0 then F_LOW else F_HIGH))
  {
    hide Weigh;
    var k := 8 * e + 4 * c + 2 * f + b;
    assert k / 8 == e && k / 4 % 2 == c && k / 2 % 2 == f && k % 2 == b;
  }

  method ScoresDominate(left: seq<real>, right: seq<real>, margin: real, ghost x: Body, ghost y: Body) returns (dominate: bool)
    requires |left| == 16 == |right|
    requires forall k :: 0 <= k < 16 ==> left[k] == Score(x, k) && right[k] == Score(y, k)
    ensures dominate <==> GapAtLeast(x, y, margin)
  {
    hide Score;
    for k := 0 to 16
      invariant forall j :: 0 <= j < k ==> Score(x, j) - Score(y, j) >= margin
    {
      if left[k] - right[k] < margin { return false; }
    }
    dominate := true;
  }

  ghost predicate Scored(rows: seq<Body>, scores: seq<seq<real>>) {
    && |scores| == |rows|
    && forall i :: 0 <= i < |rows| ==> |scores[i]| == 16 && forall k :: 0 <= k < 16 ==> scores[i][k] == Score(rows[i], k)
  }

  ghost predicate In(rows: seq<Body>, kept: seq<nat>) { forall k :: 0 <= k < |kept| ==> kept[k] < |rows| }

  /** Whether a kept row dominates row i; most pairs fail the zero test first. */
  method KeptDominates(rows: seq<Body>, scores: seq<seq<real>>, kept: seq<nat>, i: nat) returns (dominated: bool)
    requires Scored(rows, scores) && In(rows, kept) && i < |rows|
    ensures dominated <==> HasDominator(rows, kept, rows[i])
  {
    hide Score, Margin, Dominates, GapAtLeast;
    for n := 0 to |kept|
      invariant forall k :: 0 <= k < n ==> !Dominates(rows[kept[k]], rows[i])
    {
      var k := kept[n];
      MarginGap(rows[k], rows[i]);
      var near := ScoresDominate(scores[k], scores[i], 0.0, rows[k], rows[i]);
      if near {
        dominated := ScoresDominate(scores[k], scores[i], Margin(rows[k], rows[i]), rows[k], rows[i]);
        if dominated { return; }
      }
    }
    dominated := false;
  }

  /** Whatever order the sort leaves ties in, the kept rows are the undominated ones. */
  method ConeKept(rows: seq<Body>, scores: seq<seq<real>>, order: seq<nat>) returns (kept: seq<nat>)
    requires Scored(rows, scores) && IsOrder(rows, order)
    ensures IsKept(rows, kept) && forall i :: 0 <= i < |rows| ==> HasDominator(rows, kept, rows[i])
  {
    hide Scored, Dominates, IsKept, Undominated, HasDominator, IsOrder;
    kept := [];
    OrderIn(rows, order);
    for p := 0 to |order|
      invariant In(rows, kept) && forall k :: 0 <= k < |kept| ==> Undominated(rows, rows[kept[k]])
      invariant forall k, l :: 0 <= k < l < |kept| ==> rows[kept[k]] != rows[kept[l]]
      invariant forall q :: 0 <= q < p ==> HasDominator(rows, kept, rows[order[q]])
    {
      var i := order[p];
      var dominated := KeptDominates(rows, scores, kept, i);
      if !dominated {
        NewKept(rows, order, kept, p);
        KeptMore(rows, kept, i);
        kept := kept + [i];
      }
    }
    AllKept(rows, order, kept);
  }

  lemma OrderIn(rows: seq<Body>, order: seq<nat>)
    requires IsOrder(rows, order)
    ensures |order| == |rows| && forall p :: 0 <= p < |order| ==> order[p] < |rows|
  {
  }

  /** The zero test never rejects a dominator. */
  lemma MarginGap(x: Body, y: Body)
    ensures GapAtLeast(x, y, Margin(x, y)) ==> GapAtLeast(x, y, 0.0)
    ensures Dominates(x, y) <==> GapAtLeast(x, y, Margin(x, y))
  {
    hide Score, Margin;
    MarginIsMetric(x, y, y);
  }

  /** No row dominates one no kept row does: it would come earlier and have a kept dominator. */
  lemma NewKept(rows: seq<Body>, order: seq<nat>, kept: seq<nat>, p: nat)
    requires IsOrder(rows, order) && p < |order| && In(rows, kept)
    requires forall q :: 0 <= q < p ==> HasDominator(rows, kept, rows[order[q]])
    requires !HasDominator(rows, kept, rows[order[p]])
    ensures Undominated(rows, rows[order[p]])
    ensures forall k :: 0 <= k < |kept| ==> rows[kept[k]] != rows[order[p]]
  {
    hide Dominates, Total;
    var x := rows[order[p]];
    DominanceIsReflexive(x);
    forall y | y in rows && Dominates(y, x) ensures y == x {
      var j :| 0 <= j < |rows| && rows[j] == y;
      assert j in order;
      var q :| 0 <= q < |order| && order[q] == j;
      DominatorSumsMore(y, x);
      if q < p {
        var k :| 0 <= k < |kept| && kept[k] < |rows| && Dominates(rows[kept[k]], rows[order[q]]);
        DominanceIsTransitive(rows[kept[k]], y, x);
      }
    }
  }

  lemma KeptMore(rows: seq<Body>, kept: seq<nat>, i: nat)
    requires In(rows, kept) && i < |rows|
    ensures HasDominator(rows, kept + [i], rows[i])
    ensures forall x :: HasDominator(rows, kept, x) ==> HasDominator(rows, kept + [i], x)
  {
    hide Dominates;
    var more := kept + [i];
    DominanceIsReflexive(rows[i]);
    assert more[|kept|] == i;
    forall x | HasDominator(rows, kept, x) ensures HasDominator(rows, more, x) {
      var k :| 0 <= k < |kept| && kept[k] < |rows| && Dominates(rows[kept[k]], x);
      assert more[k] == kept[k];
    }
  }

  lemma AllKept(rows: seq<Body>, order: seq<nat>, kept: seq<nat>)
    requires IsOrder(rows, order)
    requires forall k :: 0 <= k < |kept| ==> kept[k] < |rows| && Undominated(rows, rows[kept[k]])
    requires forall k, l :: 0 <= k < l < |kept| ==> rows[kept[k]] != rows[kept[l]]
    requires forall q :: 0 <= q < |order| ==> HasDominator(rows, kept, rows[order[q]])
    ensures IsKept(rows, kept) && forall i :: 0 <= i < |rows| ==> HasDominator(rows, kept, rows[i])
  {
    hide Dominates, Total;
    forall i | 0 <= i < |rows| ensures HasDominator(rows, kept, rows[i]) {
      assert i in order;
      var q :| 0 <= q < |order| && order[q] == i;
    }
    forall x ensures x in Values(rows, kept) <==> x in rows && Undominated(rows, x) {
      if x in rows && Undominated(rows, x) {
        var i :| 0 <= i < |rows| && rows[i] == x;
        var k :| 0 <= k < |kept| && kept[k] < |rows| && Dominates(rows[kept[k]], rows[i]);
        assert rows[kept[k]] in rows;
      }
    }
  }

  // ---- The body filter, in place.

  ghost predicate IsSubsequence(rows: seq<Body>, kept: seq<nat>, result: seq<Body>) {
    && In(rows, kept) && |result| == |kept|
    && (forall i, j :: 0 <= i < j < |kept| ==> kept[i] < kept[j])
    && forall i :: 0 <= i < |kept| ==> result[i] == rows[kept[i]]
  }

  lemma {:induction false} AscendingAtLeast(kept: seq<int>, i: nat)
    requires i < |kept| && kept[0] >= 0 && forall p, q :: 0 <= p < q < |kept| ==> kept[p] < kept[q]
    ensures kept[i] >= i
  {
    if i > 0 { AscendingAtLeast(kept, i - 1); }
  }

  /** Keeps the undominated rows, one of each, in their order; `order` is the sort's. */
  method BodyConeFilter(values: array<Body>, count: nat, order: seq<nat>) returns (kept: nat, ghost indices: seq<nat>)
    requires count <= values.Length && (count >= 2 ==> IsOrder(values[..count], order))
    modifies values
    ensures kept <= count && IsSubsequence(old(values[..count]), indices, values[..kept])
    ensures IsKept(old(values[..count]), indices)
    ensures forall i :: 0 <= i < count ==> HasDominator(old(values[..count]), indices, old(values[i]))
    ensures values[count..] == old(values[count..])
  {
    hide Dominates, IsKept, HasDominator, Scored, IsOrder, FillRuns.Unique, In;
    ghost var rows := values[..count];
    if count < 2 {
      kept := count;
      indices := if count == 0 then [] else [0];
      FewRows(rows, indices);
      return;
    }
    var scores := CornerScores(values[..count]);
    var unsorted := ConeKept(values[..count], scores, order);
    var sorted := FillRuns.Unique(unsorted);
    indices := Indices(sorted, unsorted, count);
    SortedKept(rows, unsorted, indices);
    KeptIn(rows, indices);
    forall i | 0 <= i < |sorted| ensures 0 <= sorted[i] < count {
      InIs(rows, unsorted, sorted[i]) by { assert sorted[i] in sorted; KeptIn(rows, unsorted); }
    }
    Fits(sorted, count);
    kept := |sorted|;
    Compact(values, count, sorted);
    forall i | 0 <= i < kept ensures values[..kept][i] == rows[indices[i]] { PickedAt(old(values[..]), sorted, i); }
  }

  ghost function Picked(rows: seq<Body>, kept: seq<int>): (r: seq<Body>)
    requires forall i :: 0 <= i < |kept| ==> 0 <= kept[i] < |rows|
    ensures |r| == |kept|
  {
    seq(|kept|, i requires 0 <= i < |kept| => rows[kept[i]])
  }

  /** Moves the rows at ascending indices to the front. */
  method Compact(values: array<Body>, count: nat, kept: seq<int>)
    requires |kept| <= count <= values.Length && FillRuns.Ascending(kept) && forall i :: 0 <= i < |kept| ==> 0 <= kept[i] < count
    modifies values
    ensures values[..|kept|] == Picked(old(values[..]), kept)
    ensures values[|kept|..] == old(values[|kept|..])
  {
    ghost var before := values[..];
    ghost var moved := Picked(before, kept);
    for i := 0 to |kept|
      invariant values[..i] == moved[..i] && values[i..] == before[i..]
    {
      AscendingAtLeast(kept, i);
      PickedAt(before, kept, i);
      assert values[kept[i]] == values[i..][kept[i] - i];
      values[i] := values[kept[i]];
      assert moved[..i + 1] == moved[..i] + [moved[i]];
    }
  }

  lemma PickedAt(rows: seq<Body>, kept: seq<int>, i: nat)
    requires i < |kept| && forall j :: 0 <= j < |kept| ==> 0 <= kept[j] < |rows|
    ensures Picked(rows, kept)[i] == rows[kept[i]]
  {
  }

  lemma KeptIn(rows: seq<Body>, kept: seq<nat>)
    requires IsKept(rows, kept)
    ensures In(rows, kept)
  {
  }

  lemma InIs(rows: seq<Body>, kept: seq<nat>, x: int)
    requires In(rows, kept) && x in kept
    ensures 0 <= x < |rows|
  {
  }

  ghost function Indices(sorted: seq<int>, unsorted: seq<nat>, count: nat): (r: seq<nat>)
    requires forall x :: x in sorted <==> x in unsorted
    ensures |r| == |sorted| && forall i :: 0 <= i < |r| ==> r[i] == sorted[i]
  {
    assert forall i :: 0 <= i < |sorted| ==> sorted[i] in sorted;
    seq(|sorted|, i requires 0 <= i < |sorted| => sorted[i])
  }

  lemma Fits(sorted: seq<int>, count: nat)
    requires FillRuns.Ascending(sorted) && forall i :: 0 <= i < |sorted| ==> 0 <= sorted[i] < count
    ensures |sorted| <= count
  {
    if |sorted| > 0 { AscendingAtLeast(sorted, |sorted| - 1); }
  }

  lemma FewRows(rows: seq<Body>, indices: seq<nat>)
    requires |rows| < 2 && indices == if rows == [] then [] else [0]
    ensures IsSubsequence(rows, indices, rows) && IsKept(rows, indices)
    ensures forall i :: 0 <= i < |rows| ==> HasDominator(rows, indices, rows[i])
  {
    hide Dominates;
    if rows != [] {
      DominanceIsReflexive(rows[0]);
      assert indices[0] == 0 && rows[indices[0]] == rows[0];
      assert rows[0] in Values(rows, indices);
    }
  }

  /** Sorting the kept indices keeps the same rows. */
  lemma SortedKept(rows: seq<Body>, unsorted: seq<nat>, sorted: seq<nat>)
    requires IsKept(rows, unsorted) && (forall x: nat :: x in sorted <==> x in unsorted)
    requires forall i, j :: 0 <= i < j < |sorted| ==> sorted[i] < sorted[j]
    requires forall i :: 0 <= i < |rows| ==> HasDominator(rows, unsorted, rows[i])
    ensures IsKept(rows, sorted) && forall i :: 0 <= i < |rows| ==> HasDominator(rows, sorted, rows[i])
  {
    hide Dominates, Undominated, HasDominator;
    forall k | 0 <= k < |sorted| ensures sorted[k] in unsorted && sorted[k] < |rows| {
      assert sorted[k] in sorted;
    }
    assert Values(rows, sorted) == Values(rows, unsorted) by {
      SameValues(rows, unsorted, sorted);
      SameValues(rows, sorted, unsorted);
    }
    forall i | 0 <= i < |rows| { SameDominator(rows, unsorted, sorted, rows[i]); }
    SortedDistinct(rows, unsorted, sorted);
  }

  lemma SameValues(rows: seq<Body>, some: seq<nat>, more: seq<nat>)
    requires forall x: nat :: x in some ==> x in more
    ensures Values(rows, some) <= Values(rows, more)
  {
    forall k | 0 <= k < |some| && some[k] < |rows| ensures rows[some[k]] in Values(rows, more) {
      assert some[k] in some;
      var l :| 0 <= l < |more| && more[l] == some[k];
    }
  }

  lemma SameDominator(rows: seq<Body>, some: seq<nat>, more: seq<nat>, x: Body)
    requires (forall y: nat :: y in some ==> y in more) && HasDominator(rows, some, x)
    ensures HasDominator(rows, more, x)
  {
    hide Dominates;
    var k :| 0 <= k < |some| && some[k] < |rows| && Dominates(rows[some[k]], x);
    assert some[k] in some;
    var l :| 0 <= l < |more| && more[l] == some[k];
  }

  lemma SortedDistinct(rows: seq<Body>, unsorted: seq<nat>, sorted: seq<nat>)
    requires In(rows, unsorted) && In(rows, sorted) && forall k, l :: 0 <= k < l < |unsorted| ==> rows[unsorted[k]] != rows[unsorted[l]]
    requires forall k :: 0 <= k < |sorted| ==> sorted[k] in unsorted
    requires forall i, j :: 0 <= i < j < |sorted| ==> sorted[i] < sorted[j]
    ensures forall k, l :: 0 <= k < l < |sorted| ==> rows[sorted[k]] != rows[sorted[l]]
  {
    forall k, l | 0 <= k < l < |sorted| ensures rows[sorted[k]] != rows[sorted[l]] {
      var a :| 0 <= a < |unsorted| && unsorted[a] == sorted[k];
      var b :| 0 <= b < |unsorted| && unsorted[b] == sorted[l];
      assert a < b || b < a;
    }
  }

  // ---- Nothing is lost: floors included, a dominator scores at least as much at every stat line of the box.

  /** A stat line of the box, its Great base within its two floors of the exact one. */
  predicate BoxLine(l: Scoring.Line, s: Cell) {
    && InBox(s) && l.base == s.e + s.b && l.combo == s.c && l.fever == s.f
    && GreatBase(s.e) - 2.0 < l.greatBase <= GreatBase(s.e)
  }

  /** The game's Great base: two floors on two colours, none on one. */
  function GameGreatBase(primary: nat, secondary: nat, oneColor: bool): real {
    if oneColor then (primary * 2 + 150) as real
    else (((primary as real * (4.0 / 3.0)).Floor + (secondary as real * (2.0 / 3.0)).Floor) + 150) as real
  }

  lemma GameGreatBaseInBox(primary: nat, secondary: nat, oneColor: bool)
    requires oneColor ==> primary == secondary
    ensures var e := (2 * primary + secondary) as real;
            GreatBase(e) - 2.0 < GameGreatBase(primary, secondary, oneColor) <= GreatBase(e)
  {
  }

  function Values4(l: Scoring.Line): (int, int, int, int) {
    var combo, fever := Scoring.Points(l.base, l.combo, l, false), Scoring.Points(l.base, l.combo, l, true);
    (combo, fever, Max(0, combo - Scoring.Points(l.greatBase, l.combo, l, false)),
     Max(0, fever - Scoring.Points(l.greatBase, l.combo, l, true)))
  }

  function Times(x: real, y: real): real { x * y }

  lemma TimesOrder(x: real, y: real, k: real)
    ensures x <= y && k >= 0.0 ==> Times(k, x) <= Times(k, y) && Times(x, k) <= Times(y, k)
    ensures Times(k, 0.0) == 0.0 && Times(k, 2.0) == 2.0 * k && Times(k, F_HIGH) == 5.48 * k
  {
    if x <= y && k >= 0.0 { ScaleMono(x, y, k); }
  }

  lemma TimesSplit(k: real, exact: real, g: real, v: real)
    ensures Times(k, exact - v) == Times(k, exact - g) + Times(g, k) - Times(v, k)
  {
  }

  /** Each weight is within its floors of the exact one. */
  lemma FloorErrors(l: Scoring.Line, s: Cell)
    requires BoxLine(l, s)
    ensures var (combo, fever, normalLoss, feverLoss) := Values4(l);
            && Abs((fever - combo) as real - FeverWeight(s)) <= 2.0
            && Abs(-(normalLoss as real) - NormalWeight(s)) <= 32.0
            && Abs(-(feverLoss as real) - FeverGreatWeight(s)) <= 32.0
  {
    hide Times, GreatBase, Scoring.Points, Max, Abs, FeverWeight, NormalWeight, FeverGreatWeight;
    var v, g, exact := s.e + s.b, l.greatBase, GreatBase(s.e);
    GreatBelow(s, g);
    ProductBound(s.c, s.f);
    PointsAre(l.base, l);
    PointsAre(g, l);
    WeightsAre(s);
    FeverError(Times(v, Times(s.c, s.f)), Times(v, s.c));
    LossError(v, g, s.c, exact);
    LossError(v, g, Times(s.c, s.f), exact);
  }

  lemma PointsAre(base: real, l: Scoring.Line)
    ensures Scoring.Points(base, l.combo, l, false) == Times(base, l.combo).Floor
    ensures Scoring.Points(base, l.combo, l, true) == Times(base, Times(l.combo, l.fever)).Floor
  {
  }

  lemma WeightsAre(s: Cell)
    ensures FeverWeight(s) == Times(s.e + s.b, Times(s.c, s.f)) - Times(s.e + s.b, s.c)
    ensures NormalWeight(s) == Times(s.c, GreatBase(s.e) - (s.e + s.b))
    ensures FeverGreatWeight(s) == Times(Times(s.c, s.f), GreatBase(s.e) - (s.e + s.b))
  {
    hide GreatBase;
  }

  lemma ProductBound(c: real, f: real)
    requires C_LOW <= c <= C_HIGH && F_LOW <= f <= F_HIGH
    ensures 0.0 <= c <= 14.91 && 0.0 <= Times(c, f) <= 14.91
  {
    hide Times;
    TimesOrder(0.0, f, c);
    TimesOrder(f, F_HIGH, c);
  }

  function FeverWeight(s: Cell): real { (s.e + s.b) * s.c * (s.f - 1.0) }

  function NormalWeight(s: Cell): real { s.c * (GreatBase(s.e) - (s.e + s.b)) }

  function FeverGreatWeight(s: Cell): real { s.c * s.f * (GreatBase(s.e) - (s.e + s.b)) }

  lemma WeighIs(d: Body, s: Cell)
    ensures Weigh(d, s) == d.fever as real * FeverWeight(s) + d.normal as real * NormalWeight(s) + d.feverGreat as real * FeverGreatWeight(s)
  {
  }

  lemma GreatBelow(s: Cell, g: real)
    requires InBox(s) && g <= GreatBase(s.e)
    ensures g <= s.e + s.b
  {
  }

  lemma FeverError(fever: real, plain: real)
    ensures Abs((fever.Floor - plain.Floor) as real - (fever - plain)) <= 2.0
  {
  }

  lemma LossError(v: real, g: real, k: real, exact: real)
    requires g <= v && 0.0 <= k <= 14.91 && exact - 2.0 < g <= exact
    ensures Abs(-(Max(0, Times(v, k).Floor - Times(g, k).Floor) as real) - Times(k, exact - v)) <= 32.0
  {
    hide Times;
    TimesOrder(g, v, k);
    TimesOrder(0.0, exact - g, k);
    TimesOrder(exact - g, 2.0, k);
    TimesSplit(k, exact, g, v);
  }

  /** The counts' floored worth, the rest of the play's left out. */
  function Exact(d: Body, l: Scoring.Line): int {
    var (combo, fever, normalLoss, feverLoss) := Values4(l);
    d.fever * (fever - combo) - d.normal * normalLoss - d.feverGreat * feverLoss
  }

  lemma RealTimes(x: int, y: int)
    ensures (x * y) as real == x as real * y as real
  {
  }

  lemma ErrorTimes(d: real, weight: real, exact: real, bound: real)
    requires Abs(weight - exact) <= bound
    ensures d * weight >= d * exact - bound * Abs(d)
  {
    if d >= 0.0 { ScaleMono(exact - bound, weight, d); } else { ScaleMono(weight, exact + bound, -d); }
  }

  lemma ExactNearWeighted(d: Body, l: Scoring.Line, s: Cell)
    requires BoxLine(l, s)
    ensures Exact(d, l) as real >= Weigh(d, s) - Margin(d, Body(0, 0, 0))
  {
    hide BoxLine, InBox, FeverWeight, NormalWeight, FeverGreatWeight, Weigh, Values4, Abs;
    FloorErrors(l, s);
    WeighIs(d, s);
    var (combo, fever, normalLoss, feverLoss) := Values4(l);
    ErrorTimes(d.fever as real, (fever - combo) as real, FeverWeight(s), 2.0);
    ErrorTimes(d.normal as real, -(normalLoss as real), NormalWeight(s), 32.0);
    ErrorTimes(d.feverGreat as real, -(feverLoss as real), FeverGreatWeight(s), 32.0);
    RealTimes(d.fever, fever - combo);
    RealTimes(d.normal, normalLoss);
    RealTimes(d.feverGreat, feverLoss);
    NegatedTimes(d.normal as real, normalLoss as real);
    NegatedTimes(d.feverGreat as real, feverLoss as real);
  }

  lemma NegatedTimes(x: real, y: real)
    ensures x * -y == -(x * y)
  {
  }

  /** Dominance lifts from the corners to every stat line, floors and all. */
  lemma DominatorWorthMore(x: Body, y: Body, l: Scoring.Line, s: Cell)
    requires Dominates(x, y) && BoxLine(l, s)
    ensures Exact(Minus(x, y), l) >= 0
  {
    hide BoxLine, Exact, Weigh, Margin;
    var d := Minus(x, y);
    GapsAreWeights(x, y);
    assert InBox(s) by { BoxLineInBox(l, s); }
    WeighInBox(d, s, Margin(x, y));
    ExactNearWeighted(d, l, s);
    MarginOfGap(x, y);
  }

  lemma BoxLineInBox(l: Scoring.Line, s: Cell)
    requires BoxLine(l, s)
    ensures InBox(s)
  {
  }

  lemma MarginOfGap(x: Body, y: Body)
    ensures Margin(Minus(x, y), Body(0, 0, 0)) == Margin(x, y)
  {
  }

  lemma GapsAreWeights(x: Body, y: Body)
    ensures Dominates(x, y) ==> AtCorners(Minus(x, y).fever as real, Minus(x, y).normal as real, Minus(x, y).feverGreat as real, Margin(x, y))
  {
    hide Margin, Weighted;
    if Dominates(x, y) {
      forall k | 0 <= k < 16
        ensures Weighted(Minus(x, y).fever as real, Minus(x, y).normal as real, Minus(x, y).feverGreat as real, Corner(k)) >= Margin(x, y)
      {
        assert Score(x, k) - Score(y, k) >= Margin(x, y);
        WeightedGap(x, y, Corner(k));
      }
    }
  }

  lemma WeightedGap(x: Body, y: Body, s: Cell)
    ensures Weigh(x, s) - Weigh(y, s) == Weigh(Minus(x, y), s)
  {
    var v, loss := s.e + s.b, GreatBase(s.e) - (s.e + s.b);
    Difference(x.fever, y.fever, v * s.c * (s.f - 1.0));
    Difference(x.normal, y.normal, s.c * loss);
    Difference(x.feverGreat, y.feverGreat, s.c * s.f * loss);
  }

  lemma Difference(x: int, y: int, k: real)
    ensures x as real * k - y as real * k == (x - y) as real * k
  {
  }

  lemma WeighInBox(d: Body, s: Cell, m: real)
    requires AtCorners(d.fever as real, d.normal as real, d.feverGreat as real, m) && InBox(s)
    ensures Weigh(d, s) >= m
  {
    BoxFromCorners(d.fever as real, d.normal as real, d.feverGreat as real, s, m);
  }

  /** A play's surface: a body row on top of the counts the rest of the play adds. */
  function Play(rest: Scoring.Surface, x: Body): Scoring.Surface
    requires x.fever >= 0 && x.normal >= 0 && x.feverGreat >= 0
  {
    Scoring.Surface(rest.words, rest.bodyFever + x.fever, rest.bodyGreat + x.normal + x.feverGreat, rest.bodyFeverGreat + x.feverGreat)
  }

  lemma {:induction false} SameHead(a: Scoring.Surface, b: Scoring.Surface, l: Scoring.Line, n: nat)
    requires |a.words| == 8 && a.words == b.words && n <= Scoring.HEAD_NOTES && n <= |l.ramp|
    ensures Scoring.HeadScore(a, l, n) == Scoring.HeadScore(b, l, n)
  {
    if n > 0 { SameHead(a, b, l, n - 1); }
  }

  lemma BodyGap(a: Scoring.Surface, x: Body, y: Body, l: Scoring.Line, total: nat)
    requires x.fever >= 0 && x.normal >= 0 && x.feverGreat >= 0 && y.fever >= 0 && y.normal >= 0 && y.feverGreat >= 0
    ensures Scoring.BodyScore(Play(a, x), l, total) - Scoring.BodyScore(Play(a, y), l, total) == Exact(Minus(x, y), l)
  {
    hide Scoring.Points;
    var (combo, fever, normalLoss, feverLoss) := Values4(l);
    CountedGap(a.bodyFever, a.bodyGreat - a.bodyFeverGreat, a.bodyFeverGreat, x, y, total, combo, fever, normalLoss, feverLoss);
  }

  lemma CountedGap(f: int, n: int, g: int, x: Body, y: Body, total: int, combo: int, fever: int, normalLoss: int, feverLoss: int)
    ensures Scoring.CountedScore(f + x.fever, n + g + x.normal + x.feverGreat, g + x.feverGreat, total, fever, combo, feverLoss, normalLoss)
            - Scoring.CountedScore(f + y.fever, n + g + y.normal + y.feverGreat, g + y.feverGreat, total, fever, combo, feverLoss, normalLoss)
            == (x.fever - y.fever) * (fever - combo) - (x.normal - y.normal) * normalLoss - (x.feverGreat - y.feverGreat) * feverLoss
  {
    IntDistribute(f, x.fever, fever);
    IntDistribute(f, y.fever, fever);
    IntDistribute(total - f, -x.fever, combo);
    IntDistribute(total - f, -y.fever, combo);
    IntDistribute(n, x.normal, normalLoss);
    IntDistribute(n, y.normal, normalLoss);
    IntDistribute(g, x.feverGreat, feverLoss);
    IntDistribute(g, y.feverGreat, feverLoss);
  }

  lemma IntDistribute(a: int, b: int, k: int)
    ensures (a + b) * k == a * k + b * k
  {
  }

  /** Every dropped row has a kept row that, in any play through the state, scores at least as much under the game's
      floored scoring at every stat line of the box. */
  lemma FilterIsLossless(rows: seq<Body>, kept: seq<nat>, i: nat, rest: Scoring.Surface, l: Scoring.Line, s: Cell, headLen: nat, total: nat)
    returns (k: nat)
    requires i < |rows| && HasDominator(rows, kept, rows[i]) && BoxLine(l, s)
    requires forall r :: r in rows ==> r.fever >= 0 && r.normal >= 0 && r.feverGreat >= 0
    requires |rest.words| == 8 && headLen <= Scoring.HEAD_NOTES && headLen <= |l.ramp|
    ensures k < |kept| && kept[k] < |rows|
    ensures Scoring.SurfaceScore(Play(rest, rows[kept[k]]), l, headLen, total) >= Scoring.SurfaceScore(Play(rest, rows[i]), l, headLen, total)
  {
    hide Dominates, BoxLine, Exact, Scoring.BodyScore, Scoring.HeadScore;
    k :| 0 <= k < |kept| && kept[k] < |rows| && Dominates(rows[kept[k]], rows[i]);
    var x, y := rows[kept[k]], rows[i];
    assert x in rows && y in rows;
    DominatorWorthMore(x, y, l, s);
    BodyGap(rest, x, y, l, total);
    SameHead(Play(rest, x), Play(rest, y), l, headLen);
  }
}
