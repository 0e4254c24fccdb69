/** Which FT/FF splits of a pre-gem (FT, FF) key the gem search looks at (gear_optimizer/solver/gem_search.py,
    _kept_splits): along each axis it stops where one more gem no longer moves the stat, when such a gem is worth less
    than a residual one or raises no color. */
module SplitCaps {
  import opened GemProblem
  import opened SplitOrder

  // ---- The splits of a budget in table order: ft = 0 with ff = 0 .. budget, then ft = 1, ...

  function RowStart(budget: nat, ft: nat): nat
    requires ft <= budget + 1
  {
    if ft == 0 then 0 else RowStart(budget, ft - 1) + (budget + 2 - ft)
  }

  function Pos(budget: nat, ft: nat, ff: nat): nat
    requires ft + ff <= budget
  {
    RowStart(budget, ft) + ff
  }

  function SplitCount(budget: nat): nat { RowStart(budget, budget + 1) }

  lemma {:induction false} RowOrder(budget: nat, i: nat, j: nat)
    requires i < j <= budget + 1
    ensures RowStart(budget, i) + budget + 1 - i <= RowStart(budget, j)
    decreases j
  {
    if i < j - 1 { RowOrder(budget, i, j - 1); }
  }

  lemma PosInTable(budget: nat, ft: nat, ff: nat)
    requires ft + ff <= budget
    ensures Pos(budget, ft, ff) < SplitCount(budget)
  {
    RowOrder(budget, ft, budget + 1);
  }

  /** The split at a position. */
  ghost function SplitFrom(budget: nat, ft: nat, p: nat): (r: (nat, nat))
    requires ft <= budget && RowStart(budget, ft) <= p < SplitCount(budget)
    ensures r.0 + r.1 <= budget && Pos(budget, r.0, r.1) == p
    decreases budget - ft
  {
    if p < RowStart(budget, ft + 1) then (ft, p - RowStart(budget, ft)) else SplitFrom(budget, ft + 1, p)
  }

  ghost function SplitAt(budget: nat, p: nat): (r: (nat, nat))
    requires p < SplitCount(budget)
    ensures r.0 + r.1 <= budget && Pos(budget, r.0, r.1) == p
  {
    SplitFrom(budget, 0, p)
  }

  lemma OneSplit(budget: nat, ft: nat, ff: nat, ft': nat, ff': nat)
    requires ft + ff <= budget && ft' + ff' <= budget && Pos(budget, ft, ff) == Pos(budget, ft', ff')
    ensures ft == ft' && ff == ff'
  {
    if ft < ft' { RowOrder(budget, ft, ft'); }
    if ft' < ft { RowOrder(budget, ft', ft); }
  }

  lemma SplitAtPos(budget: nat, ft: nat, ff: nat)
    requires ft + ff <= budget
    ensures Pos(budget, ft, ff) < SplitCount(budget) && SplitAt(budget, Pos(budget, ft, ff)) == (ft, ff)
  {
    PosInTable(budget, ft, ff);
    var s := SplitAt(budget, Pos(budget, ft, ff));
    OneSplit(budget, ft, ff, s.0, s.1);
  }

  // ---- What the splits' gems are worth.

  /** Which colors an FT gem and an FF gem raise. */
  datatype SplitColors = SplitColors(ftPrimary: bool, ftSecondary: bool, ffPrimary: bool, ffSecondary: bool)

  function ColorGain(ftRaises: bool, ffRaises: bool, ft: nat, ff: nat): nat {
    ((if ftRaises then ft else 0) + (if ffRaises then ff else 0)) * STAT_GEM_ELEMENT_GAIN
  }

  ghost predicate IsSplit(t: Table, budget: nat, k: SplitColors, ft: nat, ff: nat)
    requires Shaped(t) && ft + ff <= budget && |t.residual| == SplitCount(budget)
  {
    PosInTable(budget, ft, ff);
    var p := Pos(budget, ft, ff);
    && t.residual[p] == budget - ft - ff
    && t.primary[p] == ColorGain(k.ftPrimary, k.ffPrimary, ft, ff)
    && t.secondary[p] == ColorGain(k.ftSecondary, k.ffSecondary, ft, ff)
  }

  /** The combo table of a budget. */
  ghost predicate IsComboTable(t: Table, budget: nat, k: SplitColors) {
    && Shaped(t) && |t.residual| == SplitCount(budget)
    && forall ft: nat, ff: nat {:trigger Pos(budget, ft, ff)} :: ft + ff <= budget ==> IsSplit(t, budget, k, ft, ff)
  }

  /** The first gem of an axis (the split at `first`) is worth less than a residual gem, or raises no color. */
  predicate Caps(t: Table, first: nat)
    requires Shaped(t) && 0 < first < |t.residual|
  {
    Value(t, first) < Value(t, 0) || t.primary[first] + t.secondary[first] == 0
  }

  lemma AxisStarts(budget: nat)
    requires budget >= 1
    ensures Pos(budget, 0, 0) == 0 && Pos(budget, 0, 1) == 1 && Pos(budget, 1, 0) == budget + 1
    ensures budget + 1 < SplitCount(budget)
  {
    PosInTable(budget, 1, 0);
    assert RowStart(budget, 1) == RowStart(budget, 0) + budget + 1;
  }

  predicate FfCaps(t: Table, budget: nat)
    requires Shaped(t) && budget >= 1 && |t.residual| == SplitCount(budget)
  {
    AxisStarts(budget);
    Caps(t, 1)
  }

  predicate FtCaps(t: Table, budget: nat)
    requires Shaped(t) && budget >= 1 && |t.residual| == SplitCount(budget)
  {
    AxisStarts(budget);
    Caps(t, budget + 1)
  }

  /** What a gem of an axis adds to 2 x primary + secondary. */
  function AxisWorth(primary: bool, secondary: bool): nat {
    (if primary then 2 * STAT_GEM_ELEMENT_GAIN else 0) + (if secondary then STAT_GEM_ELEMENT_GAIN else 0)
  }

  lemma ValueIs(t: Table, budget: nat, k: SplitColors, ft: nat, ff: nat)
    requires IsComboTable(t, budget, k) && ft + ff <= budget
    ensures Pos(budget, ft, ff) < |t.residual|
    ensures Value(t, Pos(budget, ft, ff)) == ft * AxisWorth(k.ftPrimary, k.ftSecondary) + ff * AxisWorth(k.ffPrimary, k.ffSecondary)
                                             + t.element * (budget - ft - ff)
  {
    PosInTable(budget, ft, ff);
    assert IsSplit(t, budget, k, ft, ff);
  }

  lemma ElementStep(e: int, n: int)
    ensures e * (n - 1) == e * n - e
  {
  }

  /** A capped axis: a gem there is worth less than a residual gem, or nothing. */
  lemma CapsMeans(t: Table, budget: nat, k: SplitColors)
    requires IsComboTable(t, budget, k) && budget >= 1
    ensures FtCaps(t, budget) <==> AxisWorth(k.ftPrimary, k.ftSecondary) < t.element || AxisWorth(k.ftPrimary, k.ftSecondary) == 0
    ensures FfCaps(t, budget) <==> AxisWorth(k.ffPrimary, k.ffSecondary) < t.element || AxisWorth(k.ffPrimary, k.ffSecondary) == 0
  {
    hide Value, RowStart;
    AxisStarts(budget);
    ValueIs(t, budget, k, 0, 0);
    ValueIs(t, budget, k, 0, 1);
    ValueIs(t, budget, k, 1, 0);
    ElementStep(t.element, budget);
    assert IsSplit(t, budget, k, 0, 1);
    assert IsSplit(t, budget, k, 1, 0);
  }

  lemma StepsOf(d: nat, worth: nat, e: nat)
    requires d > 0 ==> worth < e || worth == 0
    ensures d * (e - worth) >= 0
    ensures d > 0 && (worth > 0 || e > 0) ==> d * (e - worth) > 0
  {
    if d == 0 || e == worth {
      NoSteps(d, e - worth);
    } else {
      SomeSteps(d, e - worth);
    }
  }

  lemma NoSteps(d: int, x: int)
    requires d == 0 || x == 0
    ensures d * x == 0
  {
  }

  lemma SomeSteps(d: int, x: int)
    requires d > 0 && x > 0
    ensures d * x > 0
  {
  }

  lemma ValueGap(x: int, y: int, u: int, v: int, wx: int, wy: int, e: int, b: int)
    ensures (u * wx + v * wy + e * (b - u - v)) - (x * wx + y * wy + e * (b - x - y)) == (x - u) * (e - wx) + (y - v) * (e - wy)
  {
  }

  /** Fewer gems on capped axes beat more. */
  lemma FewerBeats(t: Table, budget: nat, k: SplitColors, ft: nat, ff: nat, i: nat, j: nat)
    requires IsComboTable(t, budget, k) && budget >= 1 && ft + ff <= budget
    requires i <= ft && j <= ff && (i < ft || j < ff)
    requires i < ft ==> FtCaps(t, budget)
    requires j < ff ==> FfCaps(t, budget)
    ensures Pos(budget, i, j) < Pos(budget, ft, ff) < |t.residual| && Beats(t, Pos(budget, i, j), Pos(budget, ft, ff))
  {
    hide Value, Caps;
    var a, b := AxisWorth(k.ftPrimary, k.ftSecondary), AxisWorth(k.ffPrimary, k.ffSecondary);
    CapsMeans(t, budget, k);
    ValueIs(t, budget, k, ft, ff);
    ValueIs(t, budget, k, i, j);
    ValueGap(ft, ff, i, j, a, b, t.element, budget);
    StepsOf(ft - i, a, t.element);
    StepsOf(ff - j, b, t.element);
    assert IsSplit(t, budget, k, ft, ff);
    assert IsSplit(t, budget, k, i, j);
    if i < ft { RowOrder(budget, i, ft); }
  }

  // ---- The splits looked at.

  /** The pre-gem Fever Time and Fever Fill. */
  datatype Key = Key(ft: int, ff: int)

  /** A stat with some gems on it. */
  function Stat(key: int, gems: nat): (r: nat)
    ensures r <= MAX_STAT
  {
    StatRow(key + gems * STAT_GEM_GAIN_FEVER)
  }

  /** Whether an axis goes on to this many gems: on a capped axis every gem so far moved the stat. */
  ghost predicate Open(caps: bool, key: int, gems: nat) {
    caps ==> forall j: nat :: j < gems ==> Stat(key, j + 1) != Stat(key, j)
  }

  ghost predicate Visits(t: Table, budget: nat, key: Key, p: nat)
    requires Shaped(t) && budget >= 1 && |t.residual| == SplitCount(budget) && p < SplitCount(budget)
  {
    var s := SplitAt(budget, p);
    Open(FtCaps(t, budget), key.ft, s.0) && Open(FfCaps(t, budget), key.ff, s.1)
  }

  /** The splits looked at, of the first n. */
  ghost function Visited(t: Table, budget: nat, key: Key, n: nat): (r: seq<nat>)
    requires Shaped(t) && budget >= 1 && |t.residual| == SplitCount(budget) && n <= SplitCount(budget)
    ensures forall p: nat :: p in r <==> p < n && Visits(t, budget, key, p)
    ensures Rising(r)
  {
    if n == 0 then []
    else
      var rest := Visited(t, budget, key, n - 1);
      assert forall i :: 0 <= i < |rest| ==> rest[i] in rest;
      if Visits(t, budget, key, n - 1) then rest + [n - 1] else rest
  }

  ghost function AllSplits(n: nat): (r: seq<nat>)
    ensures |r| == n && Rising(r) && forall p: nat :: p in r <==> p < n
  {
    if n == 0 then []
    else
      var rest := AllSplits(n - 1);
      assert forall i :: 0 <= i < |rest| ==> rest[i] in rest;
      rest + [n - 1]
  }

  /** frontier_idx_by_stat: the frontier at each Fever Time and Fever Fill stat. */
  predicate ValidIndex(index: seq<seq<int>>) {
    |index| == MAX_STAT + 1 && forall i :: 0 <= i < |index| ==> |index[i]| == MAX_STAT + 1
  }

  function Cell(index: seq<seq<int>>, key: Key, ft: nat, ff: nat): int
    requires ValidIndex(index)
  {
    index[Stat(key.ft, ft)][Stat(key.ff, ff)]
  }

  ghost function Fronts(index: seq<seq<int>>, key: Key, budget: nat): (r: seq<int>)
    requires ValidIndex(index)
  {
    seq(SplitCount(budget), p requires 0 <= p < SplitCount(budget) => Cell(index, key, SplitAt(budget, p).0, SplitAt(budget, p).1))
  }

  lemma FrontAt(index: seq<seq<int>>, key: Key, budget: nat, ft: nat, ff: nat)
    requires ValidIndex(index) && ft + ff <= budget
    ensures Pos(budget, ft, ff) < |Fronts(index, key, budget)|
    ensures Fronts(index, key, budget)[Pos(budget, ft, ff)] == Cell(index, key, ft, ff)
  {
    SplitAtPos(budget, ft, ff);
  }

  // ---- When stopping early is safe.

  /** A key from which a stat that stops moving never moves again within the budget: it starts above the floor (less
      than one gem below zero), or ends at it. */
  predicate Clear(key: int, budget: nat) {
    key + STAT_GEM_GAIN_FEVER > 0 || key + budget * STAT_GEM_GAIN_FEVER <= 0
  }

  lemma StaysPut(key: int, budget: nat, j: nat, gems: nat)
    requires Clear(key, budget) && j < gems <= budget && Stat(key, j + 1) == Stat(key, j)
    ensures Stat(key, gems) == Stat(key, j)
  {
  }

  /** The gems at which an axis stops, at most `gems`: there its stat is already the one at `gems`. */
  lemma StopsAt(caps: bool, key: int, budget: nat, gems: nat) returns (j: nat)
    requires Clear(key, budget) || !caps
    requires gems <= budget
    ensures j <= gems && Open(caps, key, j) && Stat(key, j) == Stat(key, gems)
    ensures j < gems <==> !Open(caps, key, gems)
    ensures j < gems ==> caps
  {
    j := 0;
    while j < gems && (!caps || Stat(key, j + 1) != Stat(key, j))
      invariant j <= gems && Open(caps, key, j)
    {
      j := j + 1;
    }
    if j < gems {
      StaysPut(key, budget, j, gems);
    }
  }

  /** Per axis: it is not cut short, or its key is clear. */
  predicate CutsSafely(t: Table, budget: nat, key: Key)
    requires Shaped(t) && budget >= 1 && |t.residual| == SplitCount(budget)
  {
    (FtCaps(t, budget) ==> Clear(key.ft, budget)) && (FfCaps(t, budget) ==> Clear(key.ff, budget))
  }

  /** A split left out is beaten by one looked at before it, on the same frontier. */
  lemma LeftOutIsBeaten(t: Table, budget: nat, k: SplitColors, index: seq<seq<int>>, key: Key, p: nat) returns (o: nat)
    requires IsComboTable(t, budget, k) && budget >= 1 && ValidIndex(index) && CutsSafely(t, budget, key)
    requires p < SplitCount(budget) && !Visits(t, budget, key, p)
    ensures o < p && Visits(t, budget, key, o) && Beats(t, o, p)
    ensures Fronts(index, key, budget)[o] == Fronts(index, key, budget)[p]
  {
    TableShape(t, budget, k);
    hide FtCaps, FfCaps, Beats, Stat, IsComboTable;
    var s := SplitAt(budget, p);
    var i := StopsAt(FtCaps(t, budget), key.ft, budget, s.0);
    var j := StopsAt(FfCaps(t, budget), key.ff, budget, s.1);
    FewerBeats(t, budget, k, s.0, s.1, i, j);
    o := Pos(budget, i, j);
    SplitAtPos(budget, i, j);
    FrontAt(index, key, budget, i, j);
    FrontAt(index, key, budget, s.0, s.1);
  }

  /** Cutting the axes short keeps every split that matters: the kept splits are those of the whole table. */
  lemma CutKeepsAll(t: Table, budget: nat, k: SplitColors, index: seq<seq<int>>, key: Key)
    requires IsComboTable(t, budget, k) && budget >= 1 && ValidIndex(index) && CutsSafely(t, budget, key)
    ensures SameKept(t, budget, key, index)
  {
    TableShape(t, budget, k);
    hide Visits, Beats, Fronts, IsComboTable, SplitCount;
    var front, all, few := Fronts(index, key, budget), AllSplits(SplitCount(budget)), Visited(t, budget, key, SplitCount(budget));
    ListsAre(t, budget, key, index);
    forall p | p in all && p !in few ensures exists o :: o in few && o < p && front[o] == front[p] && Beats(t, o, p) {
      var o := LeftOutIsBeaten(t, budget, k, index, key, p);
      assert o in few;
    }
    KeptOfFew(t, front, all, few);
  }

  lemma TableShape(t: Table, budget: nat, k: SplitColors)
    requires IsComboTable(t, budget, k)
    ensures Shaped(t) && |t.residual| == SplitCount(budget)
  {
  }

  lemma ListsAre(t: Table, budget: nat, key: Key, index: seq<seq<int>>)
    requires Shaped(t) && budget >= 1 && |t.residual| == SplitCount(budget) && ValidIndex(index)
    ensures Listed(t, Fronts(index, key, budget), AllSplits(SplitCount(budget)))
    ensures Listed(t, Fronts(index, key, budget), Visited(t, budget, key, SplitCount(budget)))
  {
  }

  ghost predicate SameKept(t: Table, budget: nat, key: Key, index: seq<seq<int>>)
    requires Shaped(t) && budget >= 1 && |t.residual| == SplitCount(budget) && ValidIndex(index)
  {
    ListsAre(t, budget, key, index);
    Kept(t, Fronts(index, key, budget), Visited(t, budget, key, SplitCount(budget)))
    == Kept(t, Fronts(index, key, budget), AllSplits(SplitCount(budget)))
  }

  // ---- When it is not: a key more than a gem below zero stops at the floor before its stat starts to move.

  /** The first gem that lifts a key above zero. */
  lemma FirstLift(key: int, budget: nat) returns (g: nat)
    requires !Clear(key, budget)
    ensures 1 < g <= budget && key + g * STAT_GEM_GAIN_FEVER > 0
    ensures forall j: nat :: Stat(key, j) > 0 ==> j >= g
    ensures Stat(key, g) > 0 && Stat(key, 0) == 0 && Stat(key, 1) == 0
  {
    g := 1;
    while key + g * STAT_GEM_GAIN_FEVER <= 0
      invariant 1 <= g <= budget && forall j: nat :: j < g ==> key + j * STAT_GEM_GAIN_FEVER <= 0
      decreases budget - g
    {
      g := g + 1;
    }
  }

  /** One frontier where the axis' stat is zero, another everywhere else. */
  function TwoFrontiers(ftAxis: bool): (r: seq<seq<int>>)
    ensures ValidIndex(r)
    ensures forall i, j :: 0 <= i <= MAX_STAT && 0 <= j <= MAX_STAT ==> r[i][j] == if (if ftAxis then i else j) > 0 then 1 else 0
  {
    seq(MAX_STAT + 1, i => seq(MAX_STAT + 1, j => if (if ftAxis then i else j) > 0 then 1 else 0))
  }

  lemma Unrivalled(t: Table, budget: nat, k: SplitColors, ft: nat, ff: nat, o: nat)
    requires IsComboTable(t, budget, k) && ft + ff <= budget && o < SplitCount(budget)
    requires SplitAt(budget, o).0 >= ft && SplitAt(budget, o).1 >= ff
    ensures Pos(budget, ft, ff) < |t.residual| && !Beats(t, o, Pos(budget, ft, ff))
  {
    var s := SplitAt(budget, o);
    PosInTable(budget, ft, ff);
    assert IsSplit(t, budget, k, ft, ff);
    assert IsSplit(t, budget, k, s.0, s.1);
  }

  /** A split looked at nowhere, that the whole table keeps. */
  lemma LowKeyLoses(t: Table, budget: nat, k: SplitColors, key: Key)
    requires IsComboTable(t, budget, k) && budget >= 1 && !CutsSafely(t, budget, key)
    ensures exists index :: ValidIndex(index) && !SameKept(t, budget, key, index)
  {
    TableShape(t, budget, k);
    hide IsComboTable, Stat, SplitCount, Pos, Beats;
    var ftAxis := FtCaps(t, budget) && !Clear(key.ft, budget);
    var g := FirstLift(if ftAxis then key.ft else key.ff, budget);
    var ft, ff := if ftAxis then g else 0, if ftAxis then 0 else g;
    var index := TwoFrontiers(ftAxis);
    var p, front, all := Pos(budget, ft, ff), Fronts(index, key, budget), AllSplits(SplitCount(budget));
    FrontAt(index, key, budget, ft, ff);
    SplitAtPos(budget, ft, ff);
    ListsAre(t, budget, key, index);
    forall o | o in all && front[o] == front[p] ensures !Beats(t, o, p) {
      assert front[p] == 1;
      Unrivalled(t, budget, k, ft, ff, o);
    }
    assert p in Kept(t, front, all);
    assert Stat(if ftAxis then key.ft else key.ff, 1) == Stat(if ftAxis then key.ft else key.ff, 0);
    assert !Visits(t, budget, key, p);
  }

  /** The kept splits are those of the whole table whatever the frontiers exactly when every axis that may be cut
      short has a clear key. */
  lemma CutIsExact(t: Table, budget: nat, k: SplitColors, key: Key)
    requires IsComboTable(t, budget, k) && budget >= 1
    ensures CutsSafely(t, budget, key) <==> forall index :: ValidIndex(index) ==> SameKept(t, budget, key, index)
  {
    TableShape(t, budget, k);
    if CutsSafely(t, budget, key) {
      forall index | ValidIndex(index) ensures SameKept(t, budget, key, index) { CutKeepsAll(t, budget, k, index, key); }
    } else {
      LowKeyLoses(t, budget, k, key);
    }
  }
}
