/** Why the gem search may drop a beaten FT/FF split (gear_optimizer/solver/gem_search.py, _kept_splits): the split
    that beats it copies its PP, CM and FM gems, puts the rest on the element and scores at least as much on every
    surface; with more value, more on every note. */
module SplitScores {
  import opened Arithmetic
  import opened Scoring
  import opened GemBounds
  import opened GemProblem
  import opened GemAdmissible
  import opened GemWinner
  import opened SplitOrder
  import opened SplitCaps
  import opened KeptSplits

  // ---- A higher base scores more.

  /** The line with a base and a Great base raised. */
  function Raised(l: Line, x: real, y: real): Line { l.(base := l.base + x, greatBase := l.greatBase + y) }

  /** A line whose multipliers are at least one. */
  ghost predicate Amplifies(l: Line) {
    l.combo >= 1.0 && l.fever >= 1.0 && |l.ramp| >= HEAD_NOTES && forall i :: 0 <= i < |l.ramp| ==> l.ramp[i] >= 1.0
  }

  lemma PointsRise(base: real, x: real, scaling: real, l: Line, fever: bool, d: nat)
    requires x >= d as real && scaling >= 1.0 && l.fever >= 1.0
    ensures Points(base, scaling, l, fever) + d <= Points(base + x, scaling, l, fever)
  {
    var k := if fever then scaling * l.fever else scaling;
    ScaleMono(1.0, l.fever, scaling);
    assert k >= 1.0;
    ScaleMono(d as real, x, k);
    ScaleMono(1.0, k, d as real);
    assert (base + x) * k == base * k + x * k;
  }

  lemma NoteRises(l: Line, x: real, y: real, scaling: real, fever: bool, great: bool, d: nat)
    requires x >= d as real && y >= d as real && scaling >= 1.0 && l.fever >= 1.0
    ensures NoteScore(l, scaling, fever, great) + d <= NoteScore(Raised(l, x, y), scaling, fever, great)
  {
    hide Points;
    PointsRise(l.base, x, scaling, l, fever, d);
    PointsRise(l.greatBase, y, scaling, l, fever, d);
    PointsOfRaised(l, x, y, l.base + x, scaling, fever);
    PointsOfRaised(l, x, y, l.greatBase + y, scaling, fever);
  }

  lemma PointsOfRaised(l: Line, x: real, y: real, base: real, scaling: real, fever: bool)
    ensures Points(base, scaling, Raised(l, x, y), fever) == Points(base, scaling, l, fever)
  {
  }

  lemma OneMore(n: int, d: int)
    ensures n * d == (n - 1) * d + d
  {
  }

  lemma {:induction false} HeadRises(s: Surface, l: Line, x: real, y: real, n: nat, d: nat)
    requires |s.words| == 8 && n <= HEAD_NOTES && Amplifies(l) && x >= d as real && y >= d as real
    ensures HeadScore(s, l, n) + n * d <= HeadScore(s, Raised(l, x, y), n)
  {
    hide NoteScore, InFever, IsGreat;
    if n > 0 {
      HeadRises(s, l, x, y, n - 1, d);
      NoteRises(l, x, y, l.ramp[n - 1], InFever(s, n - 1), IsGreat(s, n - 1), d);
      OneMore(n, d);
    }
  }

  lemma {:induction false} RepeatRises(l: Line, x: real, y: real, count: nat, fever: bool, great: bool, d: nat)
    requires Amplifies(l) && x >= d as real && y >= d as real
    ensures RepeatScore(l, count, fever, great) + count * d <= RepeatScore(Raised(l, x, y), count, fever, great)
  {
    hide NoteScore;
    if count > 0 {
      RepeatRises(l, x, y, count - 1, fever, great, d);
      NoteRises(l, x, y, l.combo, fever, great, d);
      OneMore(count, d);
    }
  }

  lemma FourCounts(a: int, b: int, c: int, e: int, d: int)
    ensures a * d + b * d + c * d + e * d == (a + b + c + e) * d
  {
  }

  /** d more on both bases is at least d more points on every note. */
  lemma ScoreRises(s: Surface, l: Line, x: real, y: real, headLen: nat, bodyTotal: nat, d: nat)
    requires ValidSurface(s, bodyTotal) && headLen <= HEAD_NOTES && Amplifies(l) && x >= d as real && y >= d as real
    ensures SurfaceScore(s, l, headLen, bodyTotal) + (headLen + bodyTotal) * d <= SurfaceScore(s, Raised(l, x, y), headLen, bodyTotal)
  {
    hide RepeatScore, HeadScore, BodyScore;
    var fg, f, g := s.bodyFeverGreat, s.bodyFever - s.bodyFeverGreat, s.bodyGreat - s.bodyFeverGreat;
    var rest := bodyTotal - s.bodyFever - g;
    BodyScoreIsNoteByNote(s, l, bodyTotal);
    BodyScoreIsNoteByNote(s, Raised(l, x, y), bodyTotal);
    HeadRises(s, l, x, y, headLen, d);
    RepeatRises(l, x, y, fg, true, true, d);
    RepeatRises(l, x, y, f, true, false, d);
    RepeatRises(l, x, y, g, false, true, d);
    RepeatRises(l, x, y, rest, false, false, d);
    FourCounts(fg, f, g, rest, d);
    assert (headLen + bodyTotal) * d == headLen * d + bodyTotal * d;
  }

  // ---- A split of more value has a higher base and Great base.

  /** A split's group: its colors rise by whole gems of 3. */
  ghost predicate WholeGems(g: Group) { g.primaryGain % 3 == 0 && g.secondaryGain % 3 == 0 }

  /** A group's 2 x primary + secondary with every residual gem on the element. */
  function GroupValue(g: Group, element: nat): nat { 2 * g.primaryGain + g.secondaryGain + element * g.residual }

  lemma FloorShift(x: real, k: int)
    ensures (x + k as real).Floor == x.Floor + k
  {
  }

  lemma PrimaryStep(primary: nat, m: int)
    requires primary + 3 * m >= 0
    ensures ((primary + 3 * m) as real * (4.0 / 3.0)).Floor == (primary as real * (4.0 / 3.0)).Floor + 4 * m
  {
    FloorShift(primary as real * (4.0 / 3.0), 4 * m);
    assert (primary + 3 * m) as real * (4.0 / 3.0) == primary as real * (4.0 / 3.0) + (4 * m) as real;
  }

  lemma SecondaryStep(secondary: nat, n: int)
    requires secondary + 3 * n >= 0
    ensures ((secondary + 3 * n) as real * (2.0 / 3.0)).Floor == (secondary as real * (2.0 / 3.0)).Floor + 2 * n
  {
    FloorShift(secondary as real * (2.0 / 3.0), 2 * n);
    assert (secondary + 3 * n) as real * (2.0 / 3.0) == secondary as real * (2.0 / 3.0) + (2 * n) as real;
  }

  lemma GreatBaseStep(primary: nat, secondary: nat, m: int, n: int, singleColor: bool)
    requires primary + 3 * m >= 0 && secondary + 3 * n >= 0 && (singleColor ==> m == n)
    ensures GreatBase(primary + 3 * m, secondary + 3 * n, singleColor) == GreatBase(primary, secondary, singleColor) + 2 * (2 * m + n)
  {
    PrimaryStep(primary, m);
    SecondaryStep(secondary, n);
  }

  function Raises(raises: bool, gems: nat): nat { if raises then gems else 0 }

  /** A color's gain as whole gems of 3. */
  function ThirdOf(f: ColorFlags, a: Alloc, e: nat, primary: bool): nat {
    if primary then Raises(f.ppPrimary, a.pp) + Raises(f.cmPrimary, a.cm) + Raises(f.fmPrimary, a.fm) + 2 * Raises(f.elementPrimary, e)
    else Raises(f.ppSecondary, a.pp) + Raises(f.cmSecondary, a.cm) + Raises(f.fmSecondary, a.fm) + 2 * Raises(f.elementSecondary, e)
  }

  lemma GainIs(raises: bool, gems: nat)
    ensures gems * Gain(raises, STAT_GEM_ELEMENT_GAIN) == 3 * Raises(raises, gems)
    ensures gems * Gain(raises, ELEMENT_GEM_GAIN) == 6 * Raises(raises, gems)
  {
  }

  lemma GainsAreThirds(f: ColorFlags, a: Alloc, e: nat)
    ensures PrimaryGain(f, a, e) == 3 * ThirdOf(f, a, e, true) && SecondaryGain(f, a, e) == 3 * ThirdOf(f, a, e, false)
  {
    hide Gain, Raises;
    GainIs(f.ppPrimary, a.pp);
    GainIs(f.cmPrimary, a.cm);
    GainIs(f.fmPrimary, a.fm);
    GainIs(f.elementPrimary, e);
    GainIs(f.ppSecondary, a.pp);
    GainIs(f.cmSecondary, a.cm);
    GainIs(f.fmSecondary, a.fm);
    GainIs(f.elementSecondary, e);
  }

  lemma ElementSpread(e: int, r: int, used: int)
    ensures (r - used) * e == e * r - used * e
  {
  }

  /** The stat line of `o` is that of `g`, raised by the gap in their values: all of it on the base, two thirds of it
      on the Great base. */
  lemma RaisedLine(s: Song, l: Loadout, g: Group, o: Group, a: Alloc) returns (gap: int)
    requires ValidSong(s) && ValidLoadout(s, l) && ValidGroup(s, g) && ValidGroup(s, o) && InSpace(s, l, g, a)
    requires WholeGems(g) && WholeGems(o) && g.residual <= o.residual
    ensures InSpace(s, l, o, a)
    ensures 3 * gap == GroupValue(o, WeightsOf(s.flags).element) - GroupValue(g, WeightsOf(s.flags).element)
    ensures AllocLine(s, l, o, a) == Raised(AllocLine(s, l, g, a), (3 * gap) as real, (2 * gap) as real)
  {
    hide ValidSong, CurvesOf, GreatBase, PrimaryGain, SecondaryGain, ThirdOf;
    var w := WeightsOf(s.flags);
    var used := a.cm + a.fm + a.pp;
    var eg: nat, eo: nat := g.residual - used, o.residual - used;
    GainsAreWeights(s.flags, a, eg);
    GainsAreWeights(s.flags, a, eo);
    GainsAreThirds(s.flags, a, eg);
    GainsAreThirds(s.flags, a, eo);
    ElementSpread(w.element, g.residual, used);
    ElementSpread(w.element, o.residual, used);
    var m := ThirdOf(s.flags, a, eo, true) + o.primaryGain / 3 - ThirdOf(s.flags, a, eg, true) - g.primaryGain / 3;
    var n := ThirdOf(s.flags, a, eo, false) + o.secondaryGain / 3 - ThirdOf(s.flags, a, eg, false) - g.secondaryGain / 3;
    gap := 2 * m + n;
    if s.flags.singleColor {
      SingleColorGains(s.flags, a, eg);
      SingleColorGains(s.flags, a, eo);
    }
    var primary := l.primary + g.primaryGain + PrimaryGain(s.flags, a, eg);
    var secondary := l.secondary + g.secondaryGain + SecondaryGain(s.flags, a, eg);
    GreatBaseStep(primary, secondary, m, n, s.flags.singleColor);
  }

  lemma MultipliersAtLeastOne(s: Song, l: Loadout, cm: nat, fm: nat)
    requires ValidSong(s) && cm < |CurvesOf(s, l).cm| && fm < |CurvesOf(s, l).fm|
    ensures CurvesOf(s, l).cm[cm] >= 1.0 && CurvesOf(s, l).fm[fm] >= 1.0
  {
    GemCurveRises(s.curves.cm, l.cm, STAT_GEM_GAIN_NORMAL, true);
    GemCurveRises(s.curves.fm, l.fm, STAT_GEM_GAIN_FEVER, true);
  }

  lemma LineAmplifies(s: Song, l: Loadout, g: Group, a: Alloc)
    requires ValidSong(s) && ValidLoadout(s, l) && ValidGroup(s, g) && InSpace(s, l, g, a)
    ensures Amplifies(AllocLine(s, l, g, a))
  {
    hide AllocLine, ValidSong, CurvesOf, GreatGap, RampIsLine;
    AllocLineValid(s, l, g, a);
    AllocFields(s, l, g, a);
    MultipliersAtLeastOne(s, l, a.cm, a.fm);
    RampAmplifies(AllocLine(s, l, g, a));
  }

  lemma RampAmplifies(l: Line)
    requires RampIsLine(l) && l.combo >= 1.0
    ensures forall i :: 0 <= i < |l.ramp| ==> l.ramp[i] >= 1.0
  {
    forall i | 0 <= i < |l.ramp| ensures l.ramp[i] >= 1.0 {
      Mono2(0.0, l.combo - 1.0, 0.0, (i + 1) as real);
    }
  }

  /** With as many residual gems and at least the value, every option scores at least as much; with more value, at
      least a point more on every note of the song. */
  lemma MoreValueScoresMore(s: Song, l: Loadout, g: Group, o: Group, row: nat, a: Alloc)
    requires ValidSong(s) && ValidLoadout(s, l) && ValidGroup(s, g) && ValidGroup(s, o) && InSpace(s, l, g, a)
    requires WholeGems(g) && WholeGems(o) && g.residual <= o.residual && row < |s.pool.counts|
    requires GroupValue(g, WeightsOf(s.flags).element) <= GroupValue(o, WeightsOf(s.flags).element)
    ensures InSpace(s, l, o, a) && OptionScore(s, l, g, row, a) <= OptionScore(s, l, o, row, a)
    ensures GroupValue(g, WeightsOf(s.flags).element) < GroupValue(o, WeightsOf(s.flags).element) ==>
              OptionScore(s, l, g, row, a) + s.headLen + s.bodyTotal <= OptionScore(s, l, o, row, a)
  {
    hide AllocLine, SurfaceScore, Amplifies, WeightsOf;
    var gap := RaisedLine(s, l, g, o, a);
    LineAmplifies(s, l, g, a);
    assert ValidSurface(SurfaceOf(s, row), s.bodyTotal);
    ScoreRises(SurfaceOf(s, row), AllocLine(s, l, g, a), (3 * gap) as real, (2 * gap) as real, s.headLen, s.bodyTotal,
               if gap > 0 then 1 else 0);
  }

  // ---- The kept splits are enough.

  /** The split table of a song's colors. */
  ghost predicate SplitsOf(s: Song, t: Table, budget: nat, k: SplitColors) {
    && IsComboTable(t, budget, k) && 1 <= budget <= GEM_BUDGET && t.element == WeightsOf(s.flags).element
    && (s.flags.singleColor ==> k.ftPrimary == k.ftSecondary && k.ffPrimary == k.ffSecondary)
  }

  ghost function GroupOf(t: Table, front: seq<int>, p: nat): Group
    requires Shaped(t) && p < |t.residual| == |front| && front[p] >= 0
  {
    Group(t.residual[p], t.primary[p], t.secondary[p], front[p])
  }

  lemma GroupIs(s: Song, t: Table, budget: nat, k: SplitColors, front: seq<int>, p: nat)
    requires SplitsOf(s, t, budget, k) && |front| == SplitCount(budget) && p < |front| && 0 <= front[p] < |s.pool.offsets|
    ensures Shaped(t) && |t.residual| == |front|
    ensures ValidGroup(s, GroupOf(t, front, p)) && WholeGems(GroupOf(t, front, p))
    ensures GroupValue(GroupOf(t, front, p), WeightsOf(s.flags).element) == Value(t, p)
  {
    hide WeightsOf, SplitCount, SplitAt, RowStart;
    var x := SplitAt(budget, p);
    assert IsSplit(t, budget, k, x.0, x.1);
  }

  /** A split of more value is never matched by the one it beats: it scores a point more on every note. */
  lemma ValueBeatenNeverWins(s: Song, l: Loadout, t: Table, budget: nat, k: SplitColors, front: seq<int>, o: nat, p: nat,
                             row: nat, a: Alloc)
    requires ValidSong(s) && ValidLoadout(s, l) && SplitsOf(s, t, budget, k) && |front| == SplitCount(budget)
    requires o < |front| && p < |front| && 0 <= front[p] < |s.pool.offsets| && front[o] == front[p]
    requires Shaped(t) && |t.residual| == |front| && t.residual[o] >= t.residual[p] && Value(t, o) > Value(t, p)
    requires InSpace(s, l, GroupOf(t, front, p), a) && row < |s.pool.counts|
    ensures InSpace(s, l, GroupOf(t, front, o), a)
    ensures OptionScore(s, l, GroupOf(t, front, p), row, a) + s.headLen + s.bodyTotal
         <= OptionScore(s, l, GroupOf(t, front, o), row, a)
  {
    hide ValidSong, InSpace, OptionScore, SplitsOf, ValidLoadout, SplitCount, Value, WeightsOf;
    GroupIs(s, t, budget, k, front, o);
    GroupIs(s, t, budget, k, front, p);
    MoreValueScoresMore(s, l, GroupOf(t, front, p), GroupOf(t, front, o), row, a);
  }

  /** Every option of every split of the budget is matched by a kept split of its frontier, with the same gems. */
  lemma KeptMatches(s: Song, l: Loadout, t: Table, budget: nat, k: SplitColors, index: seq<seq<int>>, key: Key, p: nat,
                    row: nat, a: Alloc) returns (o: nat)
    requires ValidSong(s) && ValidLoadout(s, l) && SplitsOf(s, t, budget, k) && ValidIndex(index) && CutsSafely(t, budget, key)
    requires p < SplitCount(budget) == |t.residual| == |Fronts(index, key, budget)| && row < |s.pool.counts|
    requires 0 <= Fronts(index, key, budget)[p] < |s.pool.offsets| && InSpace(s, l, GroupOf(t, Fronts(index, key, budget), p), a)
    ensures Listed(t, Fronts(index, key, budget), Visited(t, budget, key, SplitCount(budget)))
    ensures o in Kept(t, Fronts(index, key, budget), Visited(t, budget, key, SplitCount(budget))) && o < SplitCount(budget)
    ensures Fronts(index, key, budget)[o] == Fronts(index, key, budget)[p]
    ensures InSpace(s, l, GroupOf(t, Fronts(index, key, budget), o), a)
    ensures OptionScore(s, l, GroupOf(t, Fronts(index, key, budget), p), row, a)
         <= OptionScore(s, l, GroupOf(t, Fronts(index, key, budget), o), row, a)
  {
    hide ValidSong, InSpace, OptionScore, ValidLoadout, SplitCount, Value, WeightsOf, Fronts, IsComboTable, Beats, Kept, Visited;
    var front := Fronts(index, key, budget);
    TableShape(t, budget, k);
    ListsAre(t, budget, key, index);
    CutKeepsAll(t, budget, k, index, key);
    o := KeptBeater(t, front, AllSplits(SplitCount(budget)), p);
    if o != p { BeatsMeans(t, o, p); }
    GroupIs(s, t, budget, k, front, o);
    GroupIs(s, t, budget, k, front, p);
    MoreValueScoresMore(s, l, GroupOf(t, front, p), GroupOf(t, front, o), row, a);
  }

  // ---- Ties.

  lemma ElementTimes(e: int, r: int, r': int)
    requires e > 0 && e * r == e * r'
    ensures r == r'
  {
  }

  /** Where an element gem raises a color, a split beaten by one of other gains or residual gems never ties with it: it scores
      less with every gems on every surface. */
  lemma BeatenNeverTies(s: Song, l: Loadout, t: Table, budget: nat, k: SplitColors, front: seq<int>, o: nat, p: nat, row: nat, a: Alloc)
    requires ValidSong(s) && ValidLoadout(s, l) && SplitsOf(s, t, budget, k) && |front| == SplitCount(budget)
    requires o < |front| && p < |front| && 0 <= front[p] < |s.pool.offsets| && front[o] == front[p]
    requires Shaped(t) && |t.residual| == |front| && Beats(t, o, p) && t.element > 0 && s.headLen + s.bodyTotal > 0
    requires GroupOf(t, front, o) != GroupOf(t, front, p)
    requires InSpace(s, l, GroupOf(t, front, p), a) && row < |s.pool.counts|
    ensures InSpace(s, l, GroupOf(t, front, o), a)
    ensures OptionScore(s, l, GroupOf(t, front, p), row, a) < OptionScore(s, l, GroupOf(t, front, o), row, a)
  {
    hide ValidSong, InSpace, OptionScore, SplitsOf, ValidLoadout, SplitCount, Beats;
    BeatsMeans(t, o, p);
    if Value(t, o) == Value(t, p) { ElementTimes(t.element, t.residual[o], t.residual[p]); }
    ValueBeatenNeverWins(s, l, t, budget, k, front, o, p, row, a);
  }

  /** No split of p's frontier scores more with the same gems. */
  ghost predicate Unpassed(s: Song, l: Loadout, t: Table, front: seq<int>, p: nat, row: nat, a: Alloc)
    requires ValidSong(s) && Shaped(t) && |t.residual| == |front| && p < |front| && front[p] >= 0 && row < |s.pool.counts|
    requires InSpace(s, l, GroupOf(t, front, p), a)
  {
    forall q: nat :: q < |front| && front[q] == front[p] && InSpace(s, l, GroupOf(t, front, q), a) ==>
      OptionScore(s, l, GroupOf(t, front, q), row, a) <= OptionScore(s, l, GroupOf(t, front, p), row, a)
  }

  /** What beats such a split is the same in gains and residual gems, earlier in the table. */
  lemma UnpassedTwin(s: Song, l: Loadout, t: Table, budget: nat, k: SplitColors, front: seq<int>, o: nat, p: nat, row: nat, a: Alloc)
    requires ValidSong(s) && ValidLoadout(s, l) && SplitsOf(s, t, budget, k) && |front| == SplitCount(budget)
    requires o < |front| && p < |front| && 0 <= front[p] < |s.pool.offsets| && front[o] == front[p]
    requires Shaped(t) && |t.residual| == |front| && Beats(t, o, p) && t.element > 0 && s.headLen + s.bodyTotal > 0
    requires row < |s.pool.counts| && InSpace(s, l, GroupOf(t, front, p), a) && Unpassed(s, l, t, front, p, row, a)
    ensures o < p && GroupOf(t, front, o) == GroupOf(t, front, p)
  {
    hide ValidSong, InSpace, OptionScore, ValidLoadout, SplitCount, SplitsOf, Beats;
    if GroupOf(t, front, o) != GroupOf(t, front, p) {
      BeatenNeverTies(s, l, t, budget, k, front, o, p, row, a);
    } else {
      SameGroupEarlier(t, front, o, p);
    }
  }

  /** The splits a key keeps for a table of frontiers. */
  ghost predicate IsKept(t: Table, budget: nat, key: Key, front: seq<int>, o: nat)
    requires Shaped(t) && budget >= 1 && |t.residual| == SplitCount(budget)
  {
    Listed(t, front, Visited(t, budget, key, SplitCount(budget))) && o in Kept(t, front, Visited(t, budget, key, SplitCount(budget)))
  }

  /** So the kept splits hold every winner of the full table: a split whose option no split of its frontier passes is kept, or
      is in gains and residual gems a kept one earlier in the table. */
  lemma WinnerIsKept(s: Song, l: Loadout, t: Table, budget: nat, k: SplitColors, index: seq<seq<int>>, key: Key, front: seq<int>, p: nat,
                     row: nat, a: Alloc) returns (o: nat)
    requires ValidSong(s) && ValidLoadout(s, l) && SplitsOf(s, t, budget, k) && ValidIndex(index)
    requires Shaped(t) && |t.residual| == SplitCount(budget) && CutsSafely(t, budget, key) && front == Fronts(index, key, budget)
    requires p < |front| == |t.residual| && 0 <= front[p] < |s.pool.offsets| && row < |s.pool.counts|
    requires InSpace(s, l, GroupOf(t, front, p), a) && Unpassed(s, l, t, front, p, row, a)
    requires t.element > 0 && s.headLen + s.bodyTotal > 0
    ensures IsKept(t, budget, key, front, o) && o <= p && front[o] == front[p] && GroupOf(t, front, o) == GroupOf(t, front, p)
  {
    hide ValidSong, InSpace, OptionScore, ValidLoadout, SplitCount, SplitsOf, Fronts, Beats, Unpassed, IsKept, GroupOf, CutsSafely, ValidIndex;
    SplitsTable(s, t, budget, k);
    o := KeptOver(t, budget, k, index, key, p);
    if o != p { UnpassedTwin(s, l, t, budget, k, front, o, p, row, a); }
  }

  lemma SplitsTable(s: Song, t: Table, budget: nat, k: SplitColors)
    requires SplitsOf(s, t, budget, k)
    ensures IsComboTable(t, budget, k) && budget >= 1
  {
    hide WeightsOf;
  }

  /** Every split that reaches a frontier is kept or beaten by a kept one of it. */
  lemma KeptOver(t: Table, budget: nat, k: SplitColors, index: seq<seq<int>>, key: Key, p: nat) returns (o: nat)
    requires IsComboTable(t, budget, k) && budget >= 1 && ValidIndex(index) && CutsSafely(t, budget, key)
    requires p < SplitCount(budget) == |t.residual| == |Fronts(index, key, budget)| && Fronts(index, key, budget)[p] >= 0
    ensures Shaped(t) && o < SplitCount(budget) && IsKept(t, budget, key, Fronts(index, key, budget), o)
    ensures Fronts(index, key, budget)[o] == Fronts(index, key, budget)[p] && (o == p || Beats(t, o, p))
  {
    hide SplitCount, Value, Fronts, IsComboTable, Beats, Kept, Visited;
    TableShape(t, budget, k);
    ListsAre(t, budget, key, index);
    CutKeepsAll(t, budget, k, index, key);
    o := KeptBeater(t, Fronts(index, key, budget), AllSplits(SplitCount(budget)), p);
  }

  lemma SameGroupEarlier(t: Table, front: seq<int>, o: nat, p: nat)
    requires Shaped(t) && o < |t.residual| == |front| && p < |front| && front[o] >= 0 && front[p] >= 0
    requires Beats(t, o, p) && GroupOf(t, front, o) == GroupOf(t, front, p)
    ensures o < p
  {
  }

  /** Where it raises none, splits of equal gains tie whatever gems they have left: the one with more beats the other and
      scores the same with every gems both can spend. */
  lemma ElementlessTies(s: Song, l: Loadout, t: Table, budget: nat, k: SplitColors, front: seq<int>, o: nat, p: nat, row: nat, a: Alloc)
    requires ValidSong(s) && ValidLoadout(s, l) && SplitsOf(s, t, budget, k) && |front| == SplitCount(budget)
    requires o < |front| && p < |front| && 0 <= front[p] < |s.pool.offsets| && front[o] == front[p]
    requires Shaped(t) && |t.residual| == |front| && t.element == 0 && t.residual[o] > t.residual[p]
    requires t.primary[o] == t.primary[p] && t.secondary[o] == t.secondary[p]
    requires InSpace(s, l, GroupOf(t, front, p), a) && row < |s.pool.counts|
    ensures Beats(t, o, p) && InSpace(s, l, GroupOf(t, front, o), a)
    ensures OptionScore(s, l, GroupOf(t, front, o), row, a) == OptionScore(s, l, GroupOf(t, front, p), row, a)
  {
    hide ValidSong, InSpace, ValidLoadout, SplitCount, AllocLine, SurfaceScore, WeightsOf, WholeGems, GroupValue, IsComboTable;
    GroupIs(s, t, budget, k, front, o);
    GroupIs(s, t, budget, k, front, p);
    var gap := RaisedLine(s, l, GroupOf(t, front, p), GroupOf(t, front, o), a);
  }

  /** The groups the search reads from a key's rows. */
  ghost function GroupsOfKey(t: Table, budget: nat, index: seq<seq<int>>, key: Key): seq<Group>
    requires Shaped(t) && budget >= 1 && |t.residual| == SplitCount(budget) && ValidIndex(index)
  {
    var rows := KeyRows(t, budget, index, key);
    seq(|rows|, i requires 0 <= i < |rows| =>
      Group(rows[i].residual, rows[i].primary, rows[i].secondary, Max(0, rows[i].frontier)))
  }

  lemma KeptIsGroup(t: Table, budget: nat, index: seq<seq<int>>, key: Key, o: nat) returns (i: nat)
    requires Shaped(t) && budget >= 1 && |t.residual| == SplitCount(budget) && ValidIndex(index)
    requires Listed(t, Fronts(index, key, budget), Visited(t, budget, key, SplitCount(budget)))
    requires o in Kept(t, Fronts(index, key, budget), Visited(t, budget, key, SplitCount(budget)))
    requires o < SplitCount(budget) == |Fronts(index, key, budget)| && Fronts(index, key, budget)[o] >= 0
    ensures i < |GroupsOfKey(t, budget, index, key)|
    ensures GroupsOfKey(t, budget, index, key)[i] == GroupOf(t, Fronts(index, key, budget), o)
  {
    hide Kept, Visited, Fronts, SplitCount, KeyRows;
    KeyRowsAre(t, budget, index, key);
    var kept := Kept(t, Fronts(index, key, budget), Visited(t, budget, key, SplitCount(budget)));
    i :| i < |kept| && kept[i] == o;
  }

  /** The exhaustive winner among a key's kept groups scores at least as much as every option of every split of the
      budget. */
  lemma WinnerOfKeptIsBest(x: Work, t: Table, budget: nat, k: SplitColors, index: seq<seq<int>>, key: Key, w: Winner, p: nat,
                           surface: nat, a: Alloc)
    requires SplitsOf(x.song, t, budget, k) && ValidIndex(index) && CutsSafely(t, budget, key)
    requires GroupsReady(x, GroupsOfKey(t, budget, index, key)) && IsExhaustiveWinner(x, GroupsOfKey(t, budget, index, key), w)
    requires p < SplitCount(budget) == |t.residual| == |Fronts(index, key, budget)|
    requires 0 <= Fronts(index, key, budget)[p] < |x.song.pool.offsets|
    requires GroupReady(x, GroupOf(t, Fronts(index, key, budget), p)) && SurfaceOption(x, GroupOf(t, Fronts(index, key, budget), p), surface, a)
    ensures SurfaceOptionScore(x, GroupOf(t, Fronts(index, key, budget), p), surface, a) <= w.score
  {
    hide ValidSong, InSpace, OptionScore, ValidLoadout, SplitCount, Fronts, Kept, Visited, GroupsOfKey, CutsSafely, IsComboTable;
    TableShape(t, budget, k);
    var front, gs := Fronts(index, key, budget), GroupsOfKey(t, budget, index, key);
    PoolRows(x, GroupOf(t, front, p));
    var row := x.song.pool.offsets[front[p]] + surface;
    var o := KeptMatches(x.song, x.loadout, t, budget, k, index, key, p, row, a);
    var i := KeptIsGroup(t, budget, index, key, o);
    assert IsOption(x, gs, i, surface, a);
    assert Loses(x, gs, w, i, surface, a);
  }
}
