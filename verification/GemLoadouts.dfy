/** A batch of loadouts through the gem search (gear_optimizer/solver/gem_search.py, _score_loadouts): the frontiers'
    bound shapes, the tables shared by loadouts with equal PP, CM and FM, and each loadout's winner. */
module GemLoadouts {
  import opened Arithmetic
  import opened Scoring
  import opened GemBounds
  import opened GemProblem
  import opened GemTables
  import opened GemAdmissible
  import opened GemWinner

  const ZERO_SHAPE := Shape(0.0, 0.0, 0.0, 0.0)

  // ---- Frontier shapes.

  /** What a song's shapes share: A + E and F + G. */
  function BodyShapeTotal(s: Song): real { s.bodyTotal as real + (s.headLen * (s.headLen + 1) / 2) as real * 0.01 }

  function HeadShapeTotal(s: Song): real { s.headLen as real - (s.headLen * (s.headLen + 1) / 2) as real * 0.01 }

  lemma ShapeTotals(s: Song, row: nat)
    requires ValidSong(s) && row < |s.pool.counts|
    ensures var q := RowShape(s, row);
            q.a + q.e == BodyShapeTotal(s) && q.f + q.g == HeadShapeTotal(s) && NonNegative(q)
  {
    var h := s.pool.headCounts[s.pool.patternIds[row]];
    RowShapeNonNegative(s, row);
    CountHeadTotals(PatternSurface(s.pool.patternWords[s.pool.patternIds[row]]), s.headLen);
    assert h.sigmaNormal + h.sigmaFever == s.headLen * (s.headLen + 1) / 2;
  }

  ghost predicate Shapes(s: Song, shapes: array<Shape>, done: array<bool>)
    requires ValidSong(s)
    reads shapes, done
  {
    && shapes.Length == |s.pool.offsets| && done.Length == |s.pool.offsets|
    && forall f :: 0 <= f < |s.pool.offsets| ==>
         if done[f] then BoundsFrontier(s, f, shapes[f]) else shapes[f] == ZERO_SHAPE
  }

  method FrontierShapes(s: Song, groups: seq<Group>, shapes: array<Shape>, done: array<bool>)
    requires ValidSong(s) && Shapes(s, shapes, done)
    requires forall i :: 0 <= i < |groups| ==> groups[i].frontier < |s.pool.offsets|
    modifies shapes, done
    ensures Shapes(s, shapes, done)
    ensures forall i :: 0 <= i < |groups| ==> BoundsFrontier(s, groups[i].frontier, shapes[groups[i].frontier])
  {
    hide BoundsFrontier;
    for i := 0 to |groups|
      invariant Shapes(s, shapes, done)
      invariant forall k :: 0 <= k < i ==> done[groups[k].frontier]
    {
      var f := groups[i].frontier;
      if !done[f] {
        var shape := FrontierShape(s, f, shapes[f]);
        done[f] := true;
        shapes[f] := shape;
      }
    }
  }

  /** The most A and F of a frontier's surfaces, with the song's totals. */
  method FrontierShape(s: Song, f: nat, zero: Shape) returns (most: Shape)
    requires ValidSong(s) && f < |s.pool.offsets| && zero == ZERO_SHAPE
    ensures BoundsFrontier(s, f, most)
  {
    hide RowShape, ValidSong, BodyShapeTotal, HeadShapeTotal;
    FrontierRows(s, f);
    most := zero;
    var first, last := s.pool.offsets[f], s.pool.offsets[f] + s.pool.lengths[f];
    for row := first to last
      invariant 0.0 <= most.a && 0.0 <= most.f && (row == first ==> most == zero)
      invariant forall r :: first <= r < row ==> RowShape(s, r).a <= most.a && RowShape(s, r).f <= most.f
      invariant row > first ==> most.e == BodyShapeTotal(s) && most.g == HeadShapeTotal(s)
      invariant row > first ==> most.a <= BodyShapeTotal(s) && most.f <= HeadShapeTotal(s)
    {
      var shape := RowShape(s, row);
      ShapeTotals(s, row);
      most := Shape(MaxReal(most.a, shape.a), shape.a + shape.e, MaxReal(most.f, shape.f), shape.f + shape.g);
    }
    most := most.(e := most.e - most.a, g := most.g - most.f);
    forall r: nat | first <= r < last ensures BoundsShape(most, RowShape(s, r)) {
      ShapeTotals(s, r);
    }
  }

  lemma FrontierRows(s: Song, f: nat)
    requires ValidSong(s) && f < |s.pool.offsets|
    ensures f < |s.pool.lengths| && s.pool.lengths[f] > 0 && s.pool.offsets[f] + s.pool.lengths[f] <= |s.pool.counts|
  {
  }

  // ---- A stat line's tables.

  method PrefixMaxima(w: Weights, curve: seq<real>) returns (r: seq<real>)
    requires |curve| > 0
    ensures |r| == |curve| && forall k :: 0 <= k < |r| ==> r[k] == PrefixMax(w, curve, k)
  {
    r := [PpPart(w, curve, 0)];
    for k := 1 to |curve|
      invariant |r| == k && forall i :: 0 <= i < k ==> r[i] == PrefixMax(w, curve, i)
    {
      r := r + [MaxReal(r[k - 1], PpPart(w, curve, k))];
    }
  }

  predicate SameLine(l: Loadout, m: Loadout) { l.pp == m.pp && l.cm == m.cm && l.fm == m.fm }

  function Colors(l: Loadout): nat { 2 * l.primary + l.secondary }

  /** The deltas between which a stat line's chords hold, for the colors from `low` to `high`. */
  function DeltaLow(low: nat, prefixMax: seq<real>): real
    requires |prefixMax| > 0
  {
    low as real + prefixMax[0]
  }

  function DeltaHigh(high: nat, mostGain: nat, budgetGain: nat, prefixMax: seq<real>): real
    requires |prefixMax| > 0
  {
    (high + mostGain + budgetGain) as real + prefixMax[|prefixMax| - 1] + 1.0
  }

  ghost predicate InDeltas(l: Loadout, lo: real, hi: real, mostGain: nat, w: Weights, prefixMax: seq<real>)
    requires |prefixMax| > 0
  {
    lo <= DeltaLow(Colors(l), prefixMax) && DeltaHigh(Colors(l), mostGain, GEM_BUDGET * w.element, prefixMax) <= hi
  }

  /** The range over the loadouts from c on with c's stat line, and where that run ends. */
  method StatLineDeltas(loadouts: seq<Loadout>, c: nat, mostGain: nat, w: Weights, prefixMax: seq<real>)
    returns (lo: real, hi: real, ghost end: nat)
    requires c < |loadouts| && |prefixMax| > 0
    ensures c < end <= |loadouts| && (end < |loadouts| ==> !SameLine(loadouts[end], loadouts[c]))
    ensures forall i :: c <= i < end ==>
              SameLine(loadouts[i], loadouts[c]) && InDeltas(loadouts[i], lo, hi, mostGain, w, prefixMax)
    ensures prefixMax[0] <= prefixMax[|prefixMax| - 1] ==> lo < hi
  {
    var lowest: nat, highest: nat := Colors(loadouts[c]), Colors(loadouts[c]);
    var last := c + 1;
    while last < |loadouts| && SameLine(loadouts[last], loadouts[c])
      invariant c < last <= |loadouts|
      invariant lowest <= highest
      invariant forall i :: c <= i < last ==> SameLine(loadouts[i], loadouts[c]) && lowest <= Colors(loadouts[i]) <= highest
    {
      lowest, highest := Min(lowest, Colors(loadouts[last])), Max(highest, Colors(loadouts[last]));
      last := last + 1;
    }
    end := last;
    lo, hi := DeltaLow(lowest, prefixMax), DeltaHigh(highest, mostGain, GEM_BUDGET * w.element, prefixMax);
  }

  lemma DeltasOf(x: Work, g: Group, lo: real, hi: real, mostGain: nat)
    requires GroupReady(x, g) && 2 * g.primaryGain + g.secondaryGain <= mostGain
    requires InDeltas(x.loadout, lo, hi, mostGain, x.w, x.prefixMax)
    ensures DeltasIn(x, g, lo, hi)
  {
    hide ValidSong, PrefixMax;
    assert g.residual * x.w.element <= GEM_BUDGET * x.w.element;
    assert g.residual * x.w.element >= 0;
    forall left: nat ensures lo <= Delta(x, g) + BestPp(x, left) <= hi {
      var k := Min(|x.prefixMax| - 1, left);
      PrefixMaxCovers(x.w, x.c.pp, 0, k);
      PrefixMaxCovers(x.w, x.c.pp, k, |x.c.pp| - 1);
    }
  }

  // ---- The batch.

  /** The groups of each key, and the batch's loadouts, as the search takes them. */
  ghost predicate BatchReady(s: Song, loadouts: seq<Loadout>, keyStarts: seq<nat>, groups: seq<Group>, mostGain: nat) {
    && ValidSong(s)
    && (forall i :: 0 <= i < |groups| ==> ValidGroup(s, groups[i]) && 2 * groups[i].primaryGain + groups[i].secondaryGain <= mostGain)
    && (forall k: nat :: k < |keyStarts| - 1 ==> HasGroups(keyStarts, groups, k))
    && (forall c :: 0 <= c < |loadouts| ==> ValidLoadout(s, loadouts[c]) && loadouts[c].key < |keyStarts| - 1)
  }

  predicate HasGroups(keyStarts: seq<nat>, groups: seq<Group>, key: nat) {
    key < |keyStarts| - 1 && keyStarts[key] < keyStarts[key + 1] <= |groups|
  }

  function GroupsOf(l: Loadout, keyStarts: seq<nat>, groups: seq<Group>): seq<Group>
    requires HasGroups(keyStarts, groups, l.key)
  {
    groups[keyStarts[l.key]..keyStarts[l.key + 1]]
  }

  ghost function WorkOf(s: Song, l: Loadout): Work
    requires ValidSong(s)
  {
    var w, c := WeightsOf(s.flags), CurvesOf(s, l);
    Work(s, l, w, c, seq(|c.pp|, k requires 0 <= k < |c.pp| => PrefixMax(w, c.pp, k)))
  }

  /** The batch's answer for one loadout: its exhaustive winner when that reaches the floor, else a row below it. */
  ghost predicate Answers(x: Work, gs: seq<Group>, floor: int, w: Winner)
    requires GroupsReady(x, gs)
  {
    (w.score >= floor ==> IsExhaustiveWinner(x, gs, w)) && (w.score < floor ==> AllBelow(x, gs, floor))
  }

  /** What the batch promises of a loadout's row: its exhaustive winner when that reaches the floor, else a row below
      the floor. */
  ghost predicate Answered(s: Song, l: Loadout, keyStarts: seq<nat>, groups: seq<Group>, floor: int, w: Winner)
    requires ValidSong(s) && HasGroups(keyStarts, groups, l.key)
  {
    var x, gs := WorkOf(s, l), GroupsOf(l, keyStarts, groups);
    GroupsReady(x, gs) && Answers(x, gs, floor, w)
  }

  method ScoreLoadouts(s: Song, loadouts: seq<Loadout>, floors: seq<int>, keyStarts: seq<nat>, groups: seq<Group>,
                       shapes: array<Shape>, mostGain: nat) returns (rows: seq<Winner>)
    requires BatchReady(s, loadouts, keyStarts, groups, mostGain) && |floors| == |loadouts|
    requires shapes.Length == |s.pool.offsets|
    requires forall i :: 0 <= i < |groups| ==> BoundsFrontier(s, groups[i].frontier, shapes[groups[i].frontier])
    ensures |rows| == |loadouts|
    ensures forall c :: 0 <= c < |loadouts| ==> Answered(s, loadouts[c], keyStarts, groups, floors[c], rows[c])
  {
    hide BoundsFrontier, ValidSong, Answered, WeightsOf, InDeltas, ValidLoadout, LineReady;
    rows := [];
    var tables := new BoundTables();
    var w := WeightsOf(s.flags);
    var curves, prefixMax, lo, hi := GemCurves([], [], []), [], 0.0, 0.0;
    ghost var end: nat := 0;
    for c := 0 to |loadouts|
      invariant |rows| == c && tables.Allocated() && fresh(tables.termMax) && fresh(tables.columnCombo) && fresh(tables.columnFirst)
      invariant fresh(tables.columnTerms) && fresh(tables.blocks) && fresh(tables.corners)
      invariant c > 0 ==> lo < hi && LineReady(s, loadouts[c - 1], w, curves, prefixMax) && tables.Filled(curves, w, prefixMax, lo, hi)
      invariant c > 0 ==> RunOf(loadouts, c - 1, end, lo, hi, mostGain, w, prefixMax)
      invariant forall i :: 0 <= i < |groups| ==> BoundsFrontier(s, groups[i].frontier, shapes[groups[i].frontier])
      invariant forall i :: 0 <= i < c ==> Answered(s, loadouts[i], keyStarts, groups, floors[i], rows[i])
    {
      var l := loadouts[c];
      if c == 0 || !SameLine(l, loadouts[c - 1]) {
        curves, prefixMax := LineCurves(s, l, w);
        lo, hi, end := StatLineDeltas(loadouts, c, mostGain, w, prefixMax);
        tables.FillBlockBounds(curves, w, prefixMax, lo, hi);
      } else {
        SameLineCurves(s, loadouts[c - 1], l, w, curves, prefixMax);
      }
      assert RunOf(loadouts, c, end, lo, hi, mostGain, w, prefixMax);
      var row := ScoreOne(s, l, floors[c], keyStarts, groups, shapes, mostGain, w, curves, prefixMax, tables, lo, hi);
      rows := rows + [row];
    }
  }

  method ScoreOne(s: Song, l: Loadout, floor: int, keyStarts: seq<nat>, groups: seq<Group>, shapes: array<Shape>, mostGain: nat,
                  w: Weights, curves: GemCurves, prefixMax: seq<real>, tables: BoundTables, lo: real, hi: real)
    returns (row: Winner)
    requires ValidSong(s) && ValidLoadout(s, l) && HasGroups(keyStarts, groups, l.key) && shapes.Length == |s.pool.offsets|
    requires forall i :: 0 <= i < |groups| ==> 2 * groups[i].primaryGain + groups[i].secondaryGain <= mostGain
    requires forall i :: 0 <= i < |groups| ==> ValidGroup(s, groups[i]) && BoundsFrontier(s, groups[i].frontier, shapes[groups[i].frontier])
    requires LineReady(s, l, w, curves, prefixMax) && tables.Filled(curves, w, prefixMax, lo, hi) && lo < hi
    requires |prefixMax| > 0 && InDeltas(l, lo, hi, mostGain, w, prefixMax)
    ensures Answered(s, l, keyStarts, groups, floor, row)
  {
    hide BoundsFrontier, ValidSong, InDeltas, ValidLoadout, DeltasIn, IsExhaustiveWinner, AllBelow;
    var x, gs := Work(s, l, w, curves, prefixMax), GroupsOf(l, keyStarts, groups);
    WorkIs(s, l, w, curves, prefixMax);
    assert forall i :: 0 <= i < |gs| ==> gs[i] == groups[keyStarts[l.key] + i];
    GroupDeltas(x, gs, lo, hi, mostGain);
    row := ScoreLoadout(x, gs, shapes, tables, floor, lo, hi);
  }

  ghost predicate RunOf(loadouts: seq<Loadout>, c: nat, end: nat, lo: real, hi: real, mostGain: nat, w: Weights, prefixMax: seq<real>) {
    && c < end <= |loadouts| && |prefixMax| > 0
    && (end < |loadouts| ==> !SameLine(loadouts[end], loadouts[c]))
    && forall i :: c <= i < end ==> SameLine(loadouts[i], loadouts[c]) && InDeltas(loadouts[i], lo, hi, mostGain, w, prefixMax)
  }

  ghost predicate LineReady(s: Song, l: Loadout, w: Weights, c: GemCurves, prefixMax: seq<real>) {
    && ValidSong(s) && w == WeightsOf(s.flags) && c == CurvesOf(s, l) && |prefixMax| == |c.pp|
    && forall k :: 0 <= k < |c.pp| ==> prefixMax[k] == PrefixMax(w, c.pp, k)
  }

  method LineCurves(s: Song, l: Loadout, w: Weights) returns (c: GemCurves, prefixMax: seq<real>)
    requires ValidSong(s) && w == WeightsOf(s.flags)
    ensures LineReady(s, l, w, c, prefixMax) && |prefixMax| > 0 && prefixMax[0] <= prefixMax[|prefixMax| - 1]
    ensures 0 < |c.fm| <= GEM_BUDGET + 1 && 0 < |c.cm| <= GEM_BUDGET + 1
  {
    hide PrefixMax;
    c := CurvesOf(s, l);
    prefixMax := PrefixMaxima(w, c.pp);
    PrefixMaxCovers(w, c.pp, 0, |c.pp| - 1);
  }

  lemma SameLineCurves(s: Song, l: Loadout, m: Loadout, w: Weights, c: GemCurves, prefixMax: seq<real>)
    requires SameLine(m, l) && LineReady(s, l, w, c, prefixMax)
    ensures LineReady(s, m, w, c, prefixMax)
  {
  }

  lemma WorkIs(s: Song, l: Loadout, w: Weights, c: GemCurves, prefixMax: seq<real>)
    requires LineReady(s, l, w, c, prefixMax)
    ensures Work(s, l, w, c, prefixMax) == WorkOf(s, l)
  {
    assert prefixMax == WorkOf(s, l).prefixMax;
  }

  lemma GroupDeltas(x: Work, gs: seq<Group>, lo: real, hi: real, mostGain: nat)
    requires GroupsReady(x, gs) && |x.prefixMax| > 0 && InDeltas(x.loadout, lo, hi, mostGain, x.w, x.prefixMax)
    requires forall i :: 0 <= i < |gs| ==> 2 * gs[i].primaryGain + gs[i].secondaryGain <= mostGain
    ensures forall i :: 0 <= i < |gs| ==> DeltasIn(x, gs[i], lo, hi)
  {
    hide DeltasIn, InDeltas, ValidSong;
    forall i | 0 <= i < |gs| ensures DeltasIn(x, gs[i], lo, hi) { DeltasOf(x, gs[i], lo, hi, mostGain); }
  }
}
