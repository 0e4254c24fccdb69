/** The inclusive runs of an action table's fill offsets, and the bound on early-Great extensions
    (gear_optimizer/frontier/producer_reducer.py). */
module FillRuns {
  import opened Arithmetic
  import opened Reachability

  datatype Outcome = Invalid | Found(runs: Runs)

  ghost predicate Ascending(v: seq<int>) { forall i, j :: 0 <= i < j < |v| ==> v[i] < v[j] }

  function Insert(v: seq<int>, x: int): (r: seq<int>)
    requires Ascending(v)
    ensures Ascending(r) && forall y :: y in r <==> y in v || y == x
  {
    if v == [] || x < v[0] then [x] + v
    else if x == v[0] then v
    else
      var rest := Insert(v[1..], x);
      assert forall j :: 0 <= j < |rest| ==> rest[j] in rest && v[0] < rest[j];
      [v[0]] + rest
  }

  /** The distinct values in ascending order. */
  function Unique(s: seq<int>): (r: seq<int>)
    ensures Ascending(r) && forall y :: y in r <==> y in s
  {
    if s == [] then [] else Insert(Unique(s[1..]), s[0])
  }

  /** The positions before a gap. */
  function Breaks(v: seq<int>): seq<int> {
    var last := |v| - 1;
    if last < 1 then [] else Breaks(v[..last]) + (if v[last] - v[last - 1] > 1 then [last - 1] else [])
  }

  lemma {:induction false} BreaksInRange(v: seq<int>)
    ensures forall r :: 0 <= r < |Breaks(v)| ==> 0 <= Breaks(v)[r] < |v| - 1
  {
    if |v| > 1 { BreaksInRange(v[..|v| - 1]); }
  }

  function RunsOfValues(v: seq<int>): (runs: Runs)
    requires v != []
    ensures |runs.firsts| == |runs.lasts| == |Breaks(v)| + 1
  {
    BreaksInRange(v);
    var b := Breaks(v);
    Runs([v[0]] + seq(|b|, r requires 0 <= r < |b| => v[b[r] + 1]), seq(|b|, r requires 0 <= r < |b| => v[b[r]]) + [v[|v| - 1]])
  }

  function Selected(fills: seq<int>, forced: seq<int>): seq<int>
    requires |fills| == |forced|
  {
    if fills == [] then [] else (if forced[0] >= 0 then [fills[0]] else []) + Selected(fills[1..], forced[1..])
  }

  /** With `eligible`, only the fills whose forced row is not negative. */
  function ExactFillRuns(fills: seq<int>, eligible: bool, forced: seq<int>): Outcome {
    if exists i :: 0 <= i < |fills| && fills[i] < 0 then Invalid
    else if eligible && |forced| != |fills| then Invalid
    else
      var selected := if eligible then Selected(fills, forced) else fills;
      if selected == [] then Found(Runs([], []))
      else
        assert selected[0] in Unique(selected);
        Found(RunsOfValues(Unique(selected)))
  }

  /** One more value extends the last run or starts one. */
  lemma AppendValue(v: seq<int>)
    requires |v| > 1
    ensures var last := |v| - 1; var p, r := RunsOfValues(v[..last]), RunsOfValues(v);
            if v[last] - v[last - 1] > 1
            then r.firsts == p.firsts + [v[last]] && r.lasts == p.lasts + [v[last]]
            else r.firsts == p.firsts && r.lasts == p.lasts[|p.lasts| - 1 := v[last]]
  {
    BreaksInRange(v);
    BreaksInRange(v[..|v| - 1]);
  }

  lemma {:induction false} RunsAreOrdered(v: seq<int>)
    requires v != [] && Ascending(v) && v[0] >= 0
    ensures OrderedRuns(RunsOfValues(v)) && RunsOfValues(v).lasts[|Breaks(v)|] == v[|v| - 1]
  {
    hide RunsOfValues;
    if |v| > 1 {
      RunsAreOrdered(v[..|v| - 1]);
      AppendValue(v);
      AppendedOrdered(RunsOfValues(v[..|v| - 1]), RunsOfValues(v), v[|v| - 2], v[|v| - 1]);
    } else {
      SingleRun(v);
    }
  }

  lemma SingleRun(v: seq<int>)
    requires |v| == 1
    ensures RunsOfValues(v) == Runs([v[0]], [v[0]])
  {
  }

  lemma AppendedOrdered(p: Runs, r: Runs, before: int, x: int)
    requires OrderedRuns(p) && |p.lasts| > 0 && p.lasts[|p.lasts| - 1] == before < x
    requires if x - before > 1 then r == Runs(p.firsts + [x], p.lasts + [x]) else r == Runs(p.firsts, p.lasts[|p.lasts| - 1 := x])
    ensures OrderedRuns(r) && r.lasts[|r.lasts| - 1] == x
  {
  }

  lemma {:induction false} RunsAreValues(v: seq<int>, x: int)
    requires v != [] && Ascending(v) && v[0] >= 0
    ensures InRuns(RunsOfValues(v), x) <==> x in v
    ensures RunsOfValues(v).lasts[|Breaks(v)|] == v[|v| - 1]
  {
    hide RunsOfValues, Breaks;
    var last := |v| - 1;
    if |v| > 1 {
      RunsAreValues(v[..last], x);
      RunsAreOrdered(v[..last]);
      AppendValue(v);
      AppendedMembers(RunsOfValues(v[..last]), RunsOfValues(v), v[last - 1], v[last], x);
      assert v == v[..last] + [v[last]];
    } else {
      SingleRun(v);
      assert InRuns(Runs([v[0]], [v[0]]), x) <==> x == v[0] by { if x == v[0] { assert Runs([v[0]], [v[0]]).firsts[0] <= x; } }
    }
  }

  lemma AppendedMembers(p: Runs, r: Runs, before: int, y: int, x: int)
    requires |p.firsts| == |p.lasts| > 0 && p.lasts[|p.lasts| - 1] == before < y
    requires p.firsts[|p.firsts| - 1] <= before
    requires if y - before > 1 then r == Runs(p.firsts + [y], p.lasts + [y]) else r == Runs(p.firsts, p.lasts[|p.lasts| - 1 := y])
    ensures InRuns(r, x) <==> InRuns(p, x) || x == y
  {
    var end := |p.firsts| - 1;
    if InRuns(r, x) && x != y {
      var q :| 0 <= q < |r.firsts| && r.firsts[q] <= x <= r.lasts[q];
      assert q <= end && p.firsts[q] <= x <= p.lasts[q];
    }
    if InRuns(p, x) {
      var q :| 0 <= q < |p.firsts| && p.firsts[q] <= x <= p.lasts[q];
      assert r.firsts[q] <= x <= r.lasts[q];
    }
    if x == y {
      var q := |r.firsts| - 1;
      assert r.firsts[q] <= x <= r.lasts[q];
    }
  }

  /** The runs of valid fills pass the prepass's check, and hold exactly the (eligible) fills. */
  lemma ExactRuns(fills: seq<int>, eligible: bool, forced: seq<int>)
    ensures ExactFillRuns(fills, eligible, forced) == Invalid <==>
              (exists i :: 0 <= i < |fills| && fills[i] < 0) || (eligible && |forced| != |fills|)
    ensures ExactFillRuns(fills, eligible, forced).Found? ==>
              OrderedRuns(ExactFillRuns(fills, eligible, forced).runs)
              && forall x :: InRuns(ExactFillRuns(fills, eligible, forced).runs, x)
                             <==> exists i :: 0 <= i < |fills| && fills[i] == x && (eligible ==> forced[i] >= 0)
  {
    hide RunsOfValues, InRuns, OrderedRuns;
    if (forall i :: 0 <= i < |fills| ==> fills[i] >= 0) && (eligible ==> |forced| == |fills|) {
      var selected := if eligible then Selected(fills, forced) else fills;
      forall x ensures x in selected <==> exists i :: 0 <= i < |fills| && fills[i] == x && (eligible ==> forced[i] >= 0) {
        if eligible { SelectedIs(fills, forced, x); }
      }
      if selected == [] {
        EmptyRuns();
        assert forall x :: InRuns(Runs([], []), x) <==> x in selected;
      } else {
        assert selected[0] in Unique(selected);
        assert Unique(selected)[0] in selected;
        RunsAreOrdered(Unique(selected));
        forall x { RunsAreValues(Unique(selected), x); }
      }
    }
  }

  lemma EmptyRuns()
    ensures OrderedRuns(Runs([], [])) && forall x :: !InRuns(Runs([], []), x)
  {
  }

  lemma {:induction false} SelectedIs(fills: seq<int>, forced: seq<int>, x: int)
    requires |fills| == |forced|
    ensures x in Selected(fills, forced) <==> exists i :: 0 <= i < |fills| && fills[i] == x && forced[i] >= 0
  {
    if fills != [] {
      SelectedIs(fills[1..], forced[1..], x);
      if i :| 0 <= i < |fills| && fills[i] == x && forced[i] >= 0 {
        if i > 0 { assert fills[1..][i - 1] == x && forced[1..][i - 1] >= 0; }
      }
      if x in Selected(fills[1..], forced[1..]) {
        var i :| 0 <= i < |fills| - 1 && fills[1..][i] == x && forced[1..][i] >= 0;
        assert fills[i + 1] == x && forced[i + 1] >= 0;
      }
    }
  }

  /** The late runs lie within the Perfect ones: a late-Great activation is possible only where the Perfect one is. */
  lemma LateWithinPerfect(fills: seq<int>, forced: seq<int>, offset: int)
    requires ExactFillRuns(fills, true, forced).Found?
    ensures ExactFillRuns(fills, false, []).Found?
    ensures InRuns(ExactFillRuns(fills, true, forced).runs, offset) ==> InRuns(ExactFillRuns(fills, false, []).runs, offset)
  {
    hide InRuns, OrderedRuns;
    ExactRuns(fills, true, forced);
    ExactRuns(fills, false, []);
  }

  // ---- The bound on early-Great extensions.

  function FirstAbove(floors: seq<real>, value: real): (k: nat)
    ensures k <= |floors| && (forall i :: 0 <= i < k ==> floors[i] <= value) && (k < |floors| ==> floors[k] > value)
  {
    if floors == [] || floors[0] > value then 0 else 1 + FirstAbove(floors[1..], value)
  }

  function GapAt(perfect: seq<real>, great: seq<real>, cutoff: real): int {
    FirstAbove(great, cutoff) - FirstAbove(perfect, cutoff)
  }

  function LargestGap(perfect: seq<real>, great: seq<real>, cutoffs: seq<real>): nat {
    if cutoffs == [] then 0 else Max(GapAt(perfect, great, cutoffs[0]), LargestGap(perfect, great, cutoffs[1..]))
  }

  function GapBound(perfect: seq<real>, great: seq<real>): nat {
    if perfect == [] then 0 else LargestGap(perfect, great, perfect + great)
  }

  lemma {:induction false} GapWithinLargest(perfect: seq<real>, great: seq<real>, cutoffs: seq<real>, i: nat)
    requires i < |cutoffs|
    ensures GapAt(perfect, great, cutoffs[i]) <= LargestGap(perfect, great, cutoffs)
  {
    hide GapAt;
    if i > 0 { GapWithinLargest(perfect, great, cutoffs[1..], i - 1); }
  }

  ghost predicate Sorted(floors: seq<real>) { forall i, j :: 0 <= i < j < |floors| ==> floors[i] <= floors[j] }

  /** The largest Great floor before a hit's fever end shows the whole gap. */
  lemma ExtensionWithinBound(n: int, activation: int, perfect: seq<real>, great: seq<real>, cutoff: real)
    requires Sorted(perfect) && Sorted(great) && |perfect| == |great|
    ensures Max(0, ClampedEnd(n, activation, FirstAtLeast(great, cutoff)) - ClampedEnd(n, activation, FirstAtLeast(perfect, cutoff)))
            <= GapBound(perfect, great)
  {
    hide FirstAtLeast, FirstAbove, LargestGap, ClampedEnd;
    var g, p := FirstAtLeast(great, cutoff), FirstAtLeast(perfect, cutoff);
    ClampShrinks(n, activation, g, p);
    if g > 0 {
      var v := great[g - 1];
      AtMostIsBelow(perfect, v, cutoff);
      AtMostHolds(great, v, g - 1);
      assert v == (perfect + great)[|perfect| + g - 1];
      GapWithinLargest(perfect, great, perfect + great, |perfect| + g - 1);
    }
  }

  lemma ClampShrinks(n: int, activation: int, x: int, y: int)
    ensures Max(0, ClampedEnd(n, activation, x) - ClampedEnd(n, activation, y)) <= Max(0, x - y)
  {
  }

  lemma {:induction false} AtMostIsBelow(floors: seq<real>, v: real, cutoff: real)
    requires v < cutoff
    ensures FirstAbove(floors, v) <= FirstAtLeast(floors, cutoff)
  {
    if floors != [] && floors[0] <= v { AtMostIsBelow(floors[1..], v, cutoff); }
  }

  lemma AtMostHolds(floors: seq<real>, v: real, i: nat)
    requires Sorted(floors) && i < |floors| && floors[i] == v
    ensures FirstAbove(floors, v) > i
  {
  }
}