/** The region-core table of one fill (gear_optimizer/frontier/producer_kernels.py): its closed-form capacity is the number of
    candidates the build visits, so the build never overruns it. */
module RegionTable {
  import opened Arithmetic
  import opened Wrappers
  import opened ActivationTest
  import opened FillCrossing
  import opened RegionCores

  const SHIFTED_SECTIONS := 99

  /** How many of the actions can have a run whose last Great activates. */
  function ScanStop(count: nat, denom: real): nat {
    if count == 0 then 0
    else if denom >= 0.5 * (count - 1) as real then count
    else Min(Max(Ceil(2.0 * denom) + 1, 1), count)
  }

  predicate HasShiftedHead(section: nat, denom: real) { section < SHIFTED_SECTIONS && Ceil(denom) > 1 }

  function ActionOffset(section: nat, actionK: seq<int>, action: nat, denom: real, n: nat): int
    requires action < |actionK| && denom > 0.0
  {
    if action < ScanStop(|actionK|, denom) then Region2Offset(section, actionK[action], denom, n) else -1
  }

  /** The offsets visited for one action of one section: the run's, then the shifted head's unless it is the same. */
  function Visits(section: nat, actionK: seq<int>, action: nat, denom: real, n: nat): (v: seq<int>)
    requires action < |actionK| && denom > 0.0
    ensures |v| <= 2 && forall i :: 0 <= i < |v| ==> v[i] >= 1
  {
    var offset := ActionOffset(section, actionK, action, denom, n);
    (if offset >= 1 then [offset] else []) + (if HasShiftedHead(section, denom) && offset != 1 then [1] else [])
  }

  /** Candidates of the first actions of one section. */
  function SectionVisits(section: nat, actionK: seq<int>, actions: nat, denom: real, n: nat): nat
    requires actions <= |actionK| && denom > 0.0
  {
    if actions == 0 then 0 else SectionVisits(section, actionK, actions - 1, denom, n) + |Visits(section, actionK, actions - 1, denom, n)|
  }

  /** Candidates of the first sections. */
  function TotalVisits(sections: nat, actionK: seq<int>, actions: nat, denom: real, n: nat): nat
    requires actions <= |actionK| && denom > 0.0
  {
    if sections == 0 then 0
    else TotalVisits(sections - 1, actionK, actions, denom, n) + SectionVisits(sections - 1, actionK, actions, denom, n)
  }

  // ---- Stopping the scan loses no candidate.

  /** Counts of forced Greats, ascending. */
  ghost predicate AscendingCounts(actionK: seq<int>) {
    && (forall i :: 0 <= i < |actionK| ==> actionK[i] >= 0)
    && forall i, j :: 0 <= i < j < |actionK| ==> actionK[i] < actionK[j]
  }

  lemma {:induction false} CountAtLeast(actionK: seq<int>, i: nat)
    requires AscendingCounts(actionK) && i < |actionK|
    ensures actionK[i] >= i
  {
    if i > 0 { CountAtLeast(actionK, i - 1); }
  }

  /** From the stop on a run's Greats alone, without the last, fill the bar: no such run's last Great can. */
  lemma NoRunPastStop(section: nat, actionK: seq<int>, action: nat, denom: real, n: nat, x: int)
    requires denom > 0.0 && AscendingCounts(actionK) && ScanStop(|actionK|, denom) <= action < |actionK|
    ensures !IsRegion2(section, actionK[action], denom, n, x)
  {
    hide Ceil, Crosses;
    CountAtLeast(actionK, action);
    CeilIs(2.0 * denom);
    if IsRegion2(section, actionK[action], denom, n, x) { Region2Bar(section, actionK[action], denom, x); }
  }

  /** A run whose last Great fills the bar, or in the head's sections one that starts a note late. */
  ghost predicate IsCandidate(section: nat, k: int, denom: real, n: nat, x: int) {
    IsRegion2(section, k, denom, n, x) || (x == 1 && section < SHIFTED_SECTIONS && denom > 1.0)
  }

  /** Exactly the candidates are visited, whatever the scan's stop leaves out. */
  lemma VisitsEveryRun(section: nat, actionK: seq<int>, action: nat, denom: real, n: nat, x: int)
    requires denom > 0.0 && AscendingCounts(actionK) && action < |actionK|
    ensures x in Visits(section, actionK, action, denom, n) <==> IsCandidate(section, actionK[action], denom, n, x)
  {
    hide Ceil, IsRegion2, ScanStop, Region2Offset;
    CeilIs(denom);
    if action < ScanStop(|actionK|, denom) {
      Region2OffsetIs(section, actionK[action], denom, n, x);
    } else {
      NoRunPastStop(section, actionK, action, denom, n, x);
    }
  }

  // ---- The closed form.

  function ShiftedSections(denom: real, n: nat): nat { if Ceil(denom) > 1 then Min(SHIFTED_SECTIONS, n + 1) else 0 }

  /** The sections where an action's offset is in the chart, less those where it is the shifted head's. */
  function ActionSections(actionK: seq<int>, action: nat, denom: real, n: nat): int
    requires action < |actionK| && denom > 0.0
  {
    var k := actionK[action];
    var offset := Region2Offset(0, k, denom, n);
    if offset < 1 then 0
    else
      var sections := Max(0, n - offset - k + 1);
      if offset == 1 then sections - Min(ShiftedSections(denom, n), sections) else sections
  }

  function ScannedSections(actionK: seq<int>, stop: nat, denom: real, n: nat): int
    requires stop <= |actionK| && denom > 0.0
  {
    if stop == 0 then 0 else ScannedSections(actionK, stop - 1, denom, n) + ActionSections(actionK, stop - 1, denom, n)
  }

  datatype Capacity = OutOfBound | Capacity(count: nat)

  lemma StopInRange(count: nat, denom: real)
    ensures ScanStop(count, denom) <= count
  {
  }

  /** What the code computes, its guard included. */
  function CapacityOf(actionK: seq<int>, denom: real, n: nat): Capacity
    requires denom > 0.0
  {
    StopInRange(|actionK|, denom);
    if denom > n as real then Capacity(0)
    else
      var count := ShiftedSections(denom, n) * |actionK| + ScannedSections(actionK, ScanStop(|actionK|, denom), denom, n);
      var maximum := (n + 1) * Max(1, |actionK|) * 2;
      if count > maximum || count < 0 then OutOfBound else Capacity(count)
  }

  // ---- It counts the visits.

  /** A run's offset is the same in every section, until the chart's end cuts it off. */
  lemma OffsetOfSection(section: nat, k: int, denom: real, n: nat)
    requires denom > 0.0
    ensures var x := Region2Offset(0, k, denom, n);
            Region2Offset(section, k, denom, n) == if x >= 1 && section + x + k - 1 < n then x else -1
  {
    hide Ceil;
  }

  /** Candidates of one action over the first sections. */
  function ActionVisits(sections: nat, actionK: seq<int>, action: nat, denom: real, n: nat): nat
    requires action < |actionK| && denom > 0.0
  {
    if sections == 0 then 0 else ActionVisits(sections - 1, actionK, action, denom, n) + |Visits(sections - 1, actionK, action, denom, n)|
  }

  lemma {:induction false} CountActionVisits(sections: nat, actionK: seq<int>, action: nat, denom: real, n: nat)
    requires action < |actionK| && denom > 0.0 && sections <= n + 1
    ensures var shifted := if Ceil(denom) > 1 then Min(SHIFTED_SECTIONS, sections) else 0;
            var x := if action < ScanStop(|actionK|, denom) then Region2Offset(0, actionK[action], denom, n) else -1;
            var inside := if x >= 1 then Min(sections, Max(0, n - x - actionK[action] + 1)) else 0;
            ActionVisits(sections, actionK, action, denom, n) == shifted + inside - (if x == 1 then Min(shifted, inside) else 0)
  {
    hide Ceil, Region2Offset, ScanStop;
    if sections > 0 {
      CountActionVisits(sections - 1, actionK, action, denom, n);
      OffsetOfSection(sections - 1, actionK[action], denom, n);
      VisitCount(sections - 1, actionK, action, denom, n);
    }
  }

  lemma VisitCount(section: nat, actionK: seq<int>, action: nat, denom: real, n: nat)
    requires action < |actionK| && denom > 0.0
    ensures var offset := ActionOffset(section, actionK, action, denom, n);
            |Visits(section, actionK, action, denom, n)| == (if offset >= 1 then 1 else 0) + (if HasShiftedHead(section, denom) && offset != 1 then 1 else 0)
  {
    hide ActionOffset;
  }

  lemma CountChartVisits(actionK: seq<int>, action: nat, denom: real, n: nat)
    requires action < |actionK| && denom > 0.0
    ensures ActionVisits(n + 1, actionK, action, denom, n)
            == ShiftedSections(denom, n) + (if action < ScanStop(|actionK|, denom) then ActionSections(actionK, action, denom, n) else 0)
  {
    hide Ceil, ScanStop;
    CountActionVisits(n + 1, actionK, action, denom, n);
    RunHasGreats(actionK[action], denom, n);
  }

  lemma RunHasGreats(k: int, denom: real, n: nat)
    requires denom > 0.0
    ensures Region2Offset(0, k, denom, n) >= 1 ==> k >= 1
  {
  }

  /** Action by action or section by section, the visits are the same. */
  lemma {:induction false} VisitsByAction(sections: nat, actionK: seq<int>, actions: nat, denom: real, n: nat)
    requires 0 < actions <= |actionK| && denom > 0.0
    ensures TotalVisits(sections, actionK, actions, denom, n)
            == TotalVisits(sections, actionK, actions - 1, denom, n) + ActionVisits(sections, actionK, actions - 1, denom, n)
  {
    hide Visits;
    if sections > 0 { VisitsByAction(sections - 1, actionK, actions, denom, n); }
  }

  lemma {:induction false} NoVisits(sections: nat, actionK: seq<int>, denom: real, n: nat)
    requires denom > 0.0
    ensures TotalVisits(sections, actionK, 0, denom, n) == 0
  {
    if sections > 0 { NoVisits(sections - 1, actionK, denom, n); }
  }

  lemma {:induction false} CountVisits(actionK: seq<int>, actions: nat, denom: real, n: nat)
    requires actions <= |actionK| && denom > 0.0 && ScanStop(|actionK|, denom) <= |actionK|
    ensures TotalVisits(n + 1, actionK, actions, denom, n)
            == ShiftedSections(denom, n) * actions + ScannedSections(actionK, Min(actions, ScanStop(|actionK|, denom)), denom, n)
  {
    hide Visits, ScanStop, ActionSections, ShiftedSections, TotalVisits, ActionVisits;
    if actions == 0 {
      NoVisits(n + 1, actionK, denom, n);
    } else {
      CountVisits(actionK, actions - 1, denom, n);
      VisitsByAction(n + 1, actionK, actions, denom, n);
      CountChartVisits(actionK, actions - 1, denom, n);
      OneMore(ShiftedSections(denom, n), actions);
    }
  }

  lemma OneMore(x: int, k: int)
    ensures x * k == x * (k - 1) + x
  {
  }

  lemma {:induction false} VisitsBound(sections: nat, actionK: seq<int>, actions: nat, denom: real, n: nat)
    requires actions <= |actionK| && denom > 0.0
    ensures TotalVisits(sections, actionK, actions, denom, n) <= sections * (2 * actions)
  {
    hide Visits;
    if sections > 0 {
      VisitsBound(sections - 1, actionK, actions, denom, n);
      SectionBound(sections - 1, actionK, actions, denom, n);
      OneMore(2 * actions, sections);
    }
  }

  lemma {:induction false} SectionBound(section: nat, actionK: seq<int>, actions: nat, denom: real, n: nat)
    requires actions <= |actionK| && denom > 0.0
    ensures SectionVisits(section, actionK, actions, denom, n) <= 2 * actions
  {
    if actions > 0 { SectionBound(section, actionK, actions - 1, denom, n); }
  }

  /** The closed form is the number of candidates the build visits, and its guard never trips. */
  lemma CapacityIsVisits(actionK: seq<int>, denom: real, n: nat)
    requires 0.0 < denom <= n as real
    ensures CapacityOf(actionK, denom, n) == Capacity(TotalVisits(n + 1, actionK, |actionK|, denom, n))
    ensures TotalVisits(n + 1, actionK, |actionK|, denom, n) <= (n + 1) * Max(1, |actionK|) * 2
  {
    hide TotalVisits, ScanStop, ShiftedSections, ScannedSections;
    StopInRange(|actionK|, denom);
    CountVisits(actionK, |actionK|, denom, n);
    VisitsBound(n + 1, actionK, |actionK|, denom, n);
    DoubleBound(n + 1, |actionK|);
  }

  lemma DoubleBound(sections: nat, actions: nat)
    ensures sections * (2 * actions) <= sections * Max(1, actions) * 2
  {
  }

  // ---- The build.

  /** A candidate the build kept, with its core. */
  datatype Entry = Entry(section: nat, action: nat, offset: nat, core: Core)

  /** The candidates of one action, one section, all sections, in the build's order, that have a core. */
  ghost function ActionEntries(t: Timing, denom: real, section: nat, action: nat, k: int, visits: seq<int>): (row: seq<Entry>)
    requires Timed(t) && denom > 0.0 && forall i :: 0 <= i < |visits| ==> visits[i] >= 1
    ensures |row| <= |visits|
  {
    if visits == [] then []
    else
      var before, offset := ActionEntries(t, denom, section, action, k, visits[..|visits| - 1]), visits[|visits| - 1];
      var core := CoreAt(t, denom, section, offset, k);
      if core.Some? then before + [Entry(section, action, offset, core.value)] else before
  }

  ghost function SectionEntries(t: Timing, denom: real, section: nat, actionK: seq<int>, actions: nat): seq<Entry>
    requires Timed(t) && actions <= |actionK| && denom > 0.0
  {
    if actions == 0 then []
    else
      SectionEntries(t, denom, section, actionK, actions - 1)
      + ActionEntries(t, denom, section, actions - 1, actionK[actions - 1], Visits(section, actionK, actions - 1, denom, |t.times|))
  }

  lemma {:induction false} ActionHolds(t: Timing, denom: real, section: nat, action: nat, k: int, visits: seq<int>, e: Entry)
    requires Timed(t) && denom > 0.0 && forall i :: 0 <= i < |visits| ==> visits[i] >= 1
    ensures e in ActionEntries(t, denom, section, action, k, visits)
            <==> e.section == section && e.action == action && e.offset in visits && CoreAt(t, denom, section, e.offset, k) == Some(e.core)
  {
    hide CoreAt, Timed;
    if visits != [] {
      var front, offset := visits[..|visits| - 1], visits[|visits| - 1];
      ActionHolds(t, denom, section, action, k, front, e);
      assert e.offset in visits <==> e.offset in front || e.offset == offset;
    }
  }

  /** A section's row holds exactly the candidates, of every action, that have a core. */
  lemma {:induction false} SectionHolds(t: Timing, denom: real, section: nat, actionK: seq<int>, actions: nat, e: Entry)
    requires Timed(t) && denom > 0.0 && AscendingCounts(actionK) && actions <= |actionK|
    ensures e in SectionEntries(t, denom, section, actionK, actions)
            <==> e.section == section && e.action < actions && IsCandidate(section, actionK[e.action], denom, |t.times|, e.offset)
                 && CoreAt(t, denom, section, e.offset, actionK[e.action]) == Some(e.core)
  {
    hide CoreAt, Timed, Visits, ActionEntries, IsCandidate;
    if actions > 0 {
      var action := actions - 1;
      SectionHolds(t, denom, section, actionK, action, e);
      VisitsEveryRun(section, actionK, action, denom, |t.times|, e.offset);
      ActionHolds(t, denom, section, action, actionK[action], Visits(section, actionK, action, denom, |t.times|), e);
    }
  }

  /** The build raises where a core's exact test does. */
  datatype Build = Raised | Built(starts: seq<nat>, entries: seq<Entry>)

  /** Between a section's start and the next lie its candidates with a core. */
  ghost predicate HoldsSection(starts: seq<nat>, entries: seq<Entry>, section: nat, t: Timing, denom: real, actionK: seq<int>)
    requires Timed(t) && denom > 0.0
  {
    && section + 1 < |starts| && starts[section] <= starts[section + 1] <= |entries|
    && entries[starts[section]..starts[section + 1]] == SectionEntries(t, denom, section, actionK, |actionK|)
  }

  lemma AppendSection(starts: seq<nat>, entries: seq<Entry>, row: seq<Entry>, section: nat, t: Timing, denom: real, actionK: seq<int>)
    requires Timed(t) && denom > 0.0 && HoldsSection(starts + [|entries|], entries, section, t, denom, actionK)
    ensures HoldsSection(starts + [|entries|] + [|entries + row|], entries + row, section, t, denom, actionK)
  {
    hide SectionEntries, Timed;
    var more, before, after := entries + row, starts + [|entries|], starts + [|entries|] + [|entries + row|];
    assert after[section] == before[section] && after[section + 1] == before[section + 1];
    assert more[before[section]..before[section + 1]] == entries[before[section]..before[section + 1]];
  }

  lemma LastSection(starts: seq<nat>, entries: seq<Entry>, row: seq<Entry>, t: Timing, denom: real, actionK: seq<int>)
    requires Timed(t) && denom > 0.0 && row == SectionEntries(t, denom, |starts|, actionK, |actionK|)
    ensures HoldsSection(starts + [|entries|] + [|entries + row|], entries + row, |starts|, t, denom, actionK)
  {
    hide SectionEntries, Timed;
    assert (entries + row)[|entries|..|entries + row|] == row;
  }

  /** Row s holds exactly section s's candidates that have a core, in order; the write cursor never passes the capacity, and
      only a chart too long for the exact test's table can make the build raise. */
  method BuildTable(t: Timing, actionK: seq<int>, denom: real) returns (build: Build)
    requires Timed(t) && denom > 0.0
    ensures CapacityOf(actionK, denom, |t.times|).Capacity?
    ensures build.Raised? ==> TooMany(|t.times|)
    ensures build.Built? ==> |build.starts| == |t.times| + 2 && |build.entries| <= CapacityOf(actionK, denom, |t.times|).count
    ensures build.Built? && denom > |t.times| as real ==> build.entries == []
    ensures build.Built? && denom <= |t.times| as real ==>
              forall s :: 0 <= s <= |t.times| ==> HoldsSection(build.starts, build.entries, s, t, denom, actionK)
  {
    hide Visits, TotalVisits, CapacityOf, Region2Offset, ScanStop, SectionEntries, SectionVisits, HoldsSection, Timed, TooMany;
    var n := |t.times|;
    if denom > n as real {
      NoCapacity(actionK, denom, n);
      return Built(seq(n + 2, _ => 0), []);
    }
    CapacityIsVisits(actionK, denom, n);
    ghost var capacity := CapacityOf(actionK, denom, n).count;
    var starts: seq<nat>, entries: seq<Entry> := [], [];
    ghost var before := 0;
    NoSections(actionK, denom, n);
    for s := 0 to n + 1
      invariant |starts| == s && before == TotalVisits(s, actionK, |actionK|, denom, n) && |entries| <= before
      invariant forall r :: 0 <= r < s ==> HoldsSection(starts + [|entries|], entries, r, t, denom, actionK)
    {
      VisitsGrow(s, n + 1, actionK, denom, n);
      var raised, row := BuildSection(t, s, actionK, denom, |entries|, capacity);
      if raised { return Raised; }
      forall r | 0 <= r < s { AppendSection(starts, entries, row, r, t, denom, actionK); }
      LastSection(starts, entries, row, t, denom, actionK);
      starts := starts + [|entries|];
      entries := entries + row;
      before := TotalVisits(s + 1, actionK, |actionK|, denom, n);
    }
    build := Built(starts + [|entries|], entries);
  }

  lemma NoCapacity(actionK: seq<int>, denom: real, n: nat)
    requires denom > n as real && denom > 0.0
    ensures CapacityOf(actionK, denom, n) == Capacity(0)
  {
  }

  lemma NoSections(actionK: seq<int>, denom: real, n: nat)
    requires denom > 0.0
    ensures TotalVisits(0, actionK, |actionK|, denom, n) == 0
  {
  }

  lemma {:induction false} VisitsGrow(s: nat, end: nat, actionK: seq<int>, denom: real, n: nat)
    requires s < end && denom > 0.0
    ensures TotalVisits(s + 1, actionK, |actionK|, denom, n)
            == TotalVisits(s, actionK, |actionK|, denom, n) + SectionVisits(s, actionK, |actionK|, denom, n)
    ensures TotalVisits(s + 1, actionK, |actionK|, denom, n) <= TotalVisits(end, actionK, |actionK|, denom, n)
    decreases end
  {
    hide SectionVisits;
    if s + 1 < end { VisitsGrow(s, end - 1, actionK, denom, n); }
  }

  /** One section's rows; a write at or past the capacity would raise. */
  method BuildSection(t: Timing, section: nat, actionK: seq<int>, denom: real, ghost cursor: nat, ghost capacity: nat)
    returns (raised: bool, row: seq<Entry>)
    requires Timed(t) && denom > 0.0 && cursor + SectionVisits(section, actionK, |actionK|, denom, |t.times|) <= capacity
    ensures raised ==> TooMany(|t.times|)
    ensures !raised ==> row == SectionEntries(t, denom, section, actionK, |actionK|)
    ensures !raised ==> |row| <= SectionVisits(section, actionK, |actionK|, denom, |t.times|)
  {
    hide ActionEntries, Region2Offset, ScanStop, Timed, TooMany;
    row := [];
    for action := 0 to |actionK|
      invariant row == SectionEntries(t, denom, section, actionK, action)
      invariant |row| <= SectionVisits(section, actionK, action, denom, |t.times|)
    {
      SectionGrows(section, actionK, action, denom, |t.times|);
      var more;
      raised, more := BuildAction(t, section, action, actionK[action], Visits(section, actionK, action, denom, |t.times|), denom, cursor + |row|, capacity);
      if raised { return true, []; }
      row := row + more;
    }
    raised := false;
  }

  /** One action's rows, each written below the capacity. */
  method BuildAction(t: Timing, section: nat, action: nat, k: int, visits: seq<int>, denom: real, ghost cursor: nat, ghost capacity: nat)
    returns (raised: bool, row: seq<Entry>)
    requires Timed(t) && denom > 0.0 && cursor + |visits| <= capacity && forall i :: 0 <= i < |visits| ==> visits[i] >= 1
    ensures raised ==> TooMany(|t.times|)
    ensures !raised ==> row == ActionEntries(t, denom, section, action, k, visits)
  {
    hide CoreAt, Timed, TooMany;
    row := [];
    for i := 0 to |visits|
      invariant row == ActionEntries(t, denom, section, action, k, visits[..i])
    {
      assert visits[..i + 1][..i] == visits[..i];
      var core;
      raised, core := FindCore(t, denom, section, visits[i], k);
      if raised { return true, []; }
      if core.Some? {
        assert cursor + |row| < capacity;
        row := row + [Entry(section, action, visits[i], core.value)];
      }
    }
    assert visits[..|visits|] == visits;
    raised := false;
  }

  lemma {:induction false} SectionGrows(section: nat, actionK: seq<int>, action: nat, denom: real, n: nat)
    requires action < |actionK| && denom > 0.0
    ensures SectionVisits(section, actionK, action, denom, n) + |Visits(section, actionK, action, denom, n)|
            <= SectionVisits(section, actionK, |actionK|, denom, n)
  {
    hide Visits;
    SectionMonotone(section, actionK, action + 1, |actionK|, denom, n);
  }

  lemma {:induction false} SectionMonotone(section: nat, actionK: seq<int>, a: nat, b: nat, denom: real, n: nat)
    requires a <= b <= |actionK| && denom > 0.0
    ensures SectionVisits(section, actionK, a, denom, n) <= SectionVisits(section, actionK, b, denom, n)
    decreases b
  {
    hide Visits;
    if a < b { SectionMonotone(section, actionK, a, b - 1, denom, n); }
  }

  // ---- The bytes.

  const ENTRY_BYTES := 28

  function StartsBytes(n: nat): nat { (n + 2) * 8 }

  /** What a build reserves while its candidate arrays are copied, and what it keeps. */
  function Bounds(actionK: seq<int>, denom: real, n: nat): (nat, nat)
    requires denom > 0.0 && CapacityOf(actionK, denom, n).Capacity?
  {
    var bytes := CapacityOf(actionK, denom, n).count * ENTRY_BYTES;
    (StartsBytes(n) + 2 * bytes, StartsBytes(n) + bytes)
  }

  function LargestCount(groups: seq<seq<int>>): (m: nat)
    ensures m >= 1 && forall g :: 0 <= g < |groups| ==> |groups[g]| <= m
  {
    if groups == [] then 1 else Max(LargestCount(groups[..|groups| - 1]), |groups[|groups| - 1]|)
  }

  /** The bytes of one exhaustive table. */
  function ByteBudget(n: nat, groups: seq<seq<int>>): nat {
    StartsBytes(n) + 2 * ((n + 1) * LargestCount(groups) * 2) * ENTRY_BYTES
  }

  /** A kept table fits its bound, and a lone build the budget. */
  lemma BoundsFit(groups: seq<seq<int>>, g: nat, denom: real, n: nat, entries: nat)
    requires g < |groups| && denom > 0.0
    requires CapacityOf(groups[g], denom, n).Capacity? ==> entries <= CapacityOf(groups[g], denom, n).count
    ensures CapacityOf(groups[g], denom, n).Capacity?
    ensures StartsBytes(n) + entries * ENTRY_BYTES <= Bounds(groups[g], denom, n).1 <= Bounds(groups[g], denom, n).0 <= ByteBudget(n, groups)
  {
    hide CapacityOf, LargestCount, TotalVisits;
    var largest := LargestCount(groups);
    if denom > n as real {
      NoCapacity(groups[g], denom, n);
    } else {
      CapacityIsVisits(groups[g], denom, n);
      Scaled(n + 1, Max(1, |groups[g]|), largest);
    }
  }

  lemma Scaled(k: nat, x: nat, y: nat)
    requires x <= y
    ensures 0 <= k * x <= k * y
  {
  }
}
