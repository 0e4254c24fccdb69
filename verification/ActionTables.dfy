/** The action table of one fever geometry and its compaction (gear_optimizer/frontier/producer_batch.py): every edge kept
    is one the fever bar really crosses on. */
module ActionTables {
  import opened Arithmetic
  import opened FillCrossing

  /** k forced Greats: the offsets a later and a first section activate at, and the Greats forced before them. */
  datatype Action = Action(k: nat, later: int, first: int, laterForced: int, firstForced: int)

  /** A compacted row; -1 for an edge that is not real. */
  datatype Row = Row(k: nat, later: int, first: int, laterForced: int, firstForced: int, laterActivation: int, firstActivation: int)

  function ActionOf(k: nat, denom: real): Action {
    var later, first := PerfectOffset(denom, k, false), PerfectOffset(denom, k, true);
    Action(k, later, first, Min(k, later), Min(k, first))
  }

  ghost predicate IsActionTable(actions: seq<Action>, denom: real) {
    && (forall i :: 0 <= i < |actions| ==> actions[i] == ActionOf(actions[i].k, denom))
    && forall i, j :: 0 <= i < j < |actions| ==> actions[i].k < actions[j].k
  }

  /** With forced timing every count, else the counts whose offset differs from the one before. */
  predicate IsListed(k: nat, denom: real, forced: bool) {
    forced || k == 0 || PerfectOffset(denom, k, false) != PerfectOffset(denom, k - 1, false)
  }

  method ActionTable(denom: real, base: int, forced: bool) returns (actions: seq<Action>)
    ensures IsActionTable(actions, denom) && actions != []
    ensures forall k: nat :: ActionOf(k, denom) in actions <==> k <= Max(0, base) && IsListed(k, denom, forced)
  {
    hide PerfectOffset;
    actions := [];
    var last := -1;
    for k := 0 to Max(0, base) + 1
      invariant IsActionTable(actions, denom) && (k > 0 ==> actions != [])
      invariant k > 0 ==> last == PerfectOffset(denom, k - 1, false)
      invariant forall j: nat :: ActionOf(j, denom) in actions <==> j < k && IsListed(j, denom, forced)
      invariant forall i :: 0 <= i < |actions| ==> actions[i].k < k
    {
      var fill := PerfectOffset(denom, k, false);
      if forced || k == 0 || fill != last {
        actions := actions + [ActionOf(k, denom)];
      }
      last := fill;
    }
  }

  function Fills(a: Action, first: bool): int { if first then a.first else a.later }

  predicate SameKey(a: Action, later: int, first: int) { a.later == later && a.first == first }

  /** The candidate of action i: the late prefix, if the action before activates at the same offset. */
  function Candidate(actions: seq<Action>, i: nat, first: bool, denom: real): Prefix
    requires i < |actions|
  {
    if i > 0 && Fills(actions[i - 1], first) == Fills(actions[i], first) then LatePrefix(Fills(actions[i], first), actions[i].k, first, denom)
    else NoPrefix
  }

  function Better(best: int, candidate: Prefix): int {
    match candidate
    case NoPrefix => best
    case Found(prefix) => if best < 0 then prefix else Min(best, prefix)
  }

  /** The smallest candidate of the first n actions with these offsets, or -1. */
  function BestPrefix(actions: seq<Action>, n: nat, later: int, first: int, isFirst: bool, denom: real): int
    requires n <= |actions|
  {
    if n == 0 then -1
    else
      var best := BestPrefix(actions, n - 1, later, first, isFirst, denom);
      if SameKey(actions[n - 1], later, first) then Better(best, Candidate(actions, n - 1, isFirst, denom)) else best
  }

  function ForcedOut(a: Action, first: bool, denom: real): int {
    if IsRegion3(Fills(a, first), a.k, first, denom) then (if first then a.firstForced else a.laterForced) else -1
  }

  /** The first action with a row's offsets. */
  ghost predicate IsFirstOf(actions: seq<Action>, n: nat, i: nat, later: int, first: int)
    requires n <= |actions|
  {
    i < n && SameKey(actions[i], later, first) && forall j :: 0 <= j < i ==> !SameKey(actions[j], later, first)
  }

  ghost predicate RowIs(actions: seq<Action>, n: nat, r: Row, denom: real)
    requires n <= |actions|
  {
    && (exists i: nat :: IsFirstOf(actions, n, i, r.later, r.first) && r.k == actions[i].k
                    && r.laterForced == ForcedOut(actions[i], false, denom) && r.firstForced == ForcedOut(actions[i], true, denom))
    && r.laterActivation == BestPrefix(actions, n, r.later, r.first, false, denom)
    && r.firstActivation == BestPrefix(actions, n, r.later, r.first, true, denom)
  }

  ghost predicate RowsAre(actions: seq<Action>, n: nat, rows: seq<Row>, denom: real)
    requires n <= |actions|
  {
    && (forall r :: 0 <= r < |rows| ==> RowIs(actions, n, rows[r], denom))
    && (forall r, q :: 0 <= r < q < |rows| ==> (rows[r].later, rows[r].first) != (rows[q].later, rows[q].first))
    && forall i :: 0 <= i < n ==> HasRow(rows, actions[i].later, actions[i].first)
  }

  ghost predicate HasRow(rows: seq<Row>, later: int, first: int) {
    exists r :: 0 <= r < |rows| && rows[r].later == later && rows[r].first == first
  }

  /** One row per pair of offsets, of its first action, with the smallest late prefixes of all of them. */
  method Compact(actions: seq<Action>, denom: real) returns (rows: seq<Row>)
    requires actions != []
    ensures RowsAre(actions, |actions|, rows, denom)
  {
    hide RowIs, HasRow;
    rows := [];
    var rowByFill: map<(int, int), nat> := map[];
    for i := 0 to |actions|
      invariant RowsAre(actions, i, rows, denom)
      invariant forall key :: key in rowByFill ==> rowByFill[key] < |rows| && rows[rowByFill[key]].later == key.0 && rows[rowByFill[key]].first == key.1
      invariant forall r :: 0 <= r < |rows| ==> (rows[r].later, rows[r].first) in rowByFill
    {
      var a := actions[i];
      var key := (a.later, a.first);
      var laterActivation, firstActivation := -1, -1;
      if key in rowByFill {
        laterActivation, firstActivation := rows[rowByFill[key]].laterActivation, rows[rowByFill[key]].firstActivation;
      }
      laterActivation := Better(laterActivation, Candidate(actions, i, false, denom));
      firstActivation := Better(firstActivation, Candidate(actions, i, true, denom));
      if key !in rowByFill {
        assert !HasRow(rows, a.later, a.first) by { NoRow(rows, a.later, a.first); }
        NewRow(actions, i, rows, denom);
        rowByFill := rowByFill[key := |rows|];
        rows := rows + [Row(a.k, a.later, a.first, ForcedOut(a, false, denom), ForcedOut(a, true, denom), laterActivation, firstActivation)];
      } else {
        OldRow(actions, i, rows, rowByFill[key], denom);
        rows := rows[rowByFill[key] := rows[rowByFill[key]].(laterActivation := laterActivation, firstActivation := firstActivation)];
      }
    }
  }

  lemma NoRow(rows: seq<Row>, later: int, first: int)
    requires forall r :: 0 <= r < |rows| ==> (rows[r].later, rows[r].first) != (later, first)
    ensures !HasRow(rows, later, first)
  {
  }

  lemma RowKept(actions: seq<Action>, i: nat, r: Row, denom: real)
    requires i < |actions| && RowIs(actions, i, r, denom) && !SameKey(actions[i], r.later, r.first)
    ensures RowIs(actions, i + 1, r, denom)
  {
    hide ForcedOut, Candidate;
    var j: nat :| IsFirstOf(actions, i, j, r.later, r.first) && r.k == actions[j].k
             && r.laterForced == ForcedOut(actions[j], false, denom) && r.firstForced == ForcedOut(actions[j], true, denom);
    assert IsFirstOf(actions, i + 1, j, r.later, r.first);
  }

  lemma NoneBefore(actions: seq<Action>, n: nat, later: int, first: int, isFirst: bool, denom: real)
    requires n <= |actions| && forall j :: 0 <= j < n ==> !SameKey(actions[j], later, first)
    ensures BestPrefix(actions, n, later, first, isFirst, denom) == -1
  {
    if n > 0 { NoneBefore(actions, n - 1, later, first, isFirst, denom); }
  }

  lemma NewRow(actions: seq<Action>, i: nat, rows: seq<Row>, denom: real)
    requires i < |actions| && RowsAre(actions, i, rows, denom) && !HasRow(rows, actions[i].later, actions[i].first)
    ensures var a := actions[i];
            RowsAre(actions, i + 1, rows + [Row(a.k, a.later, a.first, ForcedOut(a, false, denom), ForcedOut(a, true, denom),
                                                Better(-1, Candidate(actions, i, false, denom)), Better(-1, Candidate(actions, i, true, denom)))], denom)
  {
    hide ForcedOut, Candidate, RowIs, Better;
    var a := actions[i];
    var r := Row(a.k, a.later, a.first, ForcedOut(a, false, denom), ForcedOut(a, true, denom),
                 Better(-1, Candidate(actions, i, false, denom)), Better(-1, Candidate(actions, i, true, denom)));
    forall j | 0 <= j < i ensures !SameKey(actions[j], a.later, a.first) {
      assert HasRow(rows, actions[j].later, actions[j].first);
    }
    FirstRow(actions, i, r, denom);
    forall q | 0 <= q < |rows| ensures RowIs(actions, i + 1, rows[q], denom) {
      RowKept(actions, i, rows[q], denom);
    }
    MoreRows(actions, i, rows, r);
  }

  lemma FirstRow(actions: seq<Action>, i: nat, r: Row, denom: real)
    requires i < |actions| && forall j :: 0 <= j < i ==> !SameKey(actions[j], r.later, r.first)
    requires var a := actions[i];
             r == Row(a.k, a.later, a.first, ForcedOut(a, false, denom), ForcedOut(a, true, denom),
                      Better(-1, Candidate(actions, i, false, denom)), Better(-1, Candidate(actions, i, true, denom)))
    ensures RowIs(actions, i + 1, r, denom)
  {
    hide ForcedOut, Candidate, Better;
    NoneBefore(actions, i, r.later, r.first, false, denom);
    NoneBefore(actions, i, r.later, r.first, true, denom);
    assert IsFirstOf(actions, i + 1, i, r.later, r.first);
  }

  lemma MoreRows(actions: seq<Action>, i: nat, rows: seq<Row>, r: Row)
    requires i < |actions| && r.later == actions[i].later && r.first == actions[i].first
    requires forall j :: 0 <= j < i ==> HasRow(rows, actions[j].later, actions[j].first)
    ensures forall j :: 0 <= j <= i ==> HasRow(rows + [r], actions[j].later, actions[j].first)
  {
    var more := rows + [r];
    assert more[|rows|] == r;
    forall j | 0 <= j < i ensures HasRow(more, actions[j].later, actions[j].first) {
      var q :| 0 <= q < |rows| && rows[q].later == actions[j].later && rows[q].first == actions[j].first;
      assert more[q] == rows[q];
    }
  }

  lemma OldRow(actions: seq<Action>, i: nat, rows: seq<Row>, r: nat, denom: real)
    requires i < |actions| && RowsAre(actions, i, rows, denom) && r < |rows| && SameKey(actions[i], rows[r].later, rows[r].first)
    ensures var row := rows[r].(laterActivation := Better(rows[r].laterActivation, Candidate(actions, i, false, denom)),
                                firstActivation := Better(rows[r].firstActivation, Candidate(actions, i, true, denom)));
            RowsAre(actions, i + 1, rows[r := row], denom)
  {
    hide ForcedOut, Candidate, RowIs, Better;
    var row := rows[r].(laterActivation := Better(rows[r].laterActivation, Candidate(actions, i, false, denom)),
                        firstActivation := Better(rows[r].firstActivation, Candidate(actions, i, true, denom)));
    var more := rows[r := row];
    UpdatedRow(actions, i, rows[r], denom);
    forall q | 0 <= q < |rows| && q != r ensures RowIs(actions, i + 1, more[q], denom) {
      assert q < r ==> (rows[q].later, rows[q].first) != (rows[r].later, rows[r].first);
      RowKept(actions, i, rows[q], denom);
    }
    forall j | 0 <= j <= i ensures HasRow(more, actions[j].later, actions[j].first) {
      if j == i {
        assert more[r].later == actions[j].later && more[r].first == actions[j].first;
      } else {
        assert HasRow(rows, actions[j].later, actions[j].first);
        var q :| 0 <= q < |rows| && rows[q].later == actions[j].later && rows[q].first == actions[j].first;
        assert more[q].later == actions[j].later && more[q].first == actions[j].first;
      }
    }
  }

  lemma UpdatedRow(actions: seq<Action>, i: nat, r: Row, denom: real)
    requires i < |actions| && RowIs(actions, i, r, denom) && SameKey(actions[i], r.later, r.first)
    ensures RowIs(actions, i + 1, r.(laterActivation := Better(r.laterActivation, Candidate(actions, i, false, denom)),
                                     firstActivation := Better(r.firstActivation, Candidate(actions, i, true, denom))), denom)
  {
    hide ForcedOut, Candidate, Better;
    var j: nat :| IsFirstOf(actions, i, j, r.later, r.first) && r.k == actions[j].k
             && r.laterForced == ForcedOut(actions[j], false, denom) && r.firstForced == ForcedOut(actions[j], true, denom);
    assert IsFirstOf(actions, i + 1, j, r.later, r.first);
  }

  // ---- Every edge of a row is real.

  /** The bar, k Greats packed first, fills on a Perfect at the offset. */
  predicate PerfectEdge(k: nat, offset: int, first: bool, denom: real) {
    Crosses(Packed(k, first), denom, offset) && !IsGreat(Packed(k, first), offset)
  }

  /** The bar, `prefix` Greats packed first, fills on the activation Great at the offset. */
  predicate LateEdge(prefix: nat, offset: int, first: bool, denom: real) {
    Wasted(first) + prefix <= offset && Crosses(LatePlacement(offset, prefix, first), denom, offset)
  }

  lemma {:induction false} BestPrefixIsReal(actions: seq<Action>, n: nat, later: int, first: int, isFirst: bool, denom: real)
    requires n <= |actions| && denom > 0.0
    ensures var best := BestPrefix(actions, n, later, first, isFirst, denom);
            best == -1 || (best >= 0 && LateEdge(best, if isFirst then first else later, isFirst, denom))
  {
    hide LatePrefix, LateEdge;
    if n > 0 {
      BestPrefixIsReal(actions, n - 1, later, first, isFirst, denom);
      assert SameKey(actions[n - 1], later, first) ==> Fills(actions[n - 1], isFirst) == if isFirst then first else later;
      CandidateIsReal(Fills(actions[n - 1], isFirst), actions[n - 1].k, isFirst, denom);
    }
  }

  lemma CandidateIsReal(fill: int, k: int, first: bool, denom: real)
    requires denom > 0.0
    ensures LatePrefix(fill, k, first, denom).Found? ==> LateEdge(LatePrefix(fill, k, first, denom).prefix, fill, first, denom)
  {
    hide Crosses, LatePrefix;
    LatePrefixIsReal(fill, k, first, denom);
  }

  lemma ForcedIsReal(k: nat, first: bool, denom: real)
    requires denom > 0.0
    ensures var a := ActionOf(k, denom);
            ForcedOut(a, first, denom) == if PerfectEdge(k, Fills(a, first), first, denom) then k else -1
  {
    hide Crosses;
    Region3IsPerfectCrossing(denom, k, first);
    CeilIs(denom + 0.5 * k as real);
  }

  /** Every non-sentinel edge of every compacted row is a crossing of the note-by-note bar, and a Perfect edge is missing
      only when there is none. */
  lemma RowsAreReal(actions: seq<Action>, rows: seq<Row>, denom: real, r: nat)
    requires denom > 0.0 && IsActionTable(actions, denom) && RowsAre(actions, |actions|, rows, denom) && r < |rows|
    ensures var row := rows[r];
            && row.laterForced == (if PerfectEdge(row.k, row.later, false, denom) then row.k else -1)
            && row.firstForced == (if PerfectEdge(row.k, row.first, true, denom) then row.k else -1)
            && (row.laterActivation == -1 || (row.laterActivation >= 0 && LateEdge(row.laterActivation, row.later, false, denom)))
            && (row.firstActivation == -1 || (row.firstActivation >= 0 && LateEdge(row.firstActivation, row.first, true, denom)))
  {
    hide ForcedOut, PerfectEdge, LateEdge, BestPrefix, ActionOf, HasRow;
    var row := rows[r];
    assert RowIs(actions, |actions|, row, denom);
    var i: nat :| IsFirstOf(actions, |actions|, i, row.later, row.first) && row.k == actions[i].k
             && row.laterForced == ForcedOut(actions[i], false, denom) && row.firstForced == ForcedOut(actions[i], true, denom);
    ForcedIsReal(actions[i].k, false, denom);
    ForcedIsReal(actions[i].k, true, denom);
    BestPrefixIsReal(actions, |actions|, row.later, row.first, false, denom);
    BestPrefixIsReal(actions, |actions|, row.later, row.first, true, denom);
  }

  // ---- No late activation is lost.

  /** The Greats before an action's late activation: all but the activation itself, as many as fit before it. */
  function GreatsBefore(a: Action, first: bool): int {
    Min(a.k - 1, Fills(a, first) - Wasted(first))
  }

  /** One Great fewer activates at the same offset, and with these Greats before it the bar fills on the late Great there. */
  ghost predicate Activates(actions: seq<Action>, i: nat, first: bool, denom: real) {
    && 0 < i < |actions| && Fills(actions[i - 1], first) == Fills(actions[i], first)
    && GreatsBefore(actions[i], first) >= 0 && LateEdge(GreatsBefore(actions[i], first), Fills(actions[i], first), first, denom)
  }

  /** Such an action among the first n with these offsets. */
  ghost predicate HasLate(actions: seq<Action>, n: nat, i: nat, later: int, first: int, isFirst: bool, denom: real)
    requires n <= |actions|
  {
    i < n && SameKey(actions[i], later, first) && Activates(actions, i, isFirst, denom)
  }

  /** The fewest Greats before a late activation of them, or -1 exactly where there is none. */
  ghost predicate IsFewest(actions: seq<Action>, n: nat, later: int, first: int, isFirst: bool, denom: real, best: int)
    requires n <= |actions|
  {
    && (best == -1 || exists i: nat :: HasLate(actions, n, i, later, first, isFirst, denom) && best == GreatsBefore(actions[i], isFirst))
    && forall i: nat :: HasLate(actions, n, i, later, first, isFirst, denom) ==> 0 <= best <= GreatsBefore(actions[i], isFirst)
  }

  lemma CandidateIs(actions: seq<Action>, i: nat, first: bool, denom: real)
    requires denom > 0.0 && i < |actions| && (i > 0 ==> actions[i].k > 0)
    ensures Candidate(actions, i, first, denom)
            == if Activates(actions, i, first, denom) then Found(GreatsBefore(actions[i], first)) else NoPrefix
  {
    hide Crosses;
    var fill := Fills(actions[i], first);
    var prefix := Min(Max(0, actions[i].k as int - 1), Max(0, fill - Wasted(first)));
    LegalIsLateCrossing(fill, prefix, denom, first);
  }

  lemma {:induction false} BestIsFewest(actions: seq<Action>, n: nat, later: int, first: int, isFirst: bool, denom: real)
    requires n <= |actions| && denom > 0.0 && forall i :: 0 < i < |actions| ==> actions[i].k > 0
    ensures IsFewest(actions, n, later, first, isFirst, denom, BestPrefix(actions, n, later, first, isFirst, denom))
  {
    hide Activates, Candidate, GreatsBefore, SameKey;
    if n > 0 {
      var i := n - 1;
      BestIsFewest(actions, i, later, first, isFirst, denom);
      CandidateIs(actions, i, isFirst, denom);
      var before, best := BestPrefix(actions, i, later, first, isFirst, denom), BestPrefix(actions, n, later, first, isFirst, denom);
      MoreLate(actions, i, later, first, isFirst, denom);
      if best != -1 {
        if best == before {
          var j: nat :| HasLate(actions, i, j, later, first, isFirst, denom) && best == GreatsBefore(actions[j], isFirst);
          assert HasLate(actions, n, j, later, first, isFirst, denom);
        } else {
          assert HasLate(actions, n, i, later, first, isFirst, denom);
        }
      }
    }
  }

  lemma MoreLate(actions: seq<Action>, n: nat, later: int, first: int, isFirst: bool, denom: real)
    requires n < |actions|
    ensures forall i: nat :: HasLate(actions, n + 1, i, later, first, isFirst, denom)
              <==> HasLate(actions, n, i, later, first, isFirst, denom)
                   || (i == n && SameKey(actions[n], later, first) && Activates(actions, n, isFirst, denom))
    ensures Activates(actions, n, isFirst, denom) ==> GreatsBefore(actions[n], isFirst) >= 0
  {
    hide SameKey, LateEdge, Fills;
    forall i: nat
      ensures HasLate(actions, n + 1, i, later, first, isFirst, denom)
              <==> HasLate(actions, n, i, later, first, isFirst, denom)
                   || (i == n && SameKey(actions[n], later, first) && Activates(actions, n, isFirst, denom))
    {
    }
  }

  /** Every row's late activations are the ones of fewest Greats before them, and missing only where there is none. */
  lemma NoLateIsLost(actions: seq<Action>, rows: seq<Row>, denom: real, r: nat)
    requires denom > 0.0 && IsActionTable(actions, denom) && RowsAre(actions, |actions|, rows, denom) && r < |rows|
    ensures IsFewest(actions, |actions|, rows[r].later, rows[r].first, false, denom, rows[r].laterActivation)
    ensures IsFewest(actions, |actions|, rows[r].later, rows[r].first, true, denom, rows[r].firstActivation)
  {
    hide BestPrefix, IsFewest, ActionOf, HasRow, IsFirstOf;
    var row := rows[r];
    assert RowIs(actions, |actions|, row, denom);
    assert forall i :: 0 < i < |actions| ==> actions[0].k < actions[i].k;
    BestIsFewest(actions, |actions|, row.later, row.first, false, denom);
    BestIsFewest(actions, |actions|, row.later, row.first, true, denom);
  }

  // ---- The fill from which no early exit can delay an activation.

  /** Twice the frame margin, in seconds. */
  const EXIT_MARGIN := 2.0 * (1000.0 / 60.0 + 1.0) / 1000.0

  /** The smallest latest Perfect from a note on, two frame margins later. */
  function Reach(latest: seq<real>, i: nat): (r: real)
    requires i < |latest|
    ensures exists j :: i <= j < |latest| && r == latest[j] + EXIT_MARGIN
    ensures forall j :: i <= j < |latest| ==> r <= latest[j] + EXIT_MARGIN
    decreases |latest| - i
  {
    if i == |latest| - 1 then latest[i] + EXIT_MARGIN
    else
      var later := Reach(latest, i + 1);
      if latest[i] + EXIT_MARGIN < later then latest[i] + EXIT_MARGIN else later
  }

  /** The activation `fill` notes past any note is out of reach of an early exit there. */
  ghost predicate ClearOfExits(floor: seq<real>, latest: seq<real>, fill: nat)
    requires |floor| == |latest|
  {
    forall i :: 0 <= i && i + fill < |floor| ==> IsClear(floor, latest, i, fill)
  }

  predicate IsClear(floor: seq<real>, latest: seq<real>, i: nat, fill: nat)
    requires |floor| == |latest| && i + fill < |floor|
  {
    floor[i + fill] >= Reach(latest, i)
  }

  /** The condition only gets easier as the fill grows: the reach never falls along the notes. */
  lemma {:induction false} ClearGrows(floor: seq<real>, latest: seq<real>, fill: nat, more: nat)
    requires |floor| == |latest| && fill <= more && ClearOfExits(floor, latest, fill)
    ensures ClearOfExits(floor, latest, more)
    decreases more - fill
  {
    hide Reach;
    if fill < more {
      var next := fill + 1;
      forall i | 0 <= i && i + next < |floor| ensures IsClear(floor, latest, i, next) {
        assert IsClear(floor, latest, i + 1, fill);
        ReachRises(latest, i);
      }
      ClearGrows(floor, latest, next, more);
    }
  }

  lemma ReachRises(latest: seq<real>, i: nat)
    requires i + 1 < |latest|
    ensures Reach(latest, i) <= Reach(latest, i + 1)
  {
  }

  /** The smallest such fill of at least 1. */
  method EarlyExitMinFill(floor: seq<real>, latest: seq<real>) returns (lo: nat)
    requires |floor| == |latest|
    ensures lo >= 1 && ClearOfExits(floor, latest, lo)
    ensures forall fill: nat :: 1 <= fill < lo ==> !ClearOfExits(floor, latest, fill)
  {
    hide ClearOfExits;
    var n := |floor|;
    var hi := Max(1, n);
    lo := 1;
    PastTheEnd(floor, latest, hi);
    while lo < hi
      invariant 1 <= lo <= hi && ClearOfExits(floor, latest, hi)
      invariant forall fill: nat :: 1 <= fill < lo ==> !ClearOfExits(floor, latest, fill)
    {
      var mid := (lo + hi) / 2;
      var clear := AllClear(floor, latest, mid);
      if clear {
        hi := mid;
      } else {
        forall fill: nat | 1 <= fill <= mid ensures !ClearOfExits(floor, latest, fill) {
          if ClearOfExits(floor, latest, fill) { ClearGrows(floor, latest, fill, mid); }
        }
        lo := mid + 1;
      }
    }
  }

  lemma PastTheEnd(floor: seq<real>, latest: seq<real>, fill: nat)
    requires |floor| == |latest| <= fill
    ensures ClearOfExits(floor, latest, fill)
  {
  }

  method AllClear(floor: seq<real>, latest: seq<real>, fill: nat) returns (clear: bool)
    requires |floor| == |latest|
    ensures clear <==> ClearOfExits(floor, latest, fill)
  {
    var i := 0;
    while i + fill < |floor|
      invariant forall j :: 0 <= j < i && j + fill < |floor| ==> IsClear(floor, latest, j, fill)
    {
      if !IsClear(floor, latest, i, fill) { return false; }
      i := i + 1;
    }
    clear := true;
  }
}
