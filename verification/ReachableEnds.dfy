/** Which ends the reachability prepass owes (gear_optimizer/frontier/producer_kernels.py): every valid activation contributes the
    notes from its early exit to where its fever can end on the Perfect or on the Great floors, and the late activations the
    marking skips contribute none of their own. */
module ReachableEnds {
  import opened Arithmetic
  import opened Reachability

  // ---- The ends of a fever by its floors.

  /** A fever of this cutoff can end before note e: it starts there at the latest, or the note before e can still be hit in it. */
  ghost predicate Reaches(n: int, floors: seq<real>, activation: int, cutoff: real, e: int) {
    e <= n && (e <= activation + 1 || (0 < e <= |floors| && floors[e - 1] < cutoff))
  }

  ghost predicate Rising(s: seq<real>) { forall i, j :: 0 <= i <= j < |s| ==> s[i] <= s[j] }

  /** The clamped search finds the last such end. */
  lemma EndIs(n: int, floors: seq<real>, activation: int, cutoff: real, e: int)
    requires Rising(floors) && 0 <= activation < n
    ensures e <= ClampedEnd(n, activation, FirstAtLeast(floors, cutoff)) <==> Reaches(n, floors, activation, cutoff, e)
  {
    var k := FirstAtLeast(floors, cutoff);
    if activation + 1 < e <= |floors| {
      if e <= k { assert floors[e - 1] < cutoff; } else { assert floors[k] <= floors[e - 1]; }
    }
  }

  function Row(c: Chart, late: bool, a: int): Activation
    requires 0 <= a < |c.perfect| && a < |c.late|
  {
    if late then c.late[a] else c.perfect[a]
  }

  /** What a valid activation has to contribute: from its early exit to the later of its two ends. */
  ghost predicate Contributes(c: Chart, late: bool, a: int, e: int)
    requires Tables(c) && InChart(c, Plain(late, a))
  {
    var r := Row(c, late, a);
    && r.valid && r.edge >= 0 && (r.exit <= e || r.edge <= e)
    && (e <= r.edge || Reaches(c.n, c.greatFloors, a, r.hit + c.feverTime, e))
  }

  /** By how many notes its Great end lies past its edge. */
  ghost function Extension(c: Chart, late: bool, a: int): nat
    requires Tables(c) && InChart(c, Plain(late, a))
  {
    var r := Row(c, late, a);
    if r.valid && r.edge >= 0 then Max(0, GreatEnd(c, a, r.hit) - r.edge) else 0
  }

  // ---- What makes skipping safe.

  /** Of a note with both activations the late one exits and ends no earlier, and the Great ends compared are those marked. */
  ghost predicate OrderedRow(c: Chart, a: int)
    requires 0 <= a < |c.perfect| && a < |c.late|
  {
    var p, l := c.perfect[a], c.late[a];
    && (l.valid ==> l.edge >= 0 && l.greatEdge == GreatEnd(c, a, l.hit) > 0)
    && (p.valid ==> p.edge >= 0 && p.greatEdge == GreatEnd(c, a, p.hit))
    && (p.valid && l.valid ==> p.exit <= l.exit && p.edge <= l.edge)
  }

  /** Ordered rows, and a late activation only where the Perfect one is possible too. */
  ghost predicate Promised(c: Chart)
    requires Tables(c)
  {
    && (forall a :: 0 <= a < c.n ==> OrderedRow(c, a))
    && (forall offset :: InRuns(c.lateRuns, offset) ==> InRuns(c.perfectRuns, offset))
  }

  /** A late activation that marks nothing contributes nothing the Perfect one of its note does not, nor a larger extension. */
  lemma SkippedIsCovered(c: Chart, a: int, e: int)
    requires Tables(c) && 0 <= a < c.n && OrderedRow(c, a) && c.late[a].valid && SpanOf(c, Plain(true, a)) == NoEnds
    ensures c.perfect[a].valid && Extension(c, true, a) <= Extension(c, false, a)
    ensures Contributes(c, true, a, e) ==> Contributes(c, false, a, e)
  {
    var p, l := c.perfect[a], c.late[a];
    EndIs(c.n, c.greatFloors, a, l.hit + c.feverTime, e);
    EndIs(c.n, c.greatFloors, a, p.hit + c.feverTime, e);
  }

  /** Anything else marks exactly what it contributes. */
  lemma MarkedIsContributed(c: Chart, late: bool, a: int, e: int)
    requires Tables(c) && 0 <= a < c.n && OrderedRow(c, a) && (late ==> SpanOf(c, Plain(true, a)) != NoEnds)
    ensures e in EndsOf(c, Plain(late, a)) <==> Contributes(c, late, a, e)
    ensures WidthOf(c, Plain(late, a)) == Extension(c, late, a)
  {
    var r := Row(c, late, a);
    assert TableRow(c.n, a, r);
    EndIs(c.n, c.greatFloors, a, r.hit + c.feverTime, e);
    assert SpanOf(c, Plain(late, a)) == if r.valid && r.edge >= 0 then EdgeSpan(c, a, r) else NoEnds;
    assert forall s: Span, x: int :: x in SpanSet(s) <==> s.Ends? && InSpan(s.first, s.last, x);
  }

  /** Where a late activation is taken so is the Perfect one. */
  lemma PerfectTaken(c: Chart, states: set<int>, a: int)
    requires Tables(c) && Promised(c) && Taken(c, states, Plain(true, a))
    ensures Taken(c, states, Plain(false, a))
  {
    hide InRuns, Tables, OrderedRow;
    if !First(c, Plain(true, a)) {
      var s :| s in states && Available(c, s, Plain(true, a));
      assert Available(c, s, Plain(false, a));
    } else {
      assert First(c, Plain(false, a));
    }
  }

  // ---- The closure of everything contributed.

  /** Holds the chart's end, all that each activation taken contributes, and the ends of every core taken. */
  ghost predicate FullyClosed(c: Chart, states: set<int>)
    requires Tables(c)
  {
    && c.n in states
    && (forall late, a, e: int :: Taken(c, states, Plain(late, a)) && Contributes(c, late, a, e) ==> e in states)
    && (forall row, e: int :: Taken(c, states, Region(row)) && e in EndsOf(c, Region(row)) ==> e in states)
  }

  ghost predicate IsFullClosure(c: Chart, states: set<int>)
    requires Tables(c)
  {
    FullyClosed(c, states) && forall s: set<int> :: FullyClosed(c, s) ==> states <= s
  }

  ghost predicate IsFullWidth(c: Chart, states: set<int>, width: nat)
    requires Tables(c)
  {
    && (forall late, a :: Taken(c, states, Plain(late, a)) ==> Extension(c, late, a) <= width)
    && (forall row :: Taken(c, states, Region(row)) ==> WidthOf(c, Region(row)) <= width)
    && (width == 0 || (exists late, a :: Taken(c, states, Plain(late, a)) && Extension(c, late, a) == width)
        || exists row :: Taken(c, states, Region(row)) && WidthOf(c, Region(row)) == width)
  }

  lemma ClosedIsFull(c: Chart, states: set<int>)
    requires Tables(c) && Promised(c)
    ensures Closed(c, states) <==> FullyClosed(c, states)
  {
    hide Tables, OrderedRow, First, Available, EndsOf, Contributes;
    if Closed(c, states) {
      forall late, a, e: int | Taken(c, states, Plain(late, a)) && Contributes(c, late, a, e) ensures e in states {
        Covered(c, states, late, a, e);
      }
    }
    if FullyClosed(c, states) {
      forall x, e: int | Taken(c, states, x) && e in EndsOf(c, x) ensures e in states {
        if x.Plain? { IsContributed(c, x.late, x.activation, e); }
      }
    }
  }

  /** What an activation taken contributes, some activation taken marks. */
  lemma Covered(c: Chart, states: set<int>, late: bool, a: int, e: int)
    requires Tables(c) && Promised(c) && Closed(c, states) && Taken(c, states, Plain(late, a)) && Contributes(c, late, a, e)
    ensures e in states
  {
    hide Tables, OrderedRow, First, Available, EndsOf, SpanOf, Reaches;
    if late && SpanOf(c, Plain(true, a)) == NoEnds {
      PerfectTaken(c, states, a);
      SkippedIsCovered(c, a, e);
      MarkedIsContributed(c, false, a, e);
    } else {
      MarkedIsContributed(c, late, a, e);
    }
  }

  lemma IsContributed(c: Chart, late: bool, a: int, e: int)
    requires Tables(c) && Promised(c) && 0 <= a < c.n && e in EndsOf(c, Plain(late, a))
    ensures Contributes(c, late, a, e)
  {
    hide Tables, OrderedRow, Contributes;
    assert SpanOf(c, Plain(late, a)) != NoEnds;
    MarkedIsContributed(c, late, a, e);
  }

  /** Skipping loses nothing: the least set closed under the marked ends is the least one that holds everything contributed, and
      the widest extension marked is the widest of all. */
  lemma ClosureIsFull(c: Chart, states: set<int>, width: nat)
    requires Tables(c) && Promised(c)
    ensures IsClosure(c, states) <==> IsFullClosure(c, states)
    ensures IsWidest(c, states, width) <==> IsFullWidth(c, states, width)
  {
    hide Tables, Promised, Closed, FullyClosed;
    forall s: set<int> ensures Closed(c, s) <==> FullyClosed(c, s) { ClosedIsFull(c, s); }
    WidthIsFull(c, states, width);
  }

  lemma WidthIsFull(c: Chart, states: set<int>, width: nat)
    requires Tables(c) && Promised(c)
    ensures IsWidest(c, states, width) <==> IsFullWidth(c, states, width)
  {
    hide Tables, OrderedRow, First, Available, WidthOf, Extension;
    forall late, a | Taken(c, states, Plain(late, a)) ensures WidthOf(c, Plain(late, a)) <= Extension(c, late, a) {
      WidthWithin(c, late, a);
    }
    if IsWidest(c, states, width) {
      forall late, a | Taken(c, states, Plain(late, a)) ensures Extension(c, late, a) <= width {
        var other := ExtensionMarked(c, states, late, a);
      }
      if width > 0 {
        var x :| Taken(c, states, x) && WidthOf(c, x) == width;
        if x.Plain? { assert Extension(c, x.late, x.activation) == width; }
      }
    }
    if IsFullWidth(c, states, width) {
      forall x | Taken(c, states, x) ensures WidthOf(c, x) <= width { }
      if width > 0 && !exists row :: Taken(c, states, Region(row)) && WidthOf(c, Region(row)) == width {
        var late, a :| Taken(c, states, Plain(late, a)) && Extension(c, late, a) == width;
        var other := ExtensionMarked(c, states, late, a);
        assert WidthOf(c, Plain(other, a)) == width;
      }
    }
  }

  lemma WidthWithin(c: Chart, late: bool, a: int)
    requires Tables(c) && Promised(c) && 0 <= a < c.n
    ensures WidthOf(c, Plain(late, a)) <= Extension(c, late, a)
  {
    hide Tables, OrderedRow, Extension;
    if SpanOf(c, Plain(late, a)) != NoEnds { MarkedIsContributed(c, late, a, 0); }
  }

  lemma ExtensionMarked(c: Chart, states: set<int>, late: bool, a: int) returns (other: bool)
    requires Tables(c) && Promised(c) && Taken(c, states, Plain(late, a))
    ensures Taken(c, states, Plain(other, a)) && Extension(c, late, a) <= WidthOf(c, Plain(other, a))
  {
    hide OrderedRow, First, Available, SpanOf, RegionTables, TableRow;
    other := late && !(c.late[a].valid && SpanOf(c, Plain(true, a)) == NoEnds);
    if late && !other {
      PerfectTaken(c, states, a);
      SkippedIsCovered(c, a, 0);
      MarkedIsContributed(c, false, a, 0);
    } else if !late || SpanOf(c, Plain(true, a)) != NoEnds {
      MarkedIsContributed(c, late, a, 0);
    }
  }

  // ---- The promises, from the times the tables are built of.

  /** The floors and ceilings searched, and each activation's earliest hit. */
  datatype Times = Times(floors: seq<real>, ceilings: seq<real>, perfectLow: seq<real>, lateLow: seq<real>)

  /** The clamped end of a search. */
  function EndAt(c: Chart, rows: seq<real>, a: int, hit: real): int { ClampedEnd(c.n, a, FirstAtLeast(rows, hit + c.feverTime)) }

  ghost predicate RowFromTimes(c: Chart, t: Times, a: int, r: Activation, low: real) {
    r.edge == EndAt(c, t.floors, a, r.hit) && r.greatEdge == EndAt(c, c.greatFloors, a, r.hit) && r.exit == EndAt(c, t.ceilings, a, low)
  }

  /** The tables as they are precomputed: the late activation's earliest hit and its hit lie no earlier than the Perfect one's. */
  ghost predicate FromTimes(c: Chart, t: Times)
    requires 0 <= c.n == |c.perfect| == |c.late|
  {
    && |t.floors| == |t.ceilings| == |t.perfectLow| == |t.lateLow| == |c.greatFloors| == c.n
    && Rising(t.floors) && Rising(t.ceilings) && Rising(c.greatFloors)
    && (forall a :: 0 <= a < c.n ==> RowFromTimes(c, t, a, c.perfect[a], t.perfectLow[a]) && RowFromTimes(c, t, a, c.late[a], t.lateLow[a]))
    && (forall a :: 0 <= a < c.n ==> t.perfectLow[a] <= t.lateLow[a])
    && (forall a :: 0 <= a < c.n && c.perfect[a].valid && c.late[a].valid ==> c.perfect[a].hit <= c.late[a].hit)
  }

  lemma EndRises(c: Chart, rows: seq<real>, a: int, hit: real, later: real)
    requires Rising(rows) && 0 <= a < c.n && hit <= later
    ensures EndAt(c, rows, a, hit) <= EndAt(c, rows, a, later)
  {
    var e := EndAt(c, rows, a, hit);
    EndIs(c.n, rows, a, hit + c.feverTime, e);
    EndIs(c.n, rows, a, later + c.feverTime, e);
  }

  lemma TimesOrderRows(c: Chart, t: Times, a: int)
    requires 0 <= a < c.n == |c.perfect| == |c.late| && FromTimes(c, t)
    ensures OrderedRow(c, a) && TableRow(c.n, a, c.perfect[a]) && TableRow(c.n, a, c.late[a])
  {
    EndRises(c, t.ceilings, a, t.perfectLow[a], t.lateLow[a]);
    if c.perfect[a].valid && c.late[a].valid { EndRises(c, t.floors, a, c.perfect[a].hit, c.late[a].hit); }
  }

  /** Some note past the activation can be hit in the later fever and not in the earlier one, as a Perfect or as a Great. */
  ghost predicate CarriesMore(c: Chart, floors: seq<real>, a: int, hit: real, later: real)
    requires |floors| == |c.greatFloors| == c.n
  {
    exists j :: 0 <= a < j < c.n && (Between(floors[j], hit + c.feverTime, later + c.feverTime)
                                     || Between(c.greatFloors[j], hit + c.feverTime, later + c.feverTime))
  }

  ghost predicate Between(x: real, low: real, high: real) { low <= x < high }

  /** The rule: a late hit's edge is kept exactly when its fever carries a note the Perfect hit's cannot. */
  lemma LateExtendsIs(c: Chart, floors: seq<real>, a: int, hit: real, later: real)
    requires |floors| == |c.greatFloors| == c.n && Rising(floors) && Rising(c.greatFloors) && 0 <= a < c.n && hit <= later
    ensures LateExtends(EndAt(c, floors, a, hit), EndAt(c, floors, a, later), EndAt(c, c.greatFloors, a, later), EndAt(c, c.greatFloors, a, hit))
            <==> CarriesMore(c, floors, a, hit, later)
  {
    NoteBetween(c, floors, a, hit, later);
    NoteBetween(c, c.greatFloors, a, hit, later);
  }

  /** A later end is a note between the cutoffs. */
  lemma NoteBetween(c: Chart, rows: seq<real>, a: int, hit: real, later: real)
    requires |rows| == c.n && Rising(rows) && 0 <= a < c.n && hit <= later
    ensures EndAt(c, rows, a, later) > EndAt(c, rows, a, hit)
            <==> exists j :: a < j < c.n && Between(rows[j], hit + c.feverTime, later + c.feverTime)
  {
    var e, e' := EndAt(c, rows, a, hit), EndAt(c, rows, a, later);
    if e' > e {
      EndIs(c.n, rows, a, later + c.feverTime, e + 1);
      EndIs(c.n, rows, a, hit + c.feverTime, e + 1);
      assert Between(rows[e], hit + c.feverTime, later + c.feverTime);
    }
    if j :| a < j < c.n && Between(rows[j], hit + c.feverTime, later + c.feverTime) {
      EndIs(c.n, rows, a, later + c.feverTime, j + 1);
      EndIs(c.n, rows, a, hit + c.feverTime, j + 1);
    }
  }

  // ---- Region cores.

  /** The end tables by hit, from the hits' times; a core's Great hit lies no earlier than its Perfect one. */
  ghost predicate CoresFromTimes(c: Chart, t: Times, hits: seq<real>)
    requires Tables(c)
  {
    && |hits| == |c.regions.perfectEndByHit| == |c.regions.greatEndByHit|
    && (forall h :: 0 <= h < |hits| ==> c.regions.perfectEndByHit[h] == FirstAtLeast(t.floors, hits[h] + c.feverTime))
    && (forall h :: 0 <= h < |hits| ==> c.regions.greatEndByHit[h] == FirstAtLeast(c.greatFloors, hits[h] + c.feverTime))
    && (forall row :: 0 <= row < |c.regions.cores| ==> CoreInOrder(c.regions.cores[row], hits))
  }

  ghost predicate CoreInOrder(core: Core, hits: seq<real>) {
    core.isGreat && core.perfectValid && 0 <= core.perfectHit < |hits| && 0 <= core.activationHit < |hits|
    ==> hits[core.perfectHit] <= hits[core.activationHit]
  }

  /** What a core's hit contributes: from the early exit of its kind to its Great end. */
  ghost predicate HitContributes(c: Chart, a: int, late: bool, hit: real, floors: seq<real>, e: int)
    requires 0 <= a < |c.perfect| && a < |c.late|
  {
    && (Row(c, late, a).exit <= e || EndAt(c, floors, a, hit) <= e)
    && Reaches(c.n, c.greatFloors, a, hit + c.feverTime, e)
  }

  /** A core marks what its Great hit contributes, or nothing exactly when its Perfect hit's fever carries every note of the late
      one's; a core without a Great activation marks what its Perfect hit contributes. */
  lemma CoreMarks(c: Chart, t: Times, hits: seq<real>, row: int, e: int)
    requires Tables(c) && FromTimes(c, t) && CoresFromTimes(c, t, hits) && 0 <= row < |c.regions.cores|
    ensures CoreRow(c, c.regions.cores[row])
    ensures var core := c.regions.cores[row]; var a := core.activation;
            if !core.isGreat then
              e in EndsOf(c, Region(row)) <==> HitContributes(c, a, false, hits[core.perfectHit], t.floors, e)
            else if core.perfectValid && !CarriesMore(c, t.floors, a, hits[core.perfectHit], hits[core.activationHit]) then
              EndsOf(c, Region(row)) == {} && WidthOf(c, Region(row)) == 0
            else
              e in EndsOf(c, Region(row)) <==> HitContributes(c, a, true, hits[core.activationHit], t.floors, e)
  {
    hide CarriesMore, LateExtends, FirstAtLeast, ClampedEnd, HitContributes, FromTimes, TableRow, RegionEnds;
    var core := c.regions.cores[row];
    assert CoreRow(c, core) && CoreInOrder(core, hits);
    var a := core.activation;
    CoreEnds(c, t, hits, core.perfectHit, core.activationHit, core);
    if core.isGreat {
      RangeContributes(c, t, a, true, hits[core.activationHit], e);
      if core.perfectValid {
        FloorsRise(c, t);
        LateExtendsIs(c, t.floors, a, hits[core.perfectHit], hits[core.activationHit]);
        EndsPast(c, t.floors, a, hits[core.perfectHit]);
      }
    } else {
      RangeContributes(c, t, a, false, hits[core.perfectHit], e);
    }
  }

  lemma FloorsRise(c: Chart, t: Times)
    requires 0 <= c.n == |c.perfect| == |c.late| && FromTimes(c, t)
    ensures |t.floors| == |c.greatFloors| == c.n && Rising(t.floors) && Rising(c.greatFloors)
  {
  }

  lemma EndsPast(c: Chart, rows: seq<real>, a: int, hit: real)
    requires 0 <= a < c.n
    ensures EndAt(c, rows, a, hit) > a
  {
  }

  lemma CoreEnds(c: Chart, t: Times, hits: seq<real>, perfectHit: int, activationHit: int, core: Core)
    requires Tables(c) && CoresFromTimes(c, t, hits) && CoreRow(c, core) && core.perfectHit == perfectHit && core.activationHit == activationHit
    ensures core.perfectValid ==> HitEnd(c, c.regions.perfectEndByHit, core.activation, perfectHit) == EndAt(c, t.floors, core.activation, hits[perfectHit])
    ensures core.perfectValid ==> HitEnd(c, c.regions.greatEndByHit, core.activation, perfectHit) == EndAt(c, c.greatFloors, core.activation, hits[perfectHit])
    ensures core.isGreat ==> HitEnd(c, c.regions.perfectEndByHit, core.activation, activationHit) == EndAt(c, t.floors, core.activation, hits[activationHit])
    ensures core.isGreat ==> HitEnd(c, c.regions.greatEndByHit, core.activation, activationHit) == EndAt(c, c.greatFloors, core.activation, hits[activationHit])
  {
    hide FirstAtLeast, ClampedEnd;
  }

  /** The range a hit marks is what it contributes. */
  lemma RangeContributes(c: Chart, t: Times, a: int, late: bool, hit: real, e: int)
    requires Tables(c) && FromTimes(c, t) && 0 <= a < c.n
    ensures e in SpanSet(RegionEnds(Row(c, late, a).exit, EndAt(c, t.floors, a, hit), EndAt(c, c.greatFloors, a, hit)))
            <==> HitContributes(c, a, late, hit, t.floors, e)
  {
    hide FirstAtLeast, ClampedEnd, Reaches, TableRow, RegionTables, FromTimes;
    FloorsRise(c, t);
    EndIs(c.n, c.greatFloors, a, hit + c.feverTime, e);
    assert forall s: Span, x: int :: x in SpanSet(s) <==> s.Ends? && InSpan(s.first, s.last, x);
  }

  /** And then every end of the late hit is one the Perfect hit contributes. */
  lemma SkippedCoreIsCovered(c: Chart, t: Times, hits: seq<real>, row: int, e: int)
    requires Tables(c) && FromTimes(c, t) && CoresFromTimes(c, t, hits) && 0 <= row < |c.regions.cores|
    requires var core := c.regions.cores[row]; core.isGreat && core.perfectValid && CoreRow(c, core)
    requires var core := c.regions.cores[row]; !CarriesMore(c, t.floors, core.activation, hits[core.perfectHit], hits[core.activationHit])
    ensures var core := c.regions.cores[row]; var a := core.activation;
            HitContributes(c, a, true, hits[core.activationHit], t.floors, e) ==> HitContributes(c, a, false, hits[core.perfectHit], t.floors, e)
  {
    hide CarriesMore;
    var core := c.regions.cores[row];
    var a, hit, later := core.activation, hits[core.perfectHit], hits[core.activationHit];
    assert CoreInOrder(core, hits);
    LateExtendsIs(c, t.floors, a, hit, later);
    EndRises(c, t.floors, a, hit, later);
    EndRises(c, t.ceilings, a, t.perfectLow[a], t.lateLow[a]);
    EndIs(c.n, c.greatFloors, a, hit + c.feverTime, e);
    EndIs(c.n, c.greatFloors, a, later + c.feverTime, e);
  }
}
