/** The body tails of a whole chart (gear_optimizer/frontier/producer_kernels.py): state by state from the chart's end, the
    candidates reduced to hull rows and those through the cone filter, and what no stat line of the box loses by it. */
module BodyTails {
  import opened Arithmetic
  import opened BodyHull
  import BodyCone
  import BodyReduce
  import ConeBox
  import Scoring
  import F = FamilyQueues
  import Q = SkylineQueue

  /** One section from a state: what its edge adds, and the state it ends at. */
  datatype Section = Section(edge: Row, next: nat)

  const NOTHING := Row(0, 0, 0, 0)

  function Plus(a: Row, b: Row): Row { Row(a.fever + b.fever, a.normal + b.normal, a.feverGreat + b.feverGreat, 0) }

  function BodyOf(r: Row): ConeBox.Body { ConeBox.Body(r.fever, r.normal, r.feverGreat) }

  function Bodies(rows: seq<Row>): (r: seq<ConeBox.Body>)
    ensures |r| == |rows| && forall i :: 0 <= i < |r| ==> r[i] == BodyOf(rows[i])
  {
    seq(|rows|, i requires 0 <= i < |rows| => BodyOf(rows[i]))
  }

  // ---- One state.

  /** The rows that stay of a reduced frontier: every row of it has one that dominates it at every corner of the stat box. */
  ghost predicate Filtered(reduced: seq<Row>, rows: seq<Row>) {
    && (forall r :: r in rows ==> r in reduced)
    && forall r :: r in reduced ==> ConeCovered(rows, r)
  }

  ghost predicate ConeCovered(rows: seq<Row>, r: Row) {
    exists k :: 0 <= k < |rows| && BodyCone.Dominates(BodyOf(rows[k]), BodyOf(r))
  }

  /** A state's rows: its candidates through the reduce, then through the cone filter; without a candidate the empty
      tail. */
  ghost predicate IsState(batch: seq<Row>, rows: seq<Row>) {
    if batch == [] then rows == [NOTHING]
    else exists reduced :: Within(reduced, batch) && CoversAll(reduced, batch) && Filtered(reduced, rows)
  }

  /** What the pass does at a state once its candidates are touched. `sort` is the cone filter's sort. */
  method KeepState(pairMod: int, touched: seq<int>, best: array<int>, bitValues: array<int>, bitStamps: array<int>, bitStamp: int,
                   sort: seq<ConeBox.Body> -> seq<nat>, ghost stamps: seq<int>, ghost stamp: int, ghost batch: seq<Row>)
    returns (rows: seq<Row>)
    requires best != bitValues && best != bitStamps && bitValues != bitStamps
    requires BodyReduce.Table(best[..], stamps, stamp, touched, batch, pairMod)
    requires pairMod < bitValues.Length && pairMod < bitStamps.Length
    requires forall i :: 0 <= i < bitStamps.Length ==> bitStamps[i] != bitStamp
    requires forall bodies :: BodyCone.IsOrder(bodies, sort(bodies))
    modifies bitValues, bitStamps
    ensures IsState(batch, rows)
    ensures forall i :: 0 <= i < bitStamps.Length ==> bitStamps[i] == old(bitStamps[i]) || bitStamps[i] == bitStamp
  {
    hide CoversAll, IsHull, BodyReduce.TouchedIn, BodyReduce.BatchIn, BodyCone.IsOrder, BodyCone.IsKept, BodyCone.HasDominator, Filtered;
    TouchedOrNone(best[..], stamps, stamp, touched, batch, pairMod);
    if touched == [] {
      return [NOTHING];
    }
    var reduced := BodyReduce.Reduce(pairMod, touched, best, bitValues, bitStamps, bitStamp, stamps, stamp, batch);
    rows := KeepFiltered(reduced, sort);
  }

  lemma TouchedOrNone(best: seq<int>, stamps: seq<int>, stamp: int, touched: seq<int>, batch: seq<Row>, pairMod: int)
    requires BodyReduce.Table(best, stamps, stamp, touched, batch, pairMod)
    ensures touched == [] <==> batch == []
    ensures forall r :: r in batch ==> r.tag == 0
  {
    hide BodyReduce.PairOf, BodyReduce.RowOf;
    if |touched| > 0 {
      var t := touched[0];
      assert t in touched && BodyReduce.RowOf(t, best[t], pairMod) in batch;
    }
    if |batch| > 0 {
      var r := batch[0];
      assert r in batch && BodyReduce.CandidateIn(best, touched, r, pairMod);
      assert BodyReduce.PairOf(r, pairMod) in touched;
    }
  }

  /** The cone filter over a reduced frontier. */
  method KeepFiltered(reduced: seq<Row>, sort: seq<ConeBox.Body> -> seq<nat>) returns (rows: seq<Row>)
    requires (forall bodies :: BodyCone.IsOrder(bodies, sort(bodies))) && forall r :: r in reduced ==> r.tag == 0
    ensures Filtered(reduced, rows)
  {
    hide BodyCone.IsOrder, BodyCone.IsKept, BodyCone.HasDominator, BodyCone.IsSubsequence;
    var values := new ConeBox.Body[|reduced|](i requires 0 <= i < |reduced| => BodyOf(reduced[i]));
    ghost var bodies := Bodies(reduced);
    assert values[..|reduced|] == bodies;
    var kept, indices := BodyCone.BodyConeFilter(values, |reduced|, sort(Bodies(reduced)));
    ghost var left := values[..kept];
    rows := seq(kept, i requires 0 <= i < kept reads values => Row(values[i].fever, values[i].normal, values[i].feverGreat, 0));
    assert Bodies(rows) == left;
    FilteredRows(reduced, indices, rows);
  }

  lemma FilteredRows(reduced: seq<Row>, indices: seq<nat>, rows: seq<Row>)
    requires (forall r :: r in reduced ==> r.tag == 0) && forall r :: r in rows ==> r.tag == 0
    requires BodyCone.IsSubsequence(Bodies(reduced), indices, Bodies(rows))
    requires forall i :: 0 <= i < |reduced| ==> BodyCone.HasDominator(Bodies(reduced), indices, Bodies(reduced)[i])
    ensures Filtered(reduced, rows)
  {
    hide BodyCone.Dominates;
    forall r | r in rows ensures r in reduced {
      var i :| 0 <= i < |rows| && rows[i] == r;
      assert Bodies(rows)[i] == Bodies(reduced)[indices[i]];
      assert reduced[indices[i]] in reduced;
    }
    forall r | r in reduced ensures ConeCovered(rows, r) {
      var i :| 0 <= i < |reduced| && reduced[i] == r;
      assert BodyCone.HasDominator(Bodies(reduced), indices, Bodies(reduced)[i]);
      var k :| 0 <= k < |indices| && indices[k] < |reduced| && BodyCone.Dominates(Bodies(reduced)[indices[k]], Bodies(reduced)[i]);
      assert BodyOf(rows[k]) == Bodies(rows)[k];
    }
  }

  // ---- The whole chart.

  /** Every section leads on, and its counts are counts. */
  ghost predicate Forward(sections: seq<seq<Section>>) {
    forall s, i :: 0 <= s < |sections| && 0 <= i < |sections[s]| ==> LeadsOn(sections, s, i)
  }

  ghost predicate LeadsOn(sections: seq<seq<Section>>, s: nat, i: nat)
    requires s < |sections| && i < |sections[s]|
  {
    var x := sections[s][i];
    s < x.next <= |sections| && x.edge.fever >= 0 && x.edge.normal >= 0 && x.edge.feverGreat >= 0
  }

  /** The body counts of some run of sections from a state until none is left to take. */
  ghost predicate IsBody(sections: seq<seq<Section>>, s: nat, r: Row)
    requires Forward(sections) && s <= |sections|
    decreases |sections| - s
  {
    if s == |sections| || sections[s] == [] then r == NOTHING
    else exists i, tail: Row :: IsRunOf(sections, s, i, tail) && r == Plus(sections[s][i].edge, tail)
  }

  ghost predicate IsRunOf(sections: seq<seq<Section>>, s: nat, i: int, tail: Row)
    requires Forward(sections) && s < |sections|
    decreases |sections| - s, 0
  {
    0 <= i < |sections[s]| && (assert LeadsOn(sections, s, i); IsBody(sections, sections[s][i].next, tail))
  }

  /** A section's edge on a kept tail of the state it ends at. */
  ghost predicate IsExtension(sections: seq<seq<Section>>, kept: seq<seq<Row>>, s: nat, r: Row)
    requires Forward(sections) && s < |sections| < |kept|
  {
    exists i, t :: ExtensionAt(sections, kept, s, i, t, r)
  }

  ghost predicate ExtensionAt(sections: seq<seq<Section>>, kept: seq<seq<Row>>, s: nat, i: int, t: int, r: Row)
    requires Forward(sections) && s < |sections| < |kept|
  {
    && 0 <= i < |sections[s]| && (assert LeadsOn(sections, s, i); 0 <= t < |kept[sections[s][i].next]|)
    && r == Plus(sections[s][i].edge, kept[sections[s][i].next][t])
  }

  /** The candidates of a state are extensions, and cover every extension: what a packet or a queue drops on the way, a
      row it passes on dominates. */
  ghost predicate IsBatch(sections: seq<seq<Section>>, kept: seq<seq<Row>>, s: nat, batch: seq<Row>)
    requires Forward(sections) && s < |sections| < |kept|
  {
    && (forall r :: r in batch ==> IsExtension(sections, kept, s, r))
    && forall r :: IsExtension(sections, kept, s, r) ==> Covers(batch, r)
  }

  /** The kept tails of every state, the empty tail at the chart's end. */
  ghost predicate AreTails(sections: seq<seq<Section>>, kept: seq<seq<Row>>) {
    && Forward(sections) && |kept| == |sections| + 1 && kept[|sections|] == [NOTHING]
    && forall s :: 0 <= s < |sections| ==> StateKept(sections, kept, s)
  }

  ghost predicate StateKept(sections: seq<seq<Section>>, kept: seq<seq<Row>>, s: nat)
    requires Forward(sections) && s < |sections| < |kept|
  {
    exists batch: seq<Row> :: IsBatch(sections, kept, s, batch) && IsState(batch, kept[s])
  }

  // ---- The batch is what the queues' windows hold.

  /** Some packet row of the windows at state s reads as r: `raw` are the packets before their skylines. */
  ghost predicate InWindows(families: seq<F.Family>, raw: seq<seq<seq<Q.Point>>>, s: int, r: Row)
    requires |raw| == |families|
  {
    exists q: nat, a: int, p: Q.Point :: InWindow(families, raw, s, q, a, p) && F.AtState(p, s) == r
  }

  ghost predicate InWindow(families: seq<F.Family>, raw: seq<seq<seq<Q.Point>>>, s: int, q: nat, a: int, p: Q.Point)
    requires |raw| == |families|
  {
    q < |families| && s + families[q].start <= a <= s + families[q].end && p in F.PacketAt(raw[q], a)
  }

  /** Every packet is the skyline of its rows. */
  ghost predicate ArePackets(families: seq<F.Family>, raw: seq<seq<seq<Q.Point>>>)
    requires |raw| == |families|
  {
    forall q, a :: 0 <= q < |families| ==> IsPacket(families[q], raw[q], a)
  }

  ghost predicate IsPacket(f: F.Family, raw: seq<seq<Q.Point>>, a: int) {
    Q.AllFrom(F.PacketAt(f.packets, a), F.PacketAt(raw, a)) && Q.CoversPoints(F.PacketAt(f.packets, a), F.PacketAt(raw, a))
  }

  /** The rows read at a state, as candidates. */
  ghost predicate AreRead(rows: seq<seq<Q.Queued>>, s: int, batch: seq<Row>) {
    && (forall q, i :: 0 <= q < |rows| && 0 <= i < |rows[q]| ==> F.AtState(rows[q][i].point, s) in batch)
    && forall r :: r in batch ==> exists q, i :: 0 <= q < |rows| && 0 <= i < |rows[q]| && F.AtState(rows[q][i].point, s) == r
  }

  /** Where the packet rows of a state's windows are its extensions, what the queues hold of them is a batch: each row read is an
      extension, and every extension is covered, through its packet's skyline and its family's queue. */
  lemma WindowsAreBatch(sections: seq<seq<Section>>, kept: seq<seq<Row>>, s: nat, families: seq<F.Family>, raw: seq<seq<seq<Q.Point>>>,
                        rows: seq<seq<Q.Queued>>, batch: seq<Row>)
    requires Forward(sections) && s < |sections| < |kept| && |raw| == |families| == |rows|
    requires forall r :: IsExtension(sections, kept, s, r) <==> InWindows(families, raw, s, r)
    requires ArePackets(families, raw) && AreRead(rows, s, batch)
    requires forall q :: 0 <= q < |families| ==> F.StateWindow(rows[q], families[q], s)
    ensures IsBatch(sections, kept, s, batch)
  {
    hide IsExtension, Forward, Covers, F.AtState;
    forall r | r in batch ensures IsExtension(sections, kept, s, r) {
      var q: nat, i: nat :| q < |rows| && i < |rows[q]| && F.AtState(rows[q][i].point, s) == r;
      assert F.StateWindow(rows[q], families[q], s) && IsPacket(families[q], raw[q], rows[q][i].activation);
      assert InWindow(families, raw, s, q, rows[q][i].activation, rows[q][i].point);
    }
    forall r | IsExtension(sections, kept, s, r) ensures Covers(batch, r) {
      var q: nat, a: int, p: Q.Point :| InWindow(families, raw, s, q, a, p) && F.AtState(p, s) == r;
      assert IsPacket(families[q], raw[q], a) && F.StateWindow(rows[q], families[q], s);
      WindowCovers(rows[q], families[q], raw[q], s, a, p, batch);
    }
  }

  lemma WindowCovers(rows: seq<Q.Queued>, f: F.Family, raw: seq<seq<Q.Point>>, s: int, a: int, p: Q.Point, batch: seq<Row>)
    requires F.StateWindow(rows, f, s) && s + f.start <= a <= s + f.end && IsPacket(f, raw, a) && p in F.PacketAt(raw, a)
    requires forall i :: 0 <= i < |rows| ==> F.AtState(rows[i].point, s) in batch
    ensures Covers(batch, F.AtState(p, s))
  {
    hide F.StateWindow, Value, F.PacketAt;
    var packet := F.PacketAt(f.packets, a);
    var k :| 0 <= k < |packet| && Q.Dominates(packet[k], p);
    F.ReadCoversWindow(rows, f, s, a, packet[k], batch);
    var x, y := F.AtState(packet[k], s), F.AtState(p, s);
    forall d | IsCost(d) ensures Reaches(batch, d, Value(d, y)) {
      DominatesInValue(d, x, y);
      assert Reaches(batch, d, Value(d, x));
    }
  }

  lemma SomeExtension(sections: seq<seq<Section>>, kept: seq<seq<Row>>, s: nat, batch: seq<Row>)
    requires AreTails(sections, kept) && s < |sections| && IsBatch(sections, kept, s, batch)
    requires forall x :: s < x <= |sections| ==> kept[x] != []
    ensures batch == [] <==> sections[s] == []
  {
    hide Covers, Plus;
    if batch != [] {
      assert batch[0] in batch;
      var i, t :| ExtensionAt(sections, kept, s, i, t, batch[0]);
    }
    if sections[s] != [] {
      assert LeadsOn(sections, s, 0);
      var r := Plus(sections[s][0].edge, kept[sections[s][0].next][0]);
      assert ExtensionAt(sections, kept, s, 0, 0, r);
      CoverNeedsRows(batch, r);
    }
  }

  lemma CoverNeedsRows(rows: seq<Row>, r: Row)
    requires Covers(rows, r)
    ensures rows != []
  {
    var d := Direction(0.0, 0.0, 0.0);
    assert IsCost(d) && Reaches(rows, d, Value(d, r));
  }

  lemma {:induction false} NeverEmpty(sections: seq<seq<Section>>, kept: seq<seq<Row>>, s: nat)
    requires AreTails(sections, kept) && s <= |sections|
    ensures forall x :: s <= x <= |sections| ==> kept[x] != []
    decreases |sections| - s
  {
    hide IsBatch, Covers, CoversAll, BodyCone.Dominates;
    if s < |sections| {
      NeverEmpty(sections, kept, s + 1);
      assert StateKept(sections, kept, s);
      var batch: seq<Row> :| IsBatch(sections, kept, s, batch) && IsState(batch, kept[s]);
      if batch != [] {
        var reduced :| Within(reduced, batch) && CoversAll(reduced, batch) && Filtered(reduced, kept[s]);
        ReducedNotEmpty(reduced, batch, kept[s]);
      }
    }
  }

  lemma ReducedNotEmpty(reduced: seq<Row>, batch: seq<Row>, rows: seq<Row>)
    requires batch != [] && CoversAll(reduced, batch) && Filtered(reduced, rows)
    ensures rows != []
  {
    hide Covers, BodyCone.Dominates;
    assert batch[0] in batch;
    CoverNeedsRows(reduced, batch[0]);
    assert reduced[0] in reduced;
    assert ConeCovered(rows, reduced[0]);
  }

  /** No kept tail is made up: each is the counts of some run, and counts. */
  lemma {:induction false} TailsAreRuns(sections: seq<seq<Section>>, kept: seq<seq<Row>>, s: nat, r: Row)
    requires AreTails(sections, kept) && s <= |sections| && r in kept[s]
    ensures IsBody(sections, s, r) && r.fever >= 0 && r.normal >= 0 && r.feverGreat >= 0
    decreases |sections| - s
  {
    hide Covers, CoversAll, BodyCone.Dominates;
    if s < |sections| {
      assert StateKept(sections, kept, s);
      NeverEmpty(sections, kept, s + 1);
      var batch: seq<Row> :| IsBatch(sections, kept, s, batch) && IsState(batch, kept[s]);
      SomeExtension(sections, kept, s, batch);
      if batch != [] {
        KeptInBatch(batch, kept[s], r);
        var i, t :| ExtensionAt(sections, kept, s, i, t, r);
        assert LeadsOn(sections, s, i);
        TailsAreRuns(sections, kept, sections[s][i].next, kept[sections[s][i].next][t]);
        assert IsRunOf(sections, s, i, kept[sections[s][i].next][t]);
      }
    }
  }

  lemma KeptInBatch(batch: seq<Row>, rows: seq<Row>, r: Row)
    requires batch != [] && IsState(batch, rows) && r in rows
    ensures r in batch
  {
    hide Covers, CoversAll, ConeCovered;
    var reduced :| Within(reduced, batch) && CoversAll(reduced, batch) && Filtered(reduced, rows);
    assert r in reduced;
  }

  // ---- Nothing a stat line of the box can score is lost.

  /** What a stat line pays for body counts: exactly a direction of the score, floors included. */
  function Pays(l: Scoring.Line): Direction {
    var (combo, fever, normalLoss, feverLoss) := BodyCone.Values4(l);
    Direction((fever - combo) as real, normalLoss as real, feverLoss as real)
  }

  lemma PaysIsCost(l: Scoring.Line, c: ConeBox.Cell)
    requires BodyCone.BoxLine(l, c)
    ensures IsCost(Pays(l))
  {
    hide Scoring.Points;
    FeverPaysMore(l);
  }

  lemma FeverPaysMore(l: Scoring.Line)
    requires l.base >= 0.0 && l.combo >= 0.0 && l.fever >= 1.0
    ensures Scoring.Points(l.base, l.combo, l, false) <= Scoring.Points(l.base, l.combo, l, true)
  {
    ScaleMono(1.0, l.fever, l.combo);
    ScaleMono(l.combo, l.combo * l.fever, l.base);
    Scoring.FloorMono(l.base * l.combo, l.base * (l.combo * l.fever));
  }

  lemma PaysExactly(r: Row, l: Scoring.Line)
    ensures BodyCone.Exact(BodyOf(r), l) as real == Value(Pays(l), r)
  {
    hide BodyCone.Values4;
    var (combo, fever, normalLoss, feverLoss) := BodyCone.Values4(l);
    RealProduct(r.fever, fever - combo);
    RealProduct(r.normal, normalLoss);
    RealProduct(r.feverGreat, feverLoss);
  }

  lemma WorthAdds(a: Row, b: Row, l: Scoring.Line)
    ensures BodyCone.Exact(BodyOf(Plus(a, b)), l) == BodyCone.Exact(BodyOf(a), l) + BodyCone.Exact(BodyOf(b), l)
  {
    hide BodyCone.Values4;
    var (combo, fever, normalLoss, feverLoss) := BodyCone.Values4(l);
    BodyCone.IntDistribute(a.fever, b.fever, fever - combo);
    BodyCone.IntDistribute(a.normal, b.normal, normalLoss);
    BodyCone.IntDistribute(a.feverGreat, b.feverGreat, feverLoss);
  }

  lemma GapIsWorth(x: Row, y: Row, l: Scoring.Line)
    ensures BodyCone.Exact(BodyCone.Minus(BodyOf(x), BodyOf(y)), l) == BodyCone.Exact(BodyOf(x), l) - BodyCone.Exact(BodyOf(y), l)
  {
    hide BodyCone.Values4;
    var (combo, fever, normalLoss, feverLoss) := BodyCone.Values4(l);
    BodyCone.IntDistribute(x.fever, -y.fever, fever - combo);
    BodyCone.IntDistribute(x.normal, -y.normal, normalLoss);
    BodyCone.IntDistribute(x.feverGreat, -y.feverGreat, feverLoss);
    assert -y.fever * (fever - combo) == -(y.fever * (fever - combo)) && -y.normal * normalLoss == -(y.normal * normalLoss);
    assert -y.feverGreat * feverLoss == -(y.feverGreat * feverLoss);
  }

  /** A row covered in every direction is covered in what the line pays. */
  lemma CoveredWorth(rows: seq<Row>, r: Row, l: Scoring.Line, c: ConeBox.Cell) returns (k: nat)
    requires Covers(rows, r) && BodyCone.BoxLine(l, c)
    ensures k < |rows| && BodyCone.Exact(BodyOf(rows[k]), l) >= BodyCone.Exact(BodyOf(r), l)
  {
    hide Value, BodyCone.BoxLine, BodyCone.Exact, Pays, IsCost;
    PaysIsCost(l, c);
    assert Reaches(rows, Pays(l), Value(Pays(l), r));
    k :| k < |rows| && Value(Pays(l), rows[k]) >= Value(Pays(l), r);
    PaysExactly(r, l);
    PaysExactly(rows[k], l);
  }

  /** A state's rows are worth as much, at every stat line of the box, as every row its candidates cover. */
  lemma StateWorth(batch: seq<Row>, rows: seq<Row>, r: Row, l: Scoring.Line, c: ConeBox.Cell) returns (k: nat)
    requires batch != [] && IsState(batch, rows) && Covers(batch, r) && BodyCone.BoxLine(l, c)
    ensures k < |rows| && BodyCone.Exact(BodyOf(rows[k]), l) >= BodyCone.Exact(BodyOf(r), l)
  {
    hide Covers, BodyCone.BoxLine, BodyCone.Exact, BodyCone.Dominates;
    var reduced :| Within(reduced, batch) && CoversAll(reduced, batch) && Filtered(reduced, rows);
    var b := CoveredWorth(batch, r, l, c);
    assert batch[b] in batch;
    var q := CoveredWorth(reduced, batch[b], l, c);
    assert reduced[q] in reduced;
    assert ConeCovered(rows, reduced[q]);
    k :| k < |rows| && BodyCone.Dominates(BodyOf(rows[k]), BodyOf(reduced[q]));
    BodyCone.DominatorWorthMore(BodyOf(rows[k]), BodyOf(reduced[q]), l, c);
    GapIsWorth(rows[k], reduced[q], l);
  }

  /** Reducing and filtering state by state loses no run: at every stat line of the box some kept tail is worth, floors
      and all, at least as much as the run's counts. */
  lemma {:induction false} TailsAreLossless(sections: seq<seq<Section>>, kept: seq<seq<Row>>, s: nat, r: Row, l: Scoring.Line, c: ConeBox.Cell)
    returns (k: nat)
    requires AreTails(sections, kept) && s <= |sections| && IsBody(sections, s, r) && BodyCone.BoxLine(l, c)
    ensures k < |kept[s]| && BodyCone.Exact(BodyOf(kept[s][k]), l) >= BodyCone.Exact(BodyOf(r), l)
    decreases |sections| - s
  {
    hide Plus, Covers, IsState, BodyCone.BoxLine, BodyCone.Exact;
    k := 0;
    if s < |sections| {
      assert StateKept(sections, kept, s);
      NeverEmpty(sections, kept, s + 1);
      var batch: seq<Row> :| IsBatch(sections, kept, s, batch) && IsState(batch, kept[s]);
      SomeExtension(sections, kept, s, batch);
      if sections[s] == [] {
        NoCandidates(batch, kept[s]);
      } else {
        var i, tail: Row :| IsRunOf(sections, s, i, tail) && r == Plus(sections[s][i].edge, tail);
        assert LeadsOn(sections, s, i);
        var edge, next := sections[s][i].edge, sections[s][i].next;
        var t := TailsAreLossless(sections, kept, next, tail, l, c);
        assert ExtensionAt(sections, kept, s, i, t, Plus(edge, kept[next][t]));
        k := StateWorth(batch, kept[s], Plus(edge, kept[next][t]), l, c);
        WorthAdds(edge, tail, l);
        WorthAdds(edge, kept[next][t], l);
      }
    }
  }

  lemma NoCandidates(batch: seq<Row>, rows: seq<Row>)
    requires batch == [] && IsState(batch, rows)
    ensures rows == [NOTHING]
  {
  }

  lemma {:induction false} BodiesCount(sections: seq<seq<Section>>, s: nat, r: Row)
    requires Forward(sections) && s <= |sections| && IsBody(sections, s, r)
    ensures r.fever >= 0 && r.normal >= 0 && r.feverGreat >= 0
    decreases |sections| - s
  {
    if s < |sections| && sections[s] != [] {
      var i, tail: Row :| IsRunOf(sections, s, i, tail) && r == Plus(sections[s][i].edge, tail);
      assert LeadsOn(sections, s, i);
      BodiesCount(sections, sections[s][i].next, tail);
    }
  }

  /** Whatever head and counts lead to the state, the play over the best kept tail scores at least as much, note by note
      with its floors, as the play over any run. */
  lemma PlaysAreLossless(sections: seq<seq<Section>>, kept: seq<seq<Row>>, s: nat, r: Row, rest: Scoring.Surface, l: Scoring.Line, c: ConeBox.Cell,
                         headLen: nat, total: nat) returns (k: nat)
    requires AreTails(sections, kept) && s <= |sections| && IsBody(sections, s, r) && BodyCone.BoxLine(l, c)
    requires |rest.words| == 8 && headLen <= Scoring.HEAD_NOTES && headLen <= |l.ramp|
    ensures r.fever >= 0 && r.normal >= 0 && r.feverGreat >= 0 && k < |kept[s]|
    ensures kept[s][k].fever >= 0 && kept[s][k].normal >= 0 && kept[s][k].feverGreat >= 0
    ensures Scoring.SurfaceScore(BodyCone.Play(rest, BodyOf(kept[s][k])), l, headLen, total)
         >= Scoring.SurfaceScore(BodyCone.Play(rest, BodyOf(r)), l, headLen, total)
  {
    hide AreTails, IsBody, BodyCone.BoxLine, BodyCone.Exact, Scoring.BodyScore, Scoring.HeadScore, Forward;
    TailsForward(sections, kept);
    BodiesCount(sections, s, r);
    k := TailsAreLossless(sections, kept, s, r, l, c);
    TailsAreRuns(sections, kept, s, kept[s][k]);
    var x, y := BodyOf(kept[s][k]), BodyOf(r);
    GapIsWorth(kept[s][k], r, l);
    BodyCone.BodyGap(rest, x, y, l, total);
    BodyCone.SameHead(BodyCone.Play(rest, x), BodyCone.Play(rest, y), l, headLen);
  }

  lemma TailsForward(sections: seq<seq<Section>>, kept: seq<seq<Row>>)
    requires AreTails(sections, kept)
    ensures Forward(sections) && |kept| == |sections| + 1
  {
  }

  /** Outside the box the filter does lose directions: a row it drops that is the only best one where Greats cost
      nothing. */
  lemma FilterLosesDirections()
    ensures var x, y := Row(0, 0, 0, 0), Row(1, 100, 0, 0);
            Filtered([x, y], [x]) && CoversAll([x, y], [x, y]) && !Covers([x], y)
  {
    hide Covers, CoversAll;
    var x, y, d := Row(0, 0, 0, 0), Row(1, 100, 0, 0), Direction(1.0, 0.0, 0.0);
    EmptyBeatsGreats();
    BodyCone.DominanceIsReflexive(BodyOf(x));
    assert [x][0] == x && ConeCovered([x], x) && ConeCovered([x], y);
    BothCovered(x, y);
    NotReached(x, y, d);
  }

  lemma EmptyBeatsGreats()
    ensures BodyCone.Dominates(BodyOf(Row(0, 0, 0, 0)), BodyOf(Row(1, 100, 0, 0)))
  {
  }

  lemma BothCovered(x: Row, y: Row)
    ensures CoversAll([x, y], [x, y])
  {
    SelfCovers([x, y], x);
    SelfCovers([x, y], y);
  }

  lemma NotReached(x: Row, y: Row, d: Direction)
    requires IsCost(d) && Value(d, x) < Value(d, y)
    ensures !Covers([x], y)
  {
    assert !Reaches([x], d, Value(d, y));
  }
}
