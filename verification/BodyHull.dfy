/** The body reduce of the frontier producer (gear_optimizer/frontier/producer_kernels.py): candidates packed by pair of
    Great counts, then the skyline with one upper hull per normal-Great count. */
module BodyHull {
  import opened Arithmetic
  import Fenwick

  datatype Counts = Counts(fever: int, great: int, feverGreat: int)

  datatype Row = Row(fever: int, normal: int, feverGreat: int, tag: int)

  /** The weights of a stat line: what a fever note adds, what a normal and a fever Great cost. */
  datatype Direction = Direction(fever: real, normal: real, great: real)

  predicate IsCost(d: Direction) { d.fever >= 0.0 && d.normal >= 0.0 && d.great >= 0.0 }

  function Value(d: Direction, r: Row): real {
    d.fever * r.fever as real - d.normal * r.normal as real - d.great * r.feverGreat as real
  }

  /** Some row is worth at least v. */
  ghost predicate Reaches(rows: seq<Row>, d: Direction, v: real) {
    exists i :: 0 <= i < |rows| && Value(d, rows[i]) >= v
  }

  ghost predicate Covers(rows: seq<Row>, r: Row) {
    forall d :: IsCost(d) ==> Reaches(rows, d, Value(d, r))
  }

  ghost predicate CoversAll(rows: seq<Row>, batch: seq<Row>) {
    forall r :: r in batch ==> Covers(rows, r)
  }

  predicate Dominates(a: Row, b: Row) {
    a.fever >= b.fever && a.normal <= b.normal && a.feverGreat <= b.feverGreat
  }

  /** How far the middle of three rows of one normal-Great count is under the chord of the outer two. */
  function Cross(a: Row, b: Row, c: Row): int {
    (b.fever - a.fever) * (a.feverGreat - c.feverGreat) - (a.feverGreat - b.feverGreat) * (c.fever - a.fever)
  }

  // ---- Arithmetic of the hull.

  lemma RealProduct(x: int, y: int)
    ensures (x * y) as real == (x as real) * (y as real)
  {
  }

  lemma ScaleLess(x: real, y: real, k: real)
    requires x < y && k > 0.0
    ensures x * k < y * k
  {
  }

  /** A point under the chord is not the best in any direction. */
  lemma UnderChord(a: real, q: real, x: real, y: real, X: real, Y: real)
    requires a >= 0.0 && q >= 0.0 && x > 0.0 && y > 0.0 && X * y >= x * Y
    ensures a * x <= q * X || a * y >= q * Y
  {
    if a * x > q * X && a * y < q * Y {
      ScaleLess(q * X, a * x, y);
      ScaleLess(a * y, q * Y, x);
      ScaleMono(x * Y, X * y, q);
    }
  }

  lemma DominatesInValue(d: Direction, a: Row, b: Row)
    requires IsCost(d) && Dominates(a, b)
    ensures Value(d, a) >= Value(d, b)
  {
    ScaleMono(b.fever as real, a.fever as real, d.fever);
    ScaleMono(a.normal as real, b.normal as real, d.normal);
    ScaleMono(a.feverGreat as real, b.feverGreat as real, d.great);
  }

  lemma CrossParts(a: Row, b: Row, c: Row)
    ensures Cross(a, b, c) == (b.feverGreat - a.feverGreat) * (c.fever - b.fever) - (b.fever - a.fever) * (c.feverGreat - b.feverGreat)
  {
    var x, y, X, Y := b.fever - a.fever, c.fever - b.fever, b.feverGreat - a.feverGreat, c.feverGreat - b.feverGreat;
    assert Cross(a, b, c) == x * (0 - X - Y) - (0 - X) * (x + y);
    assert x * (0 - X - Y) == 0 - x * X - x * Y && (0 - X) * (x + y) == 0 - X * x - X * y;
  }

  lemma PoppedValue(d: Direction, a: Row, b: Row, c: Row)
    requires IsCost(d) && a.normal == b.normal == c.normal && a.fever < b.fever < c.fever && Cross(a, b, c) >= 0
    ensures Value(d, b) <= Value(d, a) || Value(d, b) <= Value(d, c)
  {
    hide Cross;
    CrossParts(a, b, c);
    var x, y, X, Y := b.fever - a.fever, c.fever - b.fever, b.feverGreat - a.feverGreat, c.feverGreat - b.feverGreat;
    RealProduct(X, y);
    RealProduct(x, Y);
    UnderChord(d.fever, d.great, x as real, y as real, X as real, Y as real);
    ValueStep(d, a, b);
    ValueStep(d, b, c);
  }

  lemma ValueStep(d: Direction, a: Row, b: Row)
    requires a.normal == b.normal
    ensures Value(d, b) == Value(d, a) + d.fever * ((b.fever - a.fever) as real) - d.great * ((b.feverGreat - a.feverGreat) as real)
  {
    assert d.fever * (b.fever as real - a.fever as real) == d.fever * b.fever as real - d.fever * a.fever as real;
    assert d.great * (b.feverGreat as real - a.feverGreat as real) == d.great * b.feverGreat as real - d.great * a.feverGreat as real;
  }

  // ---- Covering.

  lemma SelfCovers(rows: seq<Row>, r: Row)
    requires r in rows
    ensures Covers(rows, r)
  {
    var i :| 0 <= i < |rows| && rows[i] == r;
    forall d | IsCost(d) ensures Reaches(rows, d, Value(d, r)) { assert Value(d, rows[i]) >= Value(d, r); }
  }

  lemma CoversMore(rows: seq<Row>, last: Row, batch: seq<Row>)
    requires CoversAll(rows, batch)
    ensures CoversAll(rows + [last], batch + [last])
  {
    hide Value;
    forall r | r in batch + [last] ensures Covers(rows + [last], r) {
      if r in batch {
        assert Covers(rows, r);
        forall d | IsCost(d) ensures Reaches(rows + [last], d, Value(d, r)) {
          assert Reaches(rows, d, Value(d, r));
          var i :| 0 <= i < |rows| && Value(d, rows[i]) >= Value(d, r);
          assert (rows + [last])[i] == rows[i];
        }
      } else {
        SelfCovers(rows + [last], r);
      }
    }
  }

  /** A candidate a row of the batch dominates is covered already. */
  lemma CoversDominated(rows: seq<Row>, batch: seq<Row>, e: Row, last: Row)
    requires CoversAll(rows, batch) && e in batch && Dominates(e, last)
    ensures CoversAll(rows, batch + [last])
  {
    hide Value;
    forall d | IsCost(d) ensures Reaches(rows, d, Value(d, last)) {
      DominatesInValue(d, e, last);
      assert Covers(rows, e) && Reaches(rows, d, Value(d, e));
      var i :| 0 <= i < |rows| && Value(d, rows[i]) >= Value(d, e);
      assert Value(d, rows[i]) >= Value(d, last);
    }
    forall r | r in batch + [last] ensures Covers(rows, r) {
      if r in batch { assert Covers(rows, r); }
    }
  }

  /** Popping the top under the chord keeps the cover, the candidate counted in. */
  lemma PopCovers(rows: seq<Row>, last: Row, batch: seq<Row>)
    requires |rows| >= 2 && CoversAll(rows + [last], batch)
    requires var a, b := rows[|rows| - 2], rows[|rows| - 1];
             a.normal == b.normal == last.normal && a.fever < b.fever < last.fever && Cross(a, b, last) >= 0
    ensures CoversAll(rows[..|rows| - 1] + [last], batch)
  {
    hide Value, Cross;
    var fewer, top := rows[..|rows| - 1] + [last], |rows| - 1;
    forall r | r in batch ensures Covers(fewer, r) {
      assert Covers(rows + [last], r);
      forall d | IsCost(d) ensures Reaches(fewer, d, Value(d, r)) {
        assert Reaches(rows + [last], d, Value(d, r));
        var i :| 0 <= i <= |rows| && Value(d, (rows + [last])[i]) >= Value(d, r);
        PoppedValue(d, rows[top - 1], rows[top], last);
        assert fewer[top - 1] == rows[top - 1] && fewer[top] == last;
        if i < top { assert fewer[i] == rows[i]; }
      }
    }
  }

  // ---- The push.

  /** The order candidates are fed in. */
  predicate Precedes(a: Row, b: Row) {
    a.normal < b.normal || (a.normal == b.normal && a.feverGreat < b.feverGreat)
  }

  /** The fever maxima by fever Greats are those of the batch. */
  ghost predicate BestOf(best: seq<int>, batch: seq<Row>) {
    && (forall r :: r in batch ==> 0 <= r.feverGreat < |best| && 0 <= r.fever <= best[r.feverGreat])
    && (forall g :: 0 <= g < |best| && best[g] > -1 ==> exists r :: r in batch && r.feverGreat == g && r.fever == best[g])
  }

  /** No kept row dominates another, and each normal-Great count's rows bend strictly: more fever per fever Great never
      comes later. */
  ghost predicate IsHull(rows: seq<Row>) {
    && (forall i, j :: 0 <= i < j < |rows| ==> Precedes(rows[i], rows[j]) && !Dominates(rows[i], rows[j]) && !Dominates(rows[j], rows[i]))
    && (forall i :: 0 <= i < |rows| - 2 && rows[i].normal == rows[i + 2].normal ==> Cross(rows[i], rows[i + 1], rows[i + 2]) < 0)
  }

  /** The open group is the rows from `start`, of normal-Great count `normal`. */
  ghost predicate IsGroup(rows: seq<Row>, start: nat, normal: int) {
    && start <= |rows|
    && (forall i :: start <= i < |rows| ==> rows[i].normal == normal)
    && (forall i :: 0 <= i < start ==> rows[i].normal < normal)
  }

  ghost predicate Within(rows: seq<Row>, batch: seq<Row>) { forall i :: 0 <= i < |rows| ==> rows[i] in batch }

  /** Kept rows before a candidate that beats every earlier one of no more fever Greats. */
  ghost predicate BeatenBy(rows: seq<Row>, last: Row) {
    forall i :: 0 <= i < |rows| ==> Precedes(rows[i], last) && (rows[i].feverGreat <= last.feverGreat ==> rows[i].fever < last.fever)
  }

  lemma AppendHull(rows: seq<Row>, last: Row, start: nat)
    requires IsHull(rows) && IsGroup(rows, start, last.normal) && BeatenBy(rows, last)
    requires |rows| - start >= 2 ==> Cross(rows[|rows| - 2], rows[|rows| - 1], last) < 0
    ensures IsHull(rows + [last])
  {
    hide Cross;
    var more := rows + [last];
    forall i | 0 <= i < |more| - 2 && more[i].normal == more[i + 2].normal ensures Cross(more[i], more[i + 1], more[i + 2]) < 0 {
      if i < |rows| - 2 { assert rows[i].normal == rows[i + 2].normal; }
    }
  }

  /** Feeds one candidate: kept iff its fever beats every earlier candidate's of no more fever Greats. */
  method Push(stack: seq<Row>, group: (nat, int), point: Row, values: array<int>, stamps: array<int>, stamp: int, limit: nat,
              ghost best: seq<int>, ghost batch: seq<Row>)
    returns (stack': seq<Row>, group': (nat, int))
    requires values != stamps && Fenwick.Valid(values[..], stamps[..], stamp, best) && limit == |best| + 1
    requires point.fever >= 0 && 0 <= point.feverGreat < |best| && group.1 <= point.normal
    requires BestOf(best, batch) && forall r :: r in batch ==> Precedes(r, point)
    requires Within(stack, batch) && CoversAll(stack, batch) && IsHull(stack) && IsGroup(stack, group.0, group.1)
    modifies values, stamps
    ensures Fenwick.Valid(values[..], stamps[..], stamp, Fenwick.Raised(best, point.feverGreat, point.fever))
    ensures BestOf(Fenwick.Raised(best, point.feverGreat, point.fever), batch + [point])
    ensures Within(stack', batch + [point]) && CoversAll(stack', batch + [point]) && IsHull(stack')
    ensures IsGroup(stack', group'.0, group'.1) && group'.1 <= point.normal
    ensures forall i :: 0 <= i < stamps.Length ==> stamps[i] == old(stamps[i]) || stamps[i] == stamp
  {
    hide Fenwick.RangeMax, CoversAll, IsHull, Cross, Value, Fenwick.Valid, BestOf;
    var start, normal := group.0, group.1;
    var top := Fenwick.Query(values, stamps, stamp, point.feverGreat, best);
    stack' := stack;
    if point.fever > top {
      PushedBeats(stack, batch, best, point);
      if point.normal != normal {
        normal := point.normal;
        start := |stack'|;
      }
      CoversMore(stack', point, batch);
      while |stack'| - start >= 2 && Cross(stack'[|stack'| - 2], stack'[|stack'| - 1], point) >= 0
        invariant |stack'| <= |stack| && stack' == stack[..|stack'|] && IsGroup(stack', start, normal)
        invariant CoversAll(stack' + [point], batch + [point])
        invariant values[..] == old(values[..]) && stamps[..] == old(stamps[..])
      {
        PoppedOrder(stack', point, stack);
        PopCovers(stack', point, batch + [point]);
        stack' := stack'[..|stack'| - 1];
      }
      PrefixHull(stack, |stack'|);
      AppendHull(stack', point, start);
      stack' := stack' + [point];
    } else {
      var e := SomeDominator(batch, best, point);
      CoversDominated(stack, batch, e, point);
    }
    BestRaised(best, batch, point);
    Fenwick.Update(values, stamps, stamp, limit, point.feverGreat, point.fever, best);
    group' := (start, normal);
  }

  lemma PrefixHull(rows: seq<Row>, k: nat)
    requires IsHull(rows) && k <= |rows|
    ensures IsHull(rows[..k])
  {
    hide Cross;
  }

  lemma PoppedOrder(rows: seq<Row>, last: Row, all: seq<Row>)
    requires |rows| >= 2 && |rows| <= |all| && rows == all[..|rows|] && IsHull(all) && BeatenBy(all, last)
    requires rows[|rows| - 2].normal == rows[|rows| - 1].normal == last.normal
    ensures rows[|rows| - 2].fever < rows[|rows| - 1].fever < last.fever
  {
    hide Cross;
    assert Precedes(all[|rows| - 2], all[|rows| - 1]) && !Dominates(all[|rows| - 2], all[|rows| - 1]);
  }

  lemma PushedBeats(rows: seq<Row>, batch: seq<Row>, best: seq<int>, point: Row)
    requires Within(rows, batch) && BestOf(best, batch) && 0 <= point.feverGreat < |best|
    requires forall r :: r in batch ==> Precedes(r, point)
    requires point.fever > Fenwick.RangeMax(best, 0, point.feverGreat + 1)
    ensures BeatenBy(rows, point)
  {
    hide Fenwick.RangeMax;
    forall i | 0 <= i < |rows| && rows[i].feverGreat <= point.feverGreat ensures rows[i].fever < point.fever {
      Fenwick.RangeBounds(best, 0, point.feverGreat + 1, rows[i].feverGreat);
    }
  }

  lemma SomeDominator(batch: seq<Row>, best: seq<int>, point: Row) returns (e: Row)
    requires BestOf(best, batch) && 0 <= point.feverGreat < |best| && point.fever >= 0
    requires forall r :: r in batch ==> Precedes(r, point)
    requires point.fever <= Fenwick.RangeMax(best, 0, point.feverGreat + 1)
    ensures e in batch && Dominates(e, point)
  {
    hide Fenwick.RangeMax;
    var g := Fenwick.RangeAttained(best, 0, point.feverGreat + 1);
    e :| e in batch && e.feverGreat == g && e.fever == best[g];
  }

  lemma BestRaised(best: seq<int>, batch: seq<Row>, point: Row)
    requires BestOf(best, batch) && point.fever >= 0 && 0 <= point.feverGreat < |best|
    ensures BestOf(Fenwick.Raised(best, point.feverGreat, point.fever), batch + [point])
  {
    var raised, more := Fenwick.Raised(best, point.feverGreat, point.fever), batch + [point];
    assert more[|batch|] == point;
    forall g | 0 <= g < |raised| && raised[g] > -1 ensures exists r :: r in more && r.feverGreat == g && r.fever == raised[g] {
      if best[g] == raised[g] {
        var r :| r in batch && r.feverGreat == g && r.fever == best[g];
        assert r in more;
      } else {
        assert point in more;
      }
    }
  }
}
