/** The body candidates of one state (gear_optimizer/frontier/producer_kernels.py): touched by pair of Great counts, then
    reduced to hull rows. */
module BodyReduce {
  import opened Arithmetic
  import Fenwick
  import FillRuns
  import opened BodyHull

  function PairOf(r: Row, pairMod: int): int { r.normal * pairMod + r.feverGreat }

  function RowOf(pair: int, fever: int, pairMod: int): Row
    requires pairMod > 0
  {
    Row(fever, pair / pairMod, pair - pair / pairMod * pairMod, 0)
  }

  predicate IsCandidate(r: Row, pairMod: int) { r.fever >= 0 && r.normal >= 0 && 0 <= r.feverGreat < pairMod && r.tag == 0 }

  ghost predicate TouchedIn(best: seq<int>, touched: seq<int>, batch: seq<Row>, pairMod: int)
    requires pairMod > 0
  {
    forall t :: t in touched ==> 0 <= t < |best| && RowOf(t, best[t], pairMod) in batch
  }

  ghost predicate BatchIn(best: seq<int>, touched: seq<int>, batch: seq<Row>, pairMod: int) {
    forall r :: r in batch ==> CandidateIn(best, touched, r, pairMod)
  }

  ghost predicate CandidateIn(best: seq<int>, touched: seq<int>, r: Row, pairMod: int) {
    var t := PairOf(r, pairMod);
    IsCandidate(r, pairMod) && t in touched && 0 <= t < |best| && r.fever <= best[t]
  }

  /** The touched pairs are those of the batch, each with its largest fever. */
  ghost predicate Table(best: seq<int>, stamps: seq<int>, stamp: int, touched: seq<int>, batch: seq<Row>, pairMod: int) {
    && pairMod > 0 && |best| == |stamps|
    && (forall i :: 0 <= i < |stamps| ==> (stamps[i] == stamp <==> i in touched))
    && TouchedIn(best, touched, batch, pairMod) && BatchIn(best, touched, batch, pairMod)
  }

  lemma PairIs(r: Row, pairMod: int)
    requires IsCandidate(r, pairMod)
    ensures PairOf(r, pairMod) >= 0 && RowOf(PairOf(r, pairMod), r.fever, pairMod) == r
  {
    DivOfSum(r.normal, pairMod, r.feverGreat);
  }

  lemma DivOfSum(q: int, m: int, d: int)
    requires q >= 0 && 0 <= d < m
    ensures (q * m + d) / m == q && q * m >= 0
  {
    var p := (q * m + d) / m;
    assert q * m + d == p * m + (q * m + d) % m;
    assert (p - q) * m == p * m - q * m;
    if p < q { MulMono(p - q, -1, m); }
    if p > q { MulMono(1, p - q, m); }
    MulMono(0, q, m);
  }

  /** One section's edge on top of a tail; a pair past the radix raises instead of landing on another pair. */
  method Touch(edge: Counts, tail: Counts, pairMod: int, stamps: array<int>, best: array<int>, touched: seq<int>, stamp: int,
               ghost batch: seq<Row>)
    returns (raised: bool, touched': seq<int>, ghost batch': seq<Row>)
    requires stamps != best && Table(best[..], stamps[..], stamp, touched, batch, pairMod)
    requires edge.fever + tail.fever >= 0
    modifies stamps, best
    ensures var r := Candidate(edge, tail);
            && (raised <==> r.normal >= 0 && (r.feverGreat < 0 || r.feverGreat >= pairMod || PairOf(r, pairMod) >= best.Length))
            && (!raised ==> batch' == if r.normal >= 0 then batch + [r] else batch)
    ensures !raised ==> Table(best[..], stamps[..], stamp, touched', batch', pairMod)
  {
    hide TouchedIn, BatchIn;
    var fever, great, feverGreat := edge.fever + tail.fever, edge.great + tail.great, edge.feverGreat + tail.feverGreat;
    raised, touched', batch' := false, touched, batch;
    if feverGreat > great { return; }
    var normal := great - feverGreat;
    if feverGreat < 0 || feverGreat >= pairMod { raised := true; return; }
    var pair := normal * pairMod + feverGreat;
    ghost var r := Candidate(edge, tail);
    PairIs(r, pairMod);
    if pair < 0 || pair >= best.Length { raised := true; return; }
    if stamps[pair] != stamp {
      stamps[pair] := stamp;
      best[pair] := fever;
      touched' := touched + [pair];
    } else if fever > best[pair] {
      best[pair] := fever;
    }
    batch' := batch + [r];
    TableTouched(old(best[..]), old(stamps[..]), best[..], stamps[..], stamp, touched, batch, pairMod, r);
  }

  function Candidate(edge: Counts, tail: Counts): Row {
    Row(edge.fever + tail.fever, edge.great + tail.great - (edge.feverGreat + tail.feverGreat), edge.feverGreat + tail.feverGreat, 0)
  }

  lemma TableTouched(best: seq<int>, stamps: seq<int>, best': seq<int>, stamps': seq<int>, stamp: int, touched: seq<int>,
                     batch: seq<Row>, pairMod: int, r: Row)
    requires Table(best, stamps, stamp, touched, batch, pairMod) && IsCandidate(r, pairMod) && 0 <= PairOf(r, pairMod) < |best|
    requires var pair := PairOf(r, pairMod);
             stamps' == stamps[pair := stamp]
             && best' == best[pair := if stamps[pair] == stamp && best[pair] >= r.fever then best[pair] else r.fever]
    ensures var pair := PairOf(r, pairMod);
            Table(best', stamps', stamp, if stamps[pair] == stamp then touched else touched + [pair], batch + [r], pairMod)
  {
    hide RowOf, PairOf, TouchedIn, BatchIn;
    PairIs(r, pairMod);
    var pair := PairOf(r, pairMod);
    var touched' := if stamps[pair] == stamp then touched else touched + [pair];
    forall i | 0 <= i < |stamps'| ensures stamps'[i] == stamp <==> i in touched' { }
    TouchedMore(best, best', stamps, stamp, touched, batch, pairMod, r);
    BatchMore(best, best', touched, touched', batch, pairMod, r);
  }

  lemma TouchedMore(best: seq<int>, best': seq<int>, stamps: seq<int>, stamp: int, touched: seq<int>, batch: seq<Row>, pairMod: int, r: Row)
    requires pairMod > 0 && |best| == |stamps| && TouchedIn(best, touched, batch, pairMod) && 0 <= PairOf(r, pairMod) < |best|
    requires var pair := PairOf(r, pairMod);
             RowOf(pair, r.fever, pairMod) == r && (stamps[pair] == stamp <==> pair in touched)
             && best' == best[pair := if stamps[pair] == stamp && best[pair] >= r.fever then best[pair] else r.fever]
    ensures var pair := PairOf(r, pairMod); TouchedIn(best', if stamps[pair] == stamp then touched else touched + [pair], batch + [r], pairMod)
  {
    hide RowOf, PairOf;
    var more := batch + [r];
    assert more[|batch|] == r;
    forall x | x in batch ensures x in more { }
  }

  lemma BatchMore(best: seq<int>, best': seq<int>, touched: seq<int>, touched': seq<int>, batch: seq<Row>, pairMod: int, r: Row)
    requires BatchIn(best, touched, batch, pairMod) && IsCandidate(r, pairMod) && 0 <= PairOf(r, pairMod) < |best| == |best'|
    requires PairOf(r, pairMod) in touched' && r.fever <= best'[PairOf(r, pairMod)]
    requires (forall t :: t in touched ==> t in touched') && forall i :: 0 <= i < |best| && i in touched ==> best[i] <= best'[i]
    ensures BatchIn(best', touched', batch + [r], pairMod)
  {
    hide PairOf, IsCandidate;
    forall x | x in batch + [r] ensures CandidateIn(best', touched', x, pairMod) {
      if x in batch { assert CandidateIn(best, touched, x, pairMod); }
    }
  }

  // ---- The reduce.

  function Largest(s: seq<int>): (m: int)
    ensures m >= 0 && (forall i :: 0 <= i < |s| ==> s[i] <= m) && (m == 0 || exists i :: 0 <= i < |s| && s[i] == m)
  {
    if s == [] then 0 else Max(Largest(s[..|s| - 1]), s[|s| - 1])
  }

  lemma PairOrder(t: int, u: int, pairMod: int, f: int, g: int)
    requires pairMod > 0 && 0 <= t < u
    ensures Precedes(RowOf(t, f, pairMod), RowOf(u, g, pairMod))
    ensures RowOf(t, f, pairMod).normal >= 0 && 0 <= RowOf(t, f, pairMod).feverGreat == t % pairMod < pairMod
    ensures RowOf(u, g, pairMod).normal >= 0
  {
    var q, p := t / pairMod, u / pairMod;
    assert (p + 1) * pairMod == p * pairMod + pairMod;
    if q > p { MulMono(p + 1, q, pairMod); }
  }

  lemma PairRange(t: int, pairMod: int, f: int)
    requires pairMod > 0 && 0 <= t
    ensures RowOf(t, f, pairMod).normal >= 0 && 0 <= RowOf(t, f, pairMod).feverGreat == t % pairMod < pairMod
  {
  }

  /** The pairs in ascending order, as rows. */
  function Representatives(order: seq<int>, best: seq<int>, pairMod: int): (s: seq<Row>)
    requires pairMod > 0 && forall i :: 0 <= i < |order| ==> 0 <= order[i] < |best|
    ensures |s| == |order|
    ensures forall i :: 0 <= i < |s| ==> s[i] == RowOf(order[i], best[order[i]], pairMod)
  {
    seq(|order|, i requires 0 <= i < |order| => RowOf(order[i], best[order[i]], pairMod))
  }

  /** The kept rows are candidates, reach every candidate in every direction, and none is dominated or under a chord. */
  method Reduce(pairMod: int, touched: seq<int>, best: array<int>, bitValues: array<int>, bitStamps: array<int>, bitStamp: int,
                ghost stamps: seq<int>, ghost stamp: int, ghost batch: seq<Row>)
    returns (stack: seq<Row>)
    requires best != bitValues && best != bitStamps && bitValues != bitStamps
    requires Table(best[..], stamps, stamp, touched, batch, pairMod)
    requires pairMod < bitValues.Length && pairMod < bitStamps.Length
    requires forall i :: 0 <= i < bitStamps.Length ==> bitStamps[i] != bitStamp
    modifies bitValues, bitStamps
    ensures Within(stack, batch) && CoversAll(stack, batch) && IsHull(stack)
    ensures forall i :: 0 <= i < bitStamps.Length ==> bitStamps[i] == old(bitStamps[i]) || bitStamps[i] == bitStamp
  {
    hide CoversAll, IsHull, RowOf, Precedes, Largest, FillRuns.Unique, FillRuns.Ascending, BatchIn, TouchedIn;
    var order := FillRuns.Unique(touched);
    CandidatesIn(order, best[..], stamps, stamp, touched, batch, pairMod);
    ghost var rows := Representatives(order, best[..], pairMod);
    OrderOfRows(order, best[..], pairMod);
    var greatest := Largest(seq(|order|, i requires 0 <= i < |order| => order[i] % pairMod));
    LargestGreat(order, best[..], pairMod, greatest);
    stack := FeedAll(pairMod, order, best, greatest, bitValues, bitStamps, bitStamp, rows);
    CoversBatch(stack, rows, order, best[..], stamps, stamp, touched, batch, pairMod);
  }

  /** Pushes the pairs in order, over the fever Greats they have. */
  method FeedAll(pairMod: int, order: seq<int>, best: array<int>, greatest: nat, bitValues: array<int>, bitStamps: array<int>,
                 bitStamp: int, ghost rows: seq<Row>)
    returns (stack: seq<Row>)
    requires best != bitValues && best != bitStamps && bitValues != bitStamps
    requires pairMod > 0 && forall i :: 0 <= i < |order| ==> 0 <= order[i] < best.Length
    requires rows == Representatives(order, best[..], pairMod)
    requires forall i, j :: 0 <= i < j < |rows| ==> Precedes(rows[i], rows[j])
    requires forall i :: 0 <= i < |rows| ==> rows[i].normal >= 0 && rows[i].fever >= 0 && 0 <= rows[i].feverGreat <= greatest
    requires greatest + 1 < bitValues.Length && greatest + 1 < bitStamps.Length
    requires forall i :: 0 <= i < bitStamps.Length ==> bitStamps[i] != bitStamp
    modifies bitValues, bitStamps
    ensures Within(stack, rows) && CoversAll(stack, rows) && IsHull(stack)
    ensures forall i :: 0 <= i < bitStamps.Length ==> bitStamps[i] == old(bitStamps[i]) || bitStamps[i] == bitStamp
  {
    hide Fenwick.Valid, Fenwick.Raised, CoversAll, IsHull, IsGroup, BestOf, RowOf, Precedes;
    stack := [];
    var limit := greatest + 2;
    ghost var maxima := Fenwick.Nothing(greatest + 1);
    Fenwick.FreshStamp(bitValues[..], bitStamps[..], bitStamp, greatest + 1);
    var group := (0, -1);
    EmptyHull(maxima);
    for i := 0 to |order|
      invariant best[..] == old(best[..]) && |maxima| == greatest + 1
      invariant Fenwick.Valid(bitValues[..], bitStamps[..], bitStamp, maxima) && BestOf(maxima, rows[..i])
      invariant Within(stack, rows[..i]) && CoversAll(stack, rows[..i]) && IsHull(stack) && IsGroup(stack, group.0, group.1)
      invariant i < |order| ==> group.1 <= rows[i].normal
      invariant forall k :: 0 <= k < bitStamps.Length ==> bitStamps[k] == old(bitStamps[k]) || bitStamps[k] == bitStamp
    {
      var pair := order[i];
      var point := RowOf(pair, best[pair], pairMod);
      assert point == rows[i] && rows[..i] + [point] == rows[..i + 1];
      ghost var before := maxima;
      maxima := Fenwick.Raised(maxima, point.feverGreat, point.fever);
      stack, group := Push(stack, group, point, bitValues, bitStamps, bitStamp, limit, before, rows[..i]);
      RaisedSize(before, point.feverGreat, point.fever);
      if i + 1 < |order| { NormalsRise(rows[i], rows[i + 1]); }
    }
    assert rows[..|order|] == rows;
  }

  lemma RaisedSize(best: seq<int>, idx: nat, value: int)
    requires idx < |best|
    ensures |Fenwick.Raised(best, idx, value)| == |best|
  {
  }

  lemma NormalsRise(a: Row, b: Row)
    requires Precedes(a, b)
    ensures a.normal <= b.normal
  {
  }

  lemma EmptyHull(best: seq<int>)
    requires forall i :: 0 <= i < |best| ==> best[i] == -1
    ensures BestOf(best, []) && CoversAll([], []) && IsHull([]) && IsGroup([], 0, -1)
  {
  }

  lemma OrderOfRows(order: seq<int>, best: seq<int>, pairMod: int)
    requires pairMod > 0 && FillRuns.Ascending(order) && forall i :: 0 <= i < |order| ==> 0 <= order[i] < |best|
    ensures var rows := Representatives(order, best, pairMod);
            forall i, j :: 0 <= i < j < |rows| ==> Precedes(rows[i], rows[j])
    ensures forall i :: 0 <= i < |order| ==> Representatives(order, best, pairMod)[i].normal >= 0
  {
    hide RowOf, Precedes;
    forall i | 0 <= i < |order| ensures Representatives(order, best, pairMod)[i].normal >= 0 { PairRange(order[i], pairMod, best[order[i]]); }
    forall i, j | 0 <= i < j < |order| ensures Precedes(RowOf(order[i], best[order[i]], pairMod), RowOf(order[j], best[order[j]], pairMod)) {
      PairOrder(order[i], order[j], pairMod, best[order[i]], best[order[j]]);
    }
  }

  lemma TouchedCandidate(best: seq<int>, touched: seq<int>, batch: seq<Row>, pairMod: int, t: int)
    requires pairMod > 0 && TouchedIn(best, touched, batch, pairMod) && BatchIn(best, touched, batch, pairMod) && t in touched
    ensures 0 <= t < |best| && best[t] >= 0 && RowOf(t, best[t], pairMod) in batch && RowOf(t, best[t], pairMod).fever == best[t]
  {
    hide PairOf, RowOf, TouchedIn, BatchIn;
    TouchedHas(best, touched, batch, pairMod, t);
    BatchHas(best, touched, batch, pairMod, RowOf(t, best[t], pairMod));
    FeverOf(t, best[t], pairMod);
  }

  lemma TouchedHas(best: seq<int>, touched: seq<int>, batch: seq<Row>, pairMod: int, t: int)
    requires pairMod > 0 && TouchedIn(best, touched, batch, pairMod) && t in touched
    ensures 0 <= t < |best| && RowOf(t, best[t], pairMod) in batch
  {
  }

  lemma BatchHas(best: seq<int>, touched: seq<int>, batch: seq<Row>, pairMod: int, r: Row)
    requires BatchIn(best, touched, batch, pairMod) && r in batch
    ensures IsCandidate(r, pairMod) && CandidateIn(best, touched, r, pairMod)
  {
  }

  lemma CandidatesIn(order: seq<int>, best: seq<int>, stamps: seq<int>, stamp: int, touched: seq<int>, batch: seq<Row>, pairMod: int)
    requires Table(best, stamps, stamp, touched, batch, pairMod) && forall t :: t in order <==> t in touched
    ensures forall i :: 0 <= i < |order| ==> order[i] in touched && 0 <= order[i] < |best| && best[order[i]] >= 0
    ensures forall r :: r in Representatives(order, best, pairMod) ==> r in batch && r.fever >= 0
  {
    hide RowOf, PairOf, TouchedIn, BatchIn;
    forall i | 0 <= i < |order|
      ensures order[i] in touched && 0 <= order[i] < |best| && best[order[i]] >= 0
      ensures RowOf(order[i], best[order[i]], pairMod) in batch && RowOf(order[i], best[order[i]], pairMod).fever >= 0
    {
      assert order[i] in order;
      TouchedCandidate(best, touched, batch, pairMod, order[i]);
    }
  }

  lemma FeverOf(pair: int, fever: int, pairMod: int)
    requires pairMod > 0
    ensures RowOf(pair, fever, pairMod).fever == fever
  {
  }

  lemma LargestGreat(order: seq<int>, best: seq<int>, pairMod: int, greatest: int)
    requires pairMod > 0 && forall i :: 0 <= i < |order| ==> 0 <= order[i] < |best|
    requires greatest == Largest(seq(|order|, i requires 0 <= i < |order| => order[i] % pairMod))
    ensures greatest < pairMod && forall i :: 0 <= i < |order| ==> 0 <= Representatives(order, best, pairMod)[i].feverGreat <= greatest
  {
    hide RowOf;
    var greats := seq(|order|, i requires 0 <= i < |order| => order[i] % pairMod);
    forall i | 0 <= i < |order| ensures 0 <= Representatives(order, best, pairMod)[i].feverGreat <= greatest {
      PairRange(order[i], pairMod, best[order[i]]);
      assert greats[i] <= greatest;
    }
  }

  lemma CoversBatch(stack: seq<Row>, rows: seq<Row>, order: seq<int>, best: seq<int>, stamps: seq<int>, stamp: int, touched: seq<int>,
                    batch: seq<Row>, pairMod: int)
    requires Table(best, stamps, stamp, touched, batch, pairMod) && forall t :: t in order <==> t in touched
    requires forall i :: 0 <= i < |order| ==> 0 <= order[i] < |best|
    requires rows == Representatives(order, best, pairMod) && CoversAll(stack, rows)
    ensures CoversAll(stack, batch)
  {
    hide RowOf, PairOf, Value, BatchIn, TouchedIn;
    forall r | r in batch ensures Covers(stack, r) {
      BatchHas(best, touched, batch, pairMod, r);
      PairIs(r, pairMod);
      var i :| 0 <= i < |order| && order[i] == PairOf(r, pairMod);
      SamePair(PairOf(r, pairMod), r.fever, best[order[i]], pairMod);
      assert rows[i] in rows;
      CoversDominated(stack, rows, rows[i], r);
      assert r in rows + [r];
    }
  }

  lemma SamePair(pair: int, f: int, g: int, pairMod: int)
    requires pairMod > 0 && f <= g
    ensures Dominates(RowOf(pair, g, pairMod), RowOf(pair, f, pairMod))
  {
  }

  /** In every direction the kept rows have the batch's maximum. */
  lemma SameMaximum(kept: seq<Row>, batch: seq<Row>, d: Direction, v: real)
    requires Within(kept, batch) && CoversAll(kept, batch) && IsCost(d)
    ensures (forall r :: r in batch ==> Value(d, r) <= v) <==> (forall r :: r in kept ==> Value(d, r) <= v)
  {
    hide Value;
    forall r | r in batch && (forall k :: k in kept ==> Value(d, k) <= v) ensures Value(d, r) <= v {
      assert Covers(kept, r) && Reaches(kept, d, Value(d, r));
      var i :| 0 <= i < |kept| && Value(d, kept[i]) >= Value(d, r);
      assert kept[i] in kept;
    }
  }
}
