/** The exact structural pass over a state's frontier (gear_optimizer/frontier/producer_kernels.py), and why a dominating
    row never scores less (gear_optimizer/score.py). */
module StructuralPrune {
  import opened Arithmetic
  import opened Words
  import opened SurfaceRows
  import Scoring

  function Normal(r: Row): int { r.bodyGreat - r.bodyFeverGreat }

  /** In both masks. */
  function Overlap(r: Row): (nat, nat)
    requires IsRow(r)
  {
    (And(r.fever[0], r.great[0]), And(r.fever[1], r.great[1]))
  }

  /** The kernel's mask test: equal overlap, no fever note of c's missing in k, no Great of k's missing in c. */
  predicate PatternDominates(k: Row, c: Row)
    requires IsRow(k) && IsRow(c)
  {
    && Overlap(k) == Overlap(c)
    && And(c.fever[0], Not(k.fever[0])) == 0 && And(c.fever[1], Not(k.fever[1])) == 0
    && And(k.great[0], Not(c.great[0])) == 0 && And(k.great[1], Not(c.great[1])) == 0
  }

  predicate Dominates(k: Row, c: Row)
    requires IsRow(k) && IsRow(c)
  {
    k.bodyFever >= c.bodyFever && Normal(k) <= Normal(c) && k.bodyFeverGreat <= c.bodyFeverGreat && PatternDominates(k, c)
  }

  // ---- Masks as sets of notes.

  ghost predicate Inside(small: seq<nat>, big: seq<nat>)
    requires |small| == 2 && |big| == 2
  {
    Within(small[0], big[0]) && Within(small[1], big[1])
  }

  lemma PatternBits(k: Row, c: Row)
    requires IsRow(k) && IsRow(c)
    ensures PatternDominates(k, c) <==> Overlap(k) == Overlap(c) && Inside(c.fever, k.fever) && Inside(k.great, c.great)
  {
    hide And, Not, Within, Overlap, IsWord;
    MissingBits(c.fever[0], k.fever[0]);
    MissingBits(c.fever[1], k.fever[1]);
    MissingBits(k.great[0], c.great[0]);
    MissingBits(k.great[1], c.great[1]);
  }

  lemma InsideTransitive(a: seq<nat>, b: seq<nat>, c: seq<nat>)
    requires |a| == 2 && |b| == 2 && |c| == 2 && Inside(a, b) && Inside(b, c)
    ensures Inside(a, c)
  {
    hide Bit;
  }

  lemma InsideItself(a: seq<nat>)
    requires |a| == 2
    ensures Inside(a, a)
  {
    hide Bit;
  }

  lemma DominatesTransitive(a: Row, b: Row, c: Row)
    requires IsRow(a) && IsRow(b) && IsRow(c) && Dominates(a, b) && Dominates(b, c)
    ensures Dominates(a, c)
  {
    hide PatternDominates, Overlap, Inside;
    PatternBits(a, b);
    PatternBits(b, c);
    PatternBits(a, c);
    InsideTransitive(c.fever, b.fever, a.fever);
    InsideTransitive(a.great, b.great, c.great);
  }

  lemma DominatesItself(a: Row)
    requires IsRow(a)
    ensures Dominates(a, a)
  {
    hide PatternDominates, Overlap, Inside;
    PatternBits(a, a);
    InsideItself(a.fever);
    InsideItself(a.great);
  }

  // ---- The order: a dominator comes first.

  /** A subset has fewer bits, or is the whole. */
  lemma {:induction false} PopcountWithin(small: nat, big: nat)
    requires Within(small, big)
    ensures Popcount(small) <= Popcount(big) && (Popcount(small) == Popcount(big) ==> small == big)
    decreases small + big
  {
    if small != 0 || big != 0 {
      assert Within(small / 2, big / 2) by {
        forall b: nat | Bit(small / 2, b) ensures Bit(big / 2, b) { assert Bit(small, b + 1); assert Bit(big, b + 1); }
      }
      assert Bit(small, 0) ==> Bit(big, 0);
      PopcountWithin(small / 2, big / 2);
    }
  }

  lemma {:induction false} PopcountBound(w: nat, n: nat)
    requires w < Pow2(n)
    ensures Popcount(w) <= n
  {
    if n > 0 && w > 0 { PopcountBound(w / 2, n - 1); }
  }

  /** The pattern rank: Great bits minus fever bits. */
  function Rank(r: Row): int
    requires IsRow(r)
  {
    128 + Popcount(r.great[0]) + Popcount(r.great[1]) - Popcount(r.fever[0]) - Popcount(r.fever[1])
  }

  predicate InRange(r: Row, radix: nat) {
    IsRow(r) && r.bodyFever < radix && Normal(r) < radix && r.bodyFeverGreat < radix
  }

  const RANKS := 257

  function RankKey(r: Row, radix: nat): int
    requires IsRow(r)
  {
    Packed(Packed(Packed(radix - 1 - r.bodyFever, Normal(r), radix), r.bodyFeverGreat, radix), Rank(r), RANKS)
  }

  function Packed(high: int, low: int, radix: int): int { high * radix + low }

  /** A packed pair is ordered by its high part first. */
  lemma PackedOrder(h: int, l: int, h': int, l': int, radix: int)
    requires 0 <= l < radix && 0 <= l' < radix
    ensures h < h' ==> Packed(h, l, radix) < Packed(h', l', radix)
    ensures h == h' && l < l' ==> Packed(h, l, radix) < Packed(h', l', radix)
    ensures Packed(h, l, radix) <= Packed(h', l', radix) ==> h <= h'
  {
    MultipleStep(h, h', radix);
    MultipleStep(h', h, radix);
  }

  lemma MultipleStep(h: int, h': int, radix: int)
    requires radix > 0
    ensures h < h' ==> h * radix + radix <= h' * radix
  {
    if h < h' { assert (h' - h - 1) * radix >= 0; }
  }

  lemma RankRange(r: Row)
    requires IsRow(r)
    ensures 0 <= Rank(r) < RANKS
  {
    hide Popcount, Pow2;
    PopcountBound(r.great[0], 64);
    PopcountBound(r.great[1], 64);
    PopcountBound(r.fever[0], 64);
    PopcountBound(r.fever[1], 64);
  }

  lemma RankOfDominator(k: Row, c: Row)
    requires IsRow(k) && IsRow(c) && PatternDominates(k, c)
    ensures Rank(k) <= Rank(c) && (Rank(k) == Rank(c) ==> k.fever == c.fever && k.great == c.great)
  {
    hide Popcount, And, Not, Bit, Within;
    PatternBits(k, c);
    PopcountWithin(c.fever[0], k.fever[0]);
    PopcountWithin(c.fever[1], k.fever[1]);
    PopcountWithin(k.great[0], c.great[0]);
    PopcountWithin(k.great[1], c.great[1]);
  }

  lemma DominatorFirst(k: Row, c: Row, radix: nat)
    requires InRange(k, radix) && InRange(c, radix) && Dominates(k, c)
    ensures k == c || RankKey(k, radix) < RankKey(c, radix)
  {
    hide Packed, Rank, PatternDominates;
    RankRange(k);
    RankRange(c);
    RankOfDominator(k, c);
    var a, b := Packed(radix - 1 - k.bodyFever, Normal(k), radix), Packed(radix - 1 - c.bodyFever, Normal(c), radix);
    PackedOrder(radix - 1 - k.bodyFever, Normal(k), radix - 1 - c.bodyFever, Normal(c), radix);
    PackedOrder(a, k.bodyFeverGreat, b, c.bodyFeverGreat, radix);
    PackedOrder(Packed(a, k.bodyFeverGreat, radix), Rank(k), Packed(b, c.bodyFeverGreat, radix), Rank(c), RANKS);
  }

  /** Earlier in the order, so at least as much body fever. */
  lemma OrderedFever(k: Row, c: Row, radix: nat)
    requires InRange(k, radix) && InRange(c, radix) && RankKey(k, radix) <= RankKey(c, radix)
    ensures k.bodyFever >= c.bodyFever
  {
    hide Packed, Rank;
    RankRange(k);
    RankRange(c);
    var a, b := Packed(radix - 1 - k.bodyFever, Normal(k), radix), Packed(radix - 1 - c.bodyFever, Normal(c), radix);
    PackedOrder(Packed(a, k.bodyFeverGreat, radix), Rank(k), Packed(b, c.bodyFeverGreat, radix), Rank(c), RANKS);
    PackedOrder(a, k.bodyFeverGreat, b, c.bodyFeverGreat, radix);
    PackedOrder(radix - 1 - k.bodyFever, Normal(k), radix - 1 - c.bodyFever, Normal(c), radix);
  }

  // ---- The pass.

  /** A sort of the rows by rank key, ties in any order. */
  ghost predicate IsOrder(rows: seq<Row>, radix: nat, order: seq<nat>) {
    && |order| == |rows| && (forall i :: 0 <= i < |rows| ==> InRange(rows[i], radix) && i in order)
    && (forall p :: 0 <= p < |order| ==> order[p] < |rows|)
    && (forall p, q :: 0 <= p < q < |order| ==> order[p] != order[q] && RankKey(rows[order[p]], radix) <= RankKey(rows[order[q]], radix))
  }

  ghost predicate Undominated(rows: seq<Row>, c: Row)
    requires IsRow(c) && forall i :: 0 <= i < |rows| ==> IsRow(rows[i])
  {
    forall i :: 0 <= i < |rows| && Dominates(rows[i], c) ==> rows[i] == c
  }

  ghost predicate HasDominator(kept: seq<Row>, c: Row)
    requires IsRow(c) && forall i :: 0 <= i < |kept| ==> IsRow(kept[i])
  {
    exists i :: 0 <= i < |kept| && Dominates(kept[i], c)
  }

  predicate AllRows(rows: seq<Row>) { forall i :: 0 <= i < |rows| ==> IsRow(rows[i]) }

  /** The kernel's test of a kept row, which leaves the body fever to the order. */
  predicate Tested(k: Row, c: Row)
    requires IsRow(k) && IsRow(c)
  {
    Normal(k) <= Normal(c) && k.bodyFeverGreat <= c.bodyFeverGreat && PatternDominates(k, c)
  }

  method KeptDominates(rows: seq<Row>, radix: nat, order: seq<nat>, p: nat, out: seq<Row>) returns (dominated: bool)
    requires AllRows(rows) && IsOrder(rows, radix, order) && p < |order| && AllRows(out)
    requires forall k :: 0 <= k < |out| ==> FromOrder(rows, order, p, out[k])
    ensures dominated <==> HasDominator(out, rows[order[p]])
  {
    hide Dominates, RankKey, Tested, IsRow, IsOrder, FromOrder;
    OrderIn(rows, radix, order);
    var c := rows[order[p]];
    for k := 0 to |out|
      invariant forall j :: 0 <= j < k ==> !Dominates(out[j], c)
    {
      TestedIs(rows, radix, order, p, out[k]);
      if Tested(out[k], c) { return true; }
    }
    dominated := false;
  }

  lemma OrderIn(rows: seq<Row>, radix: nat, order: seq<nat>)
    requires IsOrder(rows, radix, order)
    ensures |order| == |rows| && forall p :: 0 <= p < |order| ==> order[p] < |rows|
  {
    hide RankKey, InRange;
  }

  /** Keeps exactly the rows no other row dominates, one of identical ones. */
  method Prune(rows: seq<Row>, radix: nat, order: seq<nat>) returns (out: seq<Row>)
    requires AllRows(rows) && IsOrder(rows, radix, order)
    ensures AllRows(out) && (forall i, j :: 0 <= i < j < |out| ==> out[i] != out[j])
    ensures forall x :: x in out <==> x in rows && IsRow(x) && Undominated(rows, x)
    ensures forall i :: 0 <= i < |rows| ==> HasDominator(out, rows[i])
  {
    hide Dominates, IsRow, HasDominator, Undominated, IsOrder;
    out := [];
    OrderIn(rows, radix, order);
    for p := 0 to |order|
      invariant AllRows(out) && (forall i, j :: 0 <= i < j < |out| ==> out[i] != out[j])
      invariant forall k :: 0 <= k < |out| ==> Undominated(rows, out[k]) && FromOrder(rows, order, p, out[k])
      invariant forall q :: 0 <= q < p ==> HasDominator(out, rows[order[q]])
    {
      var c := rows[order[p]];
      var dominated := KeptDominates(rows, radix, order, p, out);
      KeepStep(rows, radix, order, p, out, dominated);
      if !dominated {
        assert FromOrder(rows, order, p + 1, c);
        out := out + [c];
      }
    }
    AllKept(rows, radix, order, out);
  }

  ghost predicate FromOrder(rows: seq<Row>, order: seq<nat>, p: nat, x: Row) {
    exists q :: 0 <= q < p && q < |order| && order[q] < |rows| && rows[order[q]] == x
  }

  lemma TestedIs(rows: seq<Row>, radix: nat, order: seq<nat>, p: nat, k: Row)
    requires AllRows(rows) && IsOrder(rows, radix, order) && p < |order| && FromOrder(rows, order, p, k)
    ensures IsRow(k) && (Tested(k, rows[order[p]]) <==> Dominates(k, rows[order[p]]))
  {
    hide RankKey, PatternDominates;
    var q :| 0 <= q < p && q < |order| && order[q] < |rows| && rows[order[q]] == k;
    OrderedFever(k, rows[order[p]], radix);
  }

  lemma KeepStep(rows: seq<Row>, radix: nat, order: seq<nat>, p: nat, out: seq<Row>, dominated: bool)
    requires AllRows(rows) && IsOrder(rows, radix, order) && p < |order| && AllRows(out)
    requires forall q :: 0 <= q < p ==> HasDominator(out, rows[order[q]])
    requires dominated <==> HasDominator(out, rows[order[p]])
    ensures !dominated ==> Undominated(rows, rows[order[p]]) && HasDominator(out + [rows[order[p]]], rows[order[p]])
    ensures !dominated ==> forall k :: 0 <= k < |out| ==> out[k] != rows[order[p]]
    ensures !dominated ==> forall q :: 0 <= q < p ==> HasDominator(out + [rows[order[p]]], rows[order[q]])
  {
    hide Dominates, RankKey, IsRow;
    var c, more := rows[order[p]], out + [rows[order[p]]];
    DominatesItself(c);
    assert more[|out|] == c;
    if !dominated {
      forall q | 0 <= q < p ensures HasDominator(more, rows[order[q]]) {
        var k :| 0 <= k < |out| && Dominates(out[k], rows[order[q]]);
        assert more[k] == out[k];
      }
      forall i | 0 <= i < |rows| && Dominates(rows[i], c) ensures rows[i] == c {
        assert i in order;
        var q :| 0 <= q < |order| && order[q] == i;
        DominatorFirst(rows[i], c, radix);
        if q < p {
          var k :| 0 <= k < |out| && Dominates(out[k], rows[order[q]]);
          DominatesTransitive(out[k], rows[i], c);
        }
      }
    }
  }

  lemma AllKept(rows: seq<Row>, radix: nat, order: seq<nat>, out: seq<Row>)
    requires AllRows(rows) && IsOrder(rows, radix, order) && AllRows(out)
    requires forall k :: 0 <= k < |out| ==> Undominated(rows, out[k]) && FromOrder(rows, order, |order|, out[k])
    requires forall q :: 0 <= q < |order| ==> HasDominator(out, rows[order[q]])
    ensures forall x :: x in out <==> x in rows && IsRow(x) && Undominated(rows, x)
    ensures forall i :: 0 <= i < |rows| ==> HasDominator(out, rows[i])
  {
    hide IsRow, IsOrder, HasDominator, Undominated, FromOrder;
    EachDominated(rows, radix, order, out);
    forall x | x in out ensures x in rows && IsRow(x) && Undominated(rows, x) {
      var k :| 0 <= k < |out| && out[k] == x;
      FromRows(rows, order, x);
    }
    forall x | x in rows && IsRow(x) && Undominated(rows, x) ensures x in out {
      var i :| 0 <= i < |rows| && rows[i] == x;
      OwnDominator(rows, order, out, x);
    }
  }

  lemma EachDominated(rows: seq<Row>, radix: nat, order: seq<nat>, out: seq<Row>)
    requires AllRows(rows) && IsOrder(rows, radix, order) && AllRows(out)
    requires forall q :: 0 <= q < |order| ==> HasDominator(out, rows[order[q]])
    ensures forall i :: 0 <= i < |rows| ==> HasDominator(out, rows[i])
  {
    hide RankKey, InRange, IsRow, HasDominator;
    forall i | 0 <= i < |rows| ensures HasDominator(out, rows[i]) {
      assert i in order;
      var q :| 0 <= q < |order| && order[q] == i;
    }
  }

  lemma FromRows(rows: seq<Row>, order: seq<nat>, x: Row)
    requires AllRows(rows) && FromOrder(rows, order, |order|, x)
    ensures x in rows && IsRow(x)
  {
    hide IsRow;
  }

  lemma OwnDominator(rows: seq<Row>, order: seq<nat>, out: seq<Row>, x: Row)
    requires AllRows(rows) && AllRows(out) && IsRow(x) && Undominated(rows, x) && HasDominator(out, x)
    requires forall k :: 0 <= k < |out| ==> FromOrder(rows, order, |order|, out[k])
    ensures x in out
  {
    hide IsRow, Dominates;
    var k :| 0 <= k < |out| && Dominates(out[k], x);
    assert FromOrder(rows, order, |order|, out[k]);
    var q :| 0 <= q < |order| && order[q] < |rows| && rows[order[q]] == out[k];
  }

  // ---- A dominating row never scores less.

  lemma WithinBit(small: nat, big: nat, b: nat)
    requires Within(small, big) && Bit(small, b)
    ensures Bit(big, b)
  {
  }

  lemma DominatorBits(k: Row, c: Row, note: nat)
    requires IsRow(k) && IsRow(c) && PatternDominates(k, c) && note < 128
    ensures MaskBit(c.fever, note) ==> MaskBit(k.fever, note)
    ensures MaskBit(k.great, note) ==> MaskBit(c.great, note)
    ensures MaskBit(k.fever, note) && MaskBit(k.great, note) <==> MaskBit(c.fever, note) && MaskBit(c.great, note)
  {
    hide Bit, And, Not, Within;
    PatternBits(k, c);
    var w, b := note / 64, note % 64;
    if Bit(c.fever[w], b) { WithinBit(c.fever[w], k.fever[w], b); }
    if Bit(k.great[w], b) { WithinBit(k.great[w], c.great[w], b); }
    BitAnd(k.fever[w], k.great[w], b);
    BitAnd(c.fever[w], c.great[w], b);
  }

  lemma {:induction false} DominatorHead(k: Row, c: Row, l: Scoring.Line, n: nat)
    requires IsRow(k) && IsRow(c) && PatternDominates(k, c) && n <= Scoring.HEAD_NOTES && Scoring.ValidLine(l)
    ensures Scoring.HeadScore(ToSurface(k), l, n) >= Scoring.HeadScore(ToSurface(c), l, n)
  {
    hide PatternDominates, Scoring.NoteScore, ToSurface, Scoring.InFever, Scoring.IsGreat, MaskBit;
    if n > 0 {
      DominatorHead(k, c, l, n - 1);
      DominatorBits(k, c, n - 1);
      SurfaceBits(k, n - 1);
      SurfaceBits(c, n - 1);
      Scoring.NoteScoreOrder(l, l.ramp[n - 1]);
    }
  }

  lemma DominatorBody(k: Row, c: Row, l: Scoring.Line, total: nat)
    requires IsRow(k) && IsRow(c) && Dominates(k, c) && Scoring.ValidLine(l)
    ensures Scoring.BodyScore(ToSurface(k), l, total) >= Scoring.BodyScore(ToSurface(c), l, total)
  {
    hide PatternDominates, Scoring.Points, Split;
    Scoring.NoteScoreOrder(l, l.combo);
    var combo, fever := Scoring.Points(l.base, l.combo, l, false), Scoring.Points(l.base, l.combo, l, true);
    CountsOrder(k.bodyFever, Normal(k), k.bodyFeverGreat, c.bodyFever, Normal(c), c.bodyFeverGreat, total, combo, fever,
                Max(0, combo - Scoring.Points(l.greatBase, l.combo, l, false)),
                Max(0, fever - Scoring.Points(l.greatBase, l.combo, l, true)));
  }

  lemma CountsOrder(f: int, n: int, g: int, f': int, n': int, g': int, total: int, combo: int, fever: int, normalLoss: int, feverLoss: int)
    requires f >= f' && n <= n' && g <= g' && fever >= combo && normalLoss >= 0 && feverLoss >= 0
    ensures Scoring.CountedScore(f, n + g, g, total, fever, combo, feverLoss, normalLoss)
         >= Scoring.CountedScore(f', n' + g', g', total, fever, combo, feverLoss, normalLoss)
  {
    Product(f - f', fever - combo);
    Product(n' - n, normalLoss);
    Product(g' - g, feverLoss);
    assert (f - f') * (fever - combo) == f * fever - f' * fever - f * combo + f' * combo;
    assert (total - f) * combo == total * combo - f * combo && (total - f') * combo == total * combo - f' * combo;
    assert (n' - n) * normalLoss == n' * normalLoss - n * normalLoss;
    assert (g' - g) * feverLoss == g' * feverLoss - g * feverLoss;
  }

  lemma Product(x: int, y: int)
    requires x >= 0 && y >= 0
    ensures x * y >= 0
  {
  }

  /** For every base, Great base and ramp with a fever of at least 1, note by note, floors and all. */
  lemma DominatorScoresMore(k: Row, c: Row, l: Scoring.Line, headLen: nat, total: nat)
    requires IsRow(k) && IsRow(c) && Dominates(k, c) && Scoring.ValidLine(l) && headLen <= Scoring.HEAD_NOTES
    ensures Scoring.SurfaceScore(ToSurface(k), l, headLen, total) >= Scoring.SurfaceScore(ToSurface(c), l, headLen, total)
  {
    hide PatternDominates, Scoring.HeadScore, Scoring.BodyScore, ToSurface;
    DominatorHead(k, c, l, headLen);
    DominatorBody(k, c, l, total);
  }
}
