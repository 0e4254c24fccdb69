/** The stamped Fenwick tree of prefix maxima (gear_optimizer/frontier/producer_kernels.py). */
module Fenwick {
  import opened Arithmetic

  /** The lowest set bit of a positive number: x & -x in two's complement. */
  function LowBit(x: nat): (b: nat)
    requires x > 0
    ensures 0 < b <= x
  {
    if x % 2 == 1 then 1 else 2 * LowBit(x / 2)
  }

  /** Between a cell and the next one above its range, every cell's range starts at the cell or later. */
  lemma {:induction false} LowBitBetween(c: nat, d: nat)
    requires c > 0 && 0 < d < LowBit(c)
    ensures LowBit(c + d) <= d
  {
    if d % 2 == 0 { LowBitBetween(c / 2, d / 2); }
  }

  /** The next cell up covers a cell's range. */
  lemma {:induction false} LowBitNext(c: nat)
    requires c > 0
    ensures LowBit(c + LowBit(c)) >= 2 * LowBit(c)
  {
    if c % 2 == 0 { LowBitNext(c / 2); }
  }

  // ---- Maxima over ranges of positions; -1 over none.

  function RangeMax(best: seq<int>, lo: int, hi: int): int
    requires 0 <= lo && hi <= |best|
    decreases hi
  {
    if lo >= hi then -1 else Max(RangeMax(best, lo, hi - 1), best[hi - 1])
  }

  predicate AtLeastNone(best: seq<int>) { forall i :: 0 <= i < |best| ==> best[i] >= -1 }

  lemma {:induction false} RangeSplit(best: seq<int>, lo: int, mid: int, hi: int)
    requires 0 <= lo <= mid <= hi <= |best| && AtLeastNone(best)
    ensures RangeMax(best, lo, hi) == Max(RangeMax(best, lo, mid), RangeMax(best, mid, hi)) && RangeMax(best, lo, hi) >= -1
    decreases hi
  {
    if mid < hi { RangeSplit(best, lo, mid, hi - 1); }
    else if lo < hi { RangeSplit(best, lo, hi - 1, hi - 1); }
  }

  lemma {:induction false} RangeBounds(best: seq<int>, lo: int, hi: int, i: int)
    requires 0 <= lo <= i < hi <= |best|
    ensures best[i] <= RangeMax(best, lo, hi)
  {
    if i < hi - 1 { RangeBounds(best, lo, hi - 1, i); }
  }

  lemma {:induction false} RangeAttained(best: seq<int>, lo: int, hi: int) returns (i: int)
    requires 0 <= lo && hi <= |best| && RangeMax(best, lo, hi) > -1
    ensures lo <= i < hi && best[i] == RangeMax(best, lo, hi)
  {
    i := hi - 1;
    if best[hi - 1] < RangeMax(best, lo, hi - 1) { i := RangeAttained(best, lo, hi - 1); }
  }

  function Raised(best: seq<int>, idx: nat, value: int): seq<int>
    requires idx < |best|
  {
    best[idx := Max(best[idx], value)]
  }

  lemma {:induction false} RangeRaised(best: seq<int>, idx: nat, value: int, lo: int, hi: int)
    requires 0 <= lo && hi <= |best| && idx < |best| && AtLeastNone(best) && value >= -1
    ensures RangeMax(Raised(best, idx, value), lo, hi)
            == if lo <= idx < hi then Max(RangeMax(best, lo, hi), value) else RangeMax(best, lo, hi)
  {
    if lo < hi { RangeRaised(best, idx, value, lo, hi - 1); }
  }

  // ---- The tree: cell c holds the maximum of the positions in [c - LowBit(c), c), or a stale stamp when there is none.

  function Cell(values: seq<int>, stamps: seq<int>, stamp: int, c: nat): int
    requires c < |values| && c < |stamps|
  {
    if stamps[c] == stamp then values[c] else -1
  }

  ghost predicate Valid(values: seq<int>, stamps: seq<int>, stamp: int, best: seq<int>) {
    && |best| < |values| && |best| < |stamps| && AtLeastNone(best)
    && forall c :: 0 < c <= |best| ==> Cell(values, stamps, stamp, c) == RangeMax(best, c - LowBit(c), c)
  }

  function Nothing(size: nat): (s: seq<int>)
    ensures |s| == size && forall i :: 0 <= i < size ==> s[i] == -1
  {
    seq(size, i => -1)
  }

  lemma NothingIn(size: nat, lo: nat, hi: nat)
    requires hi <= size
    ensures RangeMax(Nothing(size), lo, hi) == -1
  {
  }

  /** A stamp no cell holds makes the tree empty. */
  lemma FreshStamp(values: seq<int>, stamps: seq<int>, stamp: int, size: nat)
    requires size < |values| && size < |stamps| && forall i :: 0 <= i < |stamps| ==> stamps[i] != stamp
    ensures Valid(values, stamps, stamp, Nothing(size))
  {
    forall c | 0 < c <= size ensures Cell(values, stamps, stamp, c) == RangeMax(Nothing(size), c - LowBit(c), c) {
      NothingIn(size, c - LowBit(c), c);
    }
  }

  /** The maximum over the positions up to idx. */
  method Query(values: array<int>, stamps: array<int>, stamp: int, idx: nat, ghost best: seq<int>) returns (top: int)
    requires Valid(values[..], stamps[..], stamp, best) && idx < |best|
    ensures top == RangeMax(best, 0, idx + 1)
  {
    top := -1;
    var cursor := idx + 1;
    while cursor > 0
      invariant 0 <= cursor <= idx + 1 && top == RangeMax(best, cursor, idx + 1)
    {
      RangeSplit(best, cursor - LowBit(cursor), cursor, idx + 1);
      assert Cell(values[..], stamps[..], stamp, cursor) == RangeMax(best, cursor - LowBit(cursor), cursor);
      if stamps[cursor] == stamp && values[cursor] > top { top := values[cursor]; }
      cursor := cursor - LowBit(cursor);
    }
  }

  ghost predicate CellIs(values: seq<int>, stamps: seq<int>, stamp: int, best: seq<int>, c: nat)
    requires 0 < c <= |best| && c < |values| && c < |stamps|
  {
    Cell(values, stamps, stamp, c) == RangeMax(best, c - LowBit(c), c)
  }

  ghost predicate Cells(values: seq<int>, stamps: seq<int>, stamp: int, best: seq<int>, lo: nat, hi: nat) {
    |best| < |values| && |best| < |stamps|
    && forall c :: lo <= c < hi && 0 < c <= |best| ==> CellIs(values, stamps, stamp, best, c)
  }

  method Update(values: array<int>, stamps: array<int>, stamp: int, limit: nat, idx: nat, value: int, ghost best: seq<int>)
    requires values != stamps && Valid(values[..], stamps[..], stamp, best) && limit == |best| + 1 && idx < |best| && value >= 0
    modifies values, stamps
    ensures Valid(values[..], stamps[..], stamp, Raised(best, idx, value))
    ensures forall i :: 0 <= i < stamps.Length ==> stamps[i] == old(stamps[i]) || stamps[i] == stamp
  {
    hide RangeMax, CellIs, Cells, Raised, LowBit, Valid;
    ghost var after := Raised(best, idx, value);
    var cursor := idx + 1;
    UpdateStart(values[..], stamps[..], stamp, best, idx, value);
    while cursor < limit
      invariant 0 < cursor && cursor - LowBit(cursor) <= idx < cursor
      invariant Cells(values[..], stamps[..], stamp, after, 0, cursor)
      invariant Cells(values[..], stamps[..], stamp, best, cursor, limit)
      invariant values.Length > |best| && stamps.Length > |best|
      invariant forall i :: 0 <= i < stamps.Length ==> stamps[i] == old(stamps[i]) || stamps[i] == stamp
      decreases limit - cursor
    {
      ghost var vs, ss := values[..], stamps[..];
      if stamps[cursor] != stamp {
        stamps[cursor] := stamp;
        values[cursor] := value;
      } else if value > values[cursor] {
        values[cursor] := value;
      }
      UpdateStep(vs, ss, values[..], stamps[..], stamp, best, idx, value, cursor);
      cursor := cursor + LowBit(cursor);
    }
    UpdateEnd(values[..], stamps[..], stamp, best, idx, value, cursor);
  }

  lemma UpdateStart(values: seq<int>, stamps: seq<int>, stamp: int, best: seq<int>, idx: nat, value: int)
    requires Valid(values, stamps, stamp, best) && idx < |best| && value >= 0
    ensures |best| < |values| && |best| < |stamps| && AtLeastNone(best) && idx + 1 - LowBit(idx + 1) <= idx
    ensures Cells(values, stamps, stamp, Raised(best, idx, value), 0, idx + 1) && Cells(values, stamps, stamp, best, idx + 1, |best| + 1)
  {
    hide RangeMax;
    forall c: nat | 0 < c < idx + 1 ensures CellIs(values, stamps, stamp, Raised(best, idx, value), c) {
      RangeRaised(best, idx, value, c - LowBit(c), c);
    }
  }

  lemma UpdateStep(vs: seq<int>, ss: seq<int>, values: seq<int>, stamps: seq<int>, stamp: int, best: seq<int>, idx: nat, value: int, cursor: nat)
    requires idx < |best| && AtLeastNone(best) && value >= 0 && idx < cursor <= |best| && cursor - LowBit(cursor) <= idx
    requires Cells(vs, ss, stamp, Raised(best, idx, value), 0, cursor) && Cells(vs, ss, stamp, best, cursor, |best| + 1)
    requires |values| == |vs| && |stamps| == |ss| && stamps == ss[cursor := stamp]
    requires values == vs[cursor := if ss[cursor] != stamp then value else Max(vs[cursor], value)]
    ensures var next := cursor + LowBit(cursor);
            next - LowBit(next) <= idx && Cells(values, stamps, stamp, Raised(best, idx, value), 0, next) && Cells(values, stamps, stamp, best, next, |best| + 1)
  {
    hide RangeMax, LowBit;
    LowBitNext(cursor);
    Skipped(best, idx, value, cursor, |best| + 1);
    RangeRaised(best, idx, value, cursor - LowBit(cursor), cursor);
    RangeSplit(best, cursor - LowBit(cursor), cursor, cursor);
    assert CellIs(vs, ss, stamp, best, cursor);
    forall c: nat | 0 < c <= |best| ensures c < cursor + LowBit(cursor) ==> CellIs(values, stamps, stamp, Raised(best, idx, value), c) {
      if c < cursor { assert CellIs(vs, ss, stamp, Raised(best, idx, value), c); }
      else if c > cursor { assert CellIs(vs, ss, stamp, best, c); }
    }
    forall c: nat | cursor + LowBit(cursor) <= c <= |best| ensures CellIs(values, stamps, stamp, best, c) {
      assert CellIs(vs, ss, stamp, best, c);
    }
  }

  lemma UpdateEnd(values: seq<int>, stamps: seq<int>, stamp: int, best: seq<int>, idx: nat, value: int, cursor: nat)
    requires idx < |best| && AtLeastNone(best) && value >= 0 && cursor > |best|
    requires Cells(values, stamps, stamp, Raised(best, idx, value), 0, cursor)
    ensures Valid(values, stamps, stamp, Raised(best, idx, value))
  {
    hide RangeMax;
    forall c: nat | 0 < c <= |best| ensures Cell(values, stamps, stamp, c) == RangeMax(Raised(best, idx, value), c - LowBit(c), c) {
      assert CellIs(values, stamps, stamp, Raised(best, idx, value), c);
    }
  }

  /** The cells an update steps over do not hold its position. */
  lemma Skipped(best: seq<int>, idx: nat, value: int, cursor: nat, limit: nat)
    requires limit == |best| + 1 && idx < cursor < limit && AtLeastNone(best) && value >= 0
    ensures forall c :: cursor < c < cursor + LowBit(cursor) && c < limit ==>
              RangeMax(Raised(best, idx, value), c - LowBit(c), c) == RangeMax(best, c - LowBit(c), c)
  {
    hide RangeMax;
    forall c | cursor < c < cursor + LowBit(cursor) && c < limit
      ensures RangeMax(Raised(best, idx, value), c - LowBit(c), c) == RangeMax(best, c - LowBit(c), c)
    {
      LowBitBetween(cursor, c - cursor);
      RangeRaised(best, idx, value, c - LowBit(c), c);
    }
  }
}
