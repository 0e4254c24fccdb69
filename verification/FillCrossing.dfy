/** The fever fill crossing in closed form (gear_optimizer/frontier/fill_crossing.py) against the bar filled note by note:
    one unit a Perfect, half a unit a Great. */
module FillCrossing {
  import opened Arithmetic

  /** Where the Greats of a section are: one run from a note, and possibly the activation. */
  datatype Placement = Placement(start: int, runStart: int, runCount: int, activation: int)

  predicate IsGreat(p: Placement, note: int) {
    p.runStart <= note < p.runStart + p.runCount || note == p.activation
  }

  function Fill(p: Placement, note: int): real { if IsGreat(p, note) then 0.5 else 1.0 }

  /** The bar before a note. */
  function Bar(p: Placement, note: int): real
    decreases note - p.start
  {
    if note <= p.start then 0.0 else Bar(p, note - 1) + Fill(p, note - 1)
  }

  /** The note whose own fill takes the bar to full. */
  predicate Crosses(p: Placement, denom: real, note: int) {
    p.start <= note && Bar(p, note) < denom && denom <= Bar(p, note) + Fill(p, note)
  }

  datatype Crossing = Never | At(note: int, great: bool)

  /** The game's walk over the chart's notes. */
  function Walk(p: Placement, denom: real, note: int, bar: real, n: int): Crossing
    decreases n - note
  {
    if note >= n then Never
    else if bar + Fill(p, note) >= denom then At(note, IsGreat(p, note))
    else Walk(p, denom, note + 1, bar + Fill(p, note), n)
  }

  function Ceil(x: real): int { -((-x).Floor) }

  lemma CeilIs(x: real)
    ensures Ceil(x) as real - 1.0 < x <= Ceil(x) as real
  {
  }

  // ---- The walk finds the crossing.

  lemma {:induction false} BarRises(p: Placement, a: int, b: int)
    requires p.start <= a <= b
    ensures Bar(p, b) >= Bar(p, a) + 0.5 * (b - a) as real
    decreases b - a
  {
    if a < b { BarRises(p, a, b - 1); }
  }

  lemma CrossingIsUnique(p: Placement, denom: real, a: int, b: int)
    requires Crosses(p, denom, a) && Crosses(p, denom, b)
    ensures a == b
  {
    if a < b { BarRises(p, a + 1, b); }
    if b < a { BarRises(p, b + 1, a); }
  }

  lemma {:induction false} WalkFinds(p: Placement, denom: real, note: int, n: int)
    requires p.start <= note && Bar(p, note) < denom
    ensures var w := Walk(p, denom, note, Bar(p, note), n);
            match w
            case At(i, great) => note <= i < n && Crosses(p, denom, i) && great == IsGreat(p, i)
            case Never => forall i :: note <= i < n ==> !Crosses(p, denom, i)
    decreases n - note
  {
    if note < n {
      if Bar(p, note) + Fill(p, note) >= denom {
        assert Crosses(p, denom, note);
      } else {
        WalkFinds(p, denom, note + 1, n);
      }
    }
  }

  /** A crossing before n is what the walk returns. */
  lemma WalkIs(p: Placement, denom: real, n: int, i: int)
    requires denom > 0.0 && Crosses(p, denom, i)
    ensures Walk(p, denom, p.start, 0.0, n) == if i < n then At(i, IsGreat(p, i)) else Never
  {
    WalkFinds(p, denom, p.start, n);
    var w := Walk(p, denom, p.start, 0.0, n);
    if w.At? { CrossingIsUnique(p, denom, i, w.note); }
  }

  // ---- The bar of one run of Greats.

  /** The Greats of the run before a note. */
  function GreatsBefore(p: Placement, note: int): int {
    if p.runCount <= 0 then 0
    else
      var from := if p.runStart > p.start then p.runStart else p.start;
      var end := if p.runStart + p.runCount < note then p.runStart + p.runCount else note;
      if end > from then end - from else 0
  }

  lemma {:induction false} BarOfRun(p: Placement, note: int)
    requires p.start <= note && (p.activation < p.start || note <= p.activation)
    ensures Bar(p, note) == (note - p.start) as real - 0.5 * GreatsBefore(p, note) as real
    decreases note - p.start
  {
    if p.start < note { BarOfRun(p, note - 1); }
  }

  // ---- A placement of Perfects and one run.

  /** The closed form: a Perfect before the run, a Great inside it, or a Perfect after it. */
  function ServerFillCrossingRun(start: int, runStart: int, k: int, denom: real, n: int): Crossing
    requires denom > 0.0
  {
    var runLo := if runStart > start then runStart else start;
    var runHi := if runStart + k < n then runStart + k else n;
    if runHi <= runLo then Before(start + Ceil(denom) - 1, n, false)
    else
      var count, perfects := runHi - runLo, (runLo - start) as real;
      var i := start + Ceil(denom) - 1;
      if i < runLo then Before(i, n, false)
      else
        var j := runLo - 1 + Ceil(2.0 * (denom - perfects));
        if j < runLo + count then Before(if j < runLo then runLo else j, n, true)
        else Before(runLo + count - 1 + Ceil(denom - perfects - 0.5 * count as real), n, false)
  }

  function Before(i: int, n: int, great: bool): Crossing { if i < n then At(i, great) else Never }

  function Run(start: int, runStart: int, k: int): Placement { Placement(start, runStart, k, start - 1) }

  /** The closed form is the walk, for every start, run and chart end. */
  lemma ClosedFormIsWalk(start: int, runStart: int, k: int, denom: real, n: int)
    requires denom > 0.0
    ensures ServerFillCrossingRun(start, runStart, k, denom, n) == Walk(Run(start, runStart, k), denom, start, 0.0, n)
  {
    hide Walk, Bar, Ceil, Crosses;
    var p := Run(start, runStart, k);
    var runLo := if runStart > start then runStart else start;
    var runHi := if runStart + k < n then runStart + k else n;
    CeilIs(denom);
    if runHi <= runLo {
      NoGreats(start, runStart, k, denom, n);
    } else {
      var perfects := (runLo - start) as real;
      var i := start + Ceil(denom) - 1;
      if i < runLo {
        BeforeRun(start, runStart, k, denom, n, i);
      } else {
        CeilIs(2.0 * (denom - perfects));
        var j := runLo - 1 + Ceil(2.0 * (denom - perfects));
        if j < runHi {
          InRun(start, runStart, k, denom, n, j);
        } else {
          CeilIs(denom - perfects - 0.5 * (runHi - runLo) as real);
          PastRun(start, runStart, k, denom, n, runHi - 1 + Ceil(denom - perfects - 0.5 * (runHi - runLo) as real));
        }
      }
    }
  }

  /** A note's own crossing, from the bar's closed form. */
  lemma CrossesIf(p: Placement, denom: real, n: int, i: int)
    requires denom > 0.0 && p.start <= i && p.activation < p.start
    requires var bar := (i - p.start) as real - 0.5 * GreatsBefore(p, i) as real; bar < denom <= bar + Fill(p, i)
    ensures Walk(p, denom, p.start, 0.0, n) == Before(i, n, IsGreat(p, i))
  {
    hide Walk;
    BarOfRun(p, i);
    WalkIs(p, denom, n, i);
  }

  /** No crossing before n: the bar at n is short of full. */
  lemma ShortBefore(p: Placement, denom: real, n: int)
    requires denom > 0.0 && p.start <= n && Bar(p, n) < denom
    ensures Walk(p, denom, p.start, 0.0, n) == Never
  {
    hide Walk;
    WalkFinds(p, denom, p.start, n);
    var w := Walk(p, denom, p.start, 0.0, n);
    if w.At? { BarRises(p, w.note + 1, n); }
  }

  lemma NothingBefore(p: Placement, denom: real, n: int)
    requires n <= p.start
    ensures Walk(p, denom, p.start, 0.0, n) == Never
  {
  }

  lemma NoGreats(start: int, runStart: int, k: int, denom: real, n: int)
    requires denom > 0.0 && (if runStart + k < n then runStart + k else n) <= (if runStart > start then runStart else start)
    ensures Walk(Run(start, runStart, k), denom, start, 0.0, n) == Before(start + Ceil(denom) - 1, n, false)
  {
    hide Walk, Bar, Ceil, Crosses;
    var p, i := Run(start, runStart, k), start + Ceil(denom) - 1;
    CeilIs(denom);
    if n <= start {
      NothingBefore(p, denom, n);
    } else if i < n {
      CrossesIf(p, denom, n, i);
    } else {
      BarOfRun(p, n);
      ShortBefore(p, denom, n);
    }
  }

  lemma BeforeRun(start: int, runStart: int, k: int, denom: real, n: int, i: int)
    requires denom > 0.0 && i == start + Ceil(denom) - 1 && i < (if runStart > start then runStart else start)
    ensures Walk(Run(start, runStart, k), denom, start, 0.0, n) == Before(i, n, false)
  {
    hide Walk, Bar, Ceil, Crosses;
    CeilIs(denom);
    CrossesIf(Run(start, runStart, k), denom, n, i);
  }

  lemma InRun(start: int, runStart: int, k: int, denom: real, n: int, j: int)
    requires denom > 0.0
    requires var lo := if runStart > start then runStart else start;
             && j == lo - 1 + Ceil(2.0 * (denom - (lo - start) as real)) && lo <= start + Ceil(denom) - 1
             && j < (if runStart + k < n then runStart + k else n)
    ensures j >= (if runStart > start then runStart else start)
    ensures Walk(Run(start, runStart, k), denom, start, 0.0, n) == Before(j, n, true)
  {
    hide Walk, Bar, Ceil, Crosses;
    var lo := if runStart > start then runStart else start;
    CeilIs(denom);
    CeilIs(2.0 * (denom - (lo - start) as real));
    CrossesIf(Run(start, runStart, k), denom, n, j);
  }

  lemma PastRun(start: int, runStart: int, k: int, denom: real, n: int, i: int)
    requires denom > 0.0
    requires var lo := if runStart > start then runStart else start;
             var hi := if runStart + k < n then runStart + k else n;
             && lo < hi && i == hi - 1 + Ceil(denom - (lo - start) as real - 0.5 * (hi - lo) as real)
             && hi <= lo - 1 + Ceil(2.0 * (denom - (lo - start) as real))
    ensures Walk(Run(start, runStart, k), denom, start, 0.0, n) == Before(i, n, false)
  {
    hide Walk, Bar, Ceil, Crosses;
    var lo := if runStart > start then runStart else start;
    var hi := if runStart + k < n then runStart + k else n;
    var p := Run(start, runStart, k);
    CeilIs(2.0 * (denom - (lo - start) as real));
    CeilIs(denom - (lo - start) as real - 0.5 * (hi - lo) as real);
    if i < n {
      CrossesIf(p, denom, n, i);
    } else {
      BarOfRun(p, n);
      ShortBefore(p, denom, n);
    }
  }

  // ---- The producer's placements: a section burns the note its predecessor's fever ended at, the first burns none.

  function Wasted(first: bool): int { if first then 0 else 1 }

  /** The offset a Perfect activates at with k Greats packed at the section's first accumulating note. */
  function PerfectOffset(denom: real, k: nat, first: bool): int {
    var fill := Ceil(denom + 0.5 * k as real);
    if !first then fill else if fill - 1 < 0 then 0 else fill - 1
  }

  /** Whether the k Greats fit before the activation and leave the bar short of full. */
  function IsRegion3(fill: int, k: nat, first: bool, denom: real): bool {
    if k <= 0 then true
    else
      var slots := fill - Wasted(first);
      if k > slots then false else slots as real - 0.5 * k as real < denom
  }

  /** A section at note 0 whose notes accumulate from `wasted`: k Greats, then Perfects. */
  function Packed(k: nat, first: bool): Placement { Placement(Wasted(first), Wasted(first), k, Wasted(first) - 1) }

  /** The action's Perfect edge is real exactly when the check passes: the walk crosses there, on a Perfect. */
  lemma Region3IsPerfectCrossing(denom: real, k: nat, first: bool)
    requires denom > 0.0
    ensures var fill := PerfectOffset(denom, k, first);
            IsRegion3(fill, k, first, denom) <==> Crosses(Packed(k, first), denom, fill) && !IsGreat(Packed(k, first), fill)
  {
    hide Bar;
    var fill, p := PerfectOffset(denom, k, first), Packed(k, first);
    CeilIs(denom + 0.5 * k as real);
    assert p.start <= fill;
    BarOfRun(p, fill);
  }

  /** With the activation Great at offset `fill` and `prefix` Greats at the section's start. */
  function LatePlacement(fill: int, prefix: int, first: bool): Placement { Placement(Wasted(first), Wasted(first), prefix, fill) }

  function LatePrefixIsLegal(fill: int, prefix: int, denom: real, first: bool): bool {
    var perfects := fill - Wasted(first) - prefix;
    if perfects < 0 then false
    else
      var bar := 0.5 * prefix as real + perfects as real;
      bar < denom && bar + 0.5 >= denom
  }

  /** The gate passes exactly when the activation lies past the prefix and the bar fills on that Great. */
  lemma LegalIsLateCrossing(fill: int, prefix: nat, denom: real, first: bool)
    requires denom > 0.0
    ensures LatePrefixIsLegal(fill, prefix, denom, first) <==>
              Wasted(first) + prefix <= fill && Crosses(LatePlacement(fill, prefix, first), denom, fill)
  {
    hide Bar;
    if Wasted(first) + prefix <= fill { BarOfRun(LatePlacement(fill, prefix, first), fill); }
  }

  datatype Prefix = NoPrefix | Found(prefix: nat)

  function LatePrefix(fill: int, k: int, first: bool, denom: real): Prefix {
    if k <= 0 then NoPrefix
    else
      var prefix := Min(Max(0, k - 1), Max(0, fill - Wasted(first)));
      if LatePrefixIsLegal(fill, prefix, denom, first) then Found(prefix) else NoPrefix
  }

  /** A prefix is one a late activation really crosses after; with fewer than k Greats before it. */
  lemma LatePrefixIsReal(fill: int, k: int, first: bool, denom: real)
    requires denom > 0.0
    ensures var r := LatePrefix(fill, k, first, denom);
            r.Found? ==> r.prefix < k && Wasted(first) + r.prefix <= fill && Crosses(LatePlacement(fill, r.prefix, first), denom, fill)
  {
    var r := LatePrefix(fill, k, first, denom);
    if r.Found? { LegalIsLateCrossing(fill, r.prefix, denom, first); }
  }

  // ---- The run whose last Great activates.

  /** The offset of a run of `count` Greats whose last one is the crossing, or -1. */
  function Region2Offset(start: int, count: int, denom: real, n: int): int
    requires denom > 0.0
  {
    if count <= 0 || start >= n then -1
    else if denom > n as real then -1
    else
      var lo, hi := Ceil(denom - 0.5 * count as real), Ceil(denom - 0.5 * (count - 1) as real) - 1;
      if lo < 1 || lo != hi || start + lo + count - 1 >= n then -1 else lo
  }

  /** Past at least one Perfect, within the chart, the run's last Great fills the bar. */
  predicate IsRegion2(start: int, count: int, denom: real, n: int, x: int) {
    && x >= 1 && count > 0 && start + x + count - 1 < n
    && Crosses(Run(start, start + x, count), denom, start + x + count - 1)
  }

  lemma Region2Bar(start: nat, count: int, denom: real, x: int)
    requires denom > 0.0 && x >= 1 && count > 0
    ensures Crosses(Run(start, start + x, count), denom, start + x + count - 1) <==>
              x as real + 0.5 * (count - 1) as real < denom <= x as real + 0.5 * count as real
  {
    hide Bar;
    BarOfRun(Run(start, start + x, count), start + x + count - 1);
  }

  /** A half-open interval half a unit wide holds at most one integer, between its ends' ceilings. */
  lemma HalfOpen(lo: int, hi: int, t: real, x: int)
    requires lo == Ceil(t) && hi == Ceil(t + 0.5) - 1
    ensures (t <= x as real < t + 0.5) <==> lo <= x <= hi
    ensures hi == lo || hi == lo - 1
  {
    CeilIs(t);
    CeilIs(t + 0.5);
  }

  /** It finds the one such offset, if there is one. */
  lemma Region2OffsetIs(start: nat, count: int, denom: real, n: int, x: int)
    requires denom > 0.0
    ensures IsRegion2(start, count, denom, n, x) <==> x >= 1 && x == Region2Offset(start, count, denom, n)
    ensures Region2Offset(start, count, denom, n) >= 1 || Region2Offset(start, count, denom, n) == -1
  {
    hide Crosses, Ceil;
    if count > 0 {
      var t := denom - 0.5 * count as real;
      assert t + 0.5 == denom - 0.5 * (count - 1) as real;
      var lo, hi := Ceil(t), Ceil(t + 0.5) - 1;
      HalfOpen(lo, hi, t, x);
      if x >= 1 {
        Region2Bar(start, count, denom, x);
        assert Crosses(Run(start, start + x, count), denom, start + x + count - 1) <==> lo <= x <= hi;
      }
    }
  }
}
