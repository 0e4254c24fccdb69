/** The reachability prepass of the frontier producer (gear_optimizer/frontier/producer_kernels.py): which notes a
    section can start at, marked by interval sweeps over the live activations instead of action by action. */
module Reachability {
  import opened Arithmetic
  import Successors

  /** One activation's table row: whether its hit exists, the hit, and where its fever ends: on the Perfect floors, on
      the Great floors, and at the earliest. */
  datatype Activation = Activation(valid: bool, hit: real, edge: int, greatEdge: int, exit: int)

  /** A valid core of a region row; hit ids index the end tables. */
  datatype Core = Core(activation: int, isGreat: bool, activationHit: int, perfectHit: int, perfectValid: bool)

  datatype Regions = Regions(starts: seq<int>, cores: seq<Core>, perfectEndByHit: seq<int>, greatEndByHit: seq<int>)

  /** Inclusive runs of fill offsets, first and last. */
  datatype Runs = Runs(firsts: seq<int>, lasts: seq<int>)

  datatype Chart = Chart(
    n: int, actionCount: int, firstFill: seq<int>, firstForced: seq<int>, perfectRuns: Runs, lateRuns: Runs,
    perfect: seq<Activation>, late: seq<Activation>, feverTime: real, forced: bool, regions: Regions, greatFloors: seq<real>)

  /** How a section reaches its fever: a Perfect or late Great activation, or a region core. */
  datatype Action = Plain(late: bool, activation: int) | Region(row: int)

  /** The ends an action marks, first and last, and its early-Great extension. */
  datatype Span = NoEnds | Ends(first: int, last: int, width: nat)

  // ---- The ends of one action.

  function ClampedEnd(n: int, activation: int, raw: int): int {
    if raw <= activation then (if activation + 1 > n then n else activation + 1) else if raw > n then n else raw
  }

  function FirstAtLeast(floors: seq<real>, value: real): (k: nat)
    ensures k <= |floors| && (forall i :: 0 <= i < k ==> floors[i] < value) && (k < |floors| ==> floors[k] >= value)
  {
    if floors == [] || floors[0] >= value then 0 else 1 + FirstAtLeast(floors[1..], value)
  }

  /** The Great-floor end of a fever started by a hit. */
  function GreatEnd(c: Chart, activation: int, hit: real): int {
    ClampedEnd(c.n, activation, FirstAtLeast(c.greatFloors, hit + c.feverTime))
  }

  function EdgeSpan(c: Chart, activation: int, a: Activation): Span {
    var extended := GreatEnd(c, activation, a.hit);
    Ends(Min(a.exit, a.edge), Max(a.edge, extended), Max(0, extended - a.edge))
  }

  predicate LateExtends(edge: int, late: int, lateGreat: int, edgeGreat: int) {
    late >= 0 && (late > edge || lateGreat > edgeGreat)
  }

  ghost function PlainSpan(c: Chart, late: bool, a: int): Span
    requires Tables(c) && 0 <= a < c.n
  {
    var p, l := c.perfect[a], c.late[a];
    if !late then
      if p.valid && p.edge >= 0 then EdgeSpan(c, a, p) else NoEnds
    else if l.valid && LateExtends(if p.valid then p.edge else -1, l.edge, l.greatEdge, if p.valid then p.greatEdge else 0)
    then EdgeSpan(c, a, l)
    else NoEnds
  }

  function HitEnd(c: Chart, ends: seq<int>, activation: int, hit: int): int
    requires 0 <= hit < |ends|
  {
    ClampedEnd(c.n, activation, ends[hit])
  }

  ghost function RegionSpan(c: Chart, row: int): Span
    requires Tables(c) && 0 <= row < |c.regions.cores|
  {
    var core := c.regions.cores[row];
    var a := core.activation;
    var edge := if core.perfectValid then HitEnd(c, c.regions.perfectEndByHit, a, core.perfectHit) else -1;
    var great := if core.perfectValid then HitEnd(c, c.regions.greatEndByHit, a, core.perfectHit) else -1;
    if !core.isGreat then
      RegionEnds(c.perfect[a].exit, edge, great)
    else
      var lateEdge := HitEnd(c, c.regions.perfectEndByHit, a, core.activationHit);
      var lateGreat := HitEnd(c, c.regions.greatEndByHit, a, core.activationHit);
      if edge >= 0 && !LateExtends(edge, lateEdge, lateGreat, great) then NoEnds
      else RegionEnds(c.late[a].exit, lateEdge, lateGreat)
  }

  function RegionEnds(exit: int, edge: int, great: int): Span { Ends(Min(exit, edge), great, Max(0, great - edge)) }

  predicate InChart(c: Chart, x: Action) {
    match x
    case Plain(_, a) => 0 <= a < c.n
    case Region(row) => 0 <= row < |c.regions.cores|
  }

  ghost function SpanOf(c: Chart, x: Action): Span
    requires Tables(c) && InChart(c, x)
  {
    match x
    case Plain(late, a) => PlainSpan(c, late, a)
    case Region(row) => RegionSpan(c, row)
  }

  ghost function EndsOf(c: Chart, x: Action): set<int>
    requires Tables(c) && InChart(c, x)
  {
    SpanSet(SpanOf(c, x))
  }

  predicate InSpan(first: int, last: int, e: int) { first <= e <= last }

  function SpanSet(s: Span): set<int> {
    match s
    case NoEnds => {}
    case Ends(first, last, _) => set e: int | first <= e <= last && InSpan(first, last, e)
  }

  ghost function WidthOf(c: Chart, x: Action): nat
    requires Tables(c) && InChart(c, x)
  {
    match SpanOf(c, x)
    case NoEnds => 0
    case Ends(_, _, width) => width
  }

  // ---- What the tables promise: every end lies past its activation, every region row past its section start.

  predicate EndInRange(n: int, a: int, e: int) { a < e <= n }

  ghost predicate TableRow(n: int, a: int, x: Activation) {
    EndInRange(n, a, x.exit) && (x.edge < 0 || EndInRange(n, a, x.edge))
  }

  ghost predicate CoreRow(c: Chart, core: Core) {
    && 0 <= core.activation < c.n
    && |c.regions.perfectEndByHit| == |c.regions.greatEndByHit|
    && (core.perfectValid ==> 0 <= core.perfectHit < |c.regions.perfectEndByHit|)
    && (core.isGreat ==> 0 <= core.activationHit < |c.regions.perfectEndByHit|)
    && (core.isGreat || core.perfectValid)
  }

  ghost predicate Tables(c: Chart) {
    && 0 <= c.n == |c.perfect| == |c.late|
    && (forall a :: 0 <= a < c.n ==> TableRow(c.n, a, c.perfect[a]) && TableRow(c.n, a, c.late[a]))
    && (forall i, j :: 0 <= i < j < |c.greatFloors| ==> c.greatFloors[i] <= c.greatFloors[j])
    && RegionTables(c)
  }

  ghost predicate RegionTables(c: Chart) {
    && |c.regions.starts| == c.n + 2
    && (forall s, t :: 0 <= s <= t <= c.n + 1 ==> 0 <= c.regions.starts[s] <= c.regions.starts[t] <= |c.regions.cores|)
    && (forall row :: 0 <= row < |c.regions.cores| ==> CoreRow(c, c.regions.cores[row]))
    && (forall s, row :: 0 <= s <= c.n && InSection(c, s, row) ==> s <= c.regions.cores[row].activation)
  }

  ghost predicate InSection(c: Chart, s: int, row: int)
    requires 0 <= s < s + 1 < |c.regions.starts|
  {
    0 <= row < |c.regions.cores| && c.regions.starts[s] <= row < c.regions.starts[s + 1]
  }

  // ---- The naive closure.

  ghost predicate InRuns(runs: Runs, offset: int) {
    exists r :: 0 <= r < |runs.firsts| && r < |runs.lasts| && runs.firsts[r] <= offset <= runs.lasts[r]
  }

  ghost predicate FirstFillAt(c: Chart, late: bool, a: int) {
    exists i :: 0 <= i < c.actionCount && i < |c.firstFill| && i < |c.firstForced| && c.firstFill[i] == a && (late ==> c.firstForced[i] >= 0)
  }

  /** The actions of the first section. */
  ghost predicate First(c: Chart, x: Action)
    requires Tables(c)
  {
    match x
    case Plain(late, a) => 0 <= a < c.n && (late ==> c.forced) && FirstFillAt(c, late, a)
    case Region(row) => c.forced && InSection(c, 0, row)
  }

  /** The actions of the section after a fever ended at s. */
  ghost predicate Available(c: Chart, s: int, x: Action)
    requires Tables(c)
  {
    && 0 <= s < c.n
    && match x
       case Plain(late, a) => s <= a < c.n && (late ==> c.forced) && InRuns(if late then c.lateRuns else c.perfectRuns, a - s)
       case Region(row) => c.forced && InSection(c, s + 1, row)
  }

  ghost predicate Taken(c: Chart, states: set<int>, x: Action)
    requires Tables(c)
  {
    InChart(c, x) && (First(c, x) || exists s :: s in states && Available(c, s, x))
  }

  /** Holds the chart's end, and every end of every action of the first section or of one of its states. */
  ghost predicate Closed(c: Chart, states: set<int>)
    requires Tables(c)
  {
    && c.n in states
    && forall x, e: int :: Taken(c, states, x) && e in EndsOf(c, x) ==> e in states
  }

  /** The least closed set. */
  ghost predicate IsClosure(c: Chart, states: set<int>)
    requires Tables(c)
  {
    Closed(c, states) && WithinClosed(c, states)
  }

  ghost predicate WithinClosed(c: Chart, states: set<int>)
    requires Tables(c)
  {
    forall s: set<int> :: Closed(c, s) ==> states <= s
  }

  /** The largest extension of an action taken. */
  ghost predicate IsWidest(c: Chart, states: set<int>, width: nat)
    requires Tables(c)
  {
    && (forall x :: Taken(c, states, x) ==> WidthOf(c, x) <= width)
    && (width == 0 || exists x :: Taken(c, states, x) && WidthOf(c, x) == width)
  }

  lemma ClosureIsUnique(c: Chart, states: set<int>, states': set<int>)
    requires Tables(c) && IsClosure(c, states) && IsClosure(c, states')
    ensures states == states'
  {
  }

  lemma TakenMonotone(c: Chart, states: set<int>, more: set<int>, x: Action)
    requires Tables(c) && states <= more && Taken(c, states, x)
    ensures Taken(c, more, x)
  {
  }

  /** Marking an action's ends stays within every closed set. */
  lemma MarkedWithinClosed(c: Chart, states: set<int>, x: Action)
    requires Tables(c) && WithinClosed(c, states) && Taken(c, states, x)
    ensures WithinClosed(c, states + EndsOf(c, x))
  {
    hide First, Available, EndsOf, Tables;
    forall s: set<int> | Closed(c, s)
      ensures states + EndsOf(c, x) <= s
    {
      TakenMonotone(c, states, s, x);
      forall e: int | e in EndsOf(c, x) ensures e in s { }
    }
  }

  /** Every end an action marks lies past its activation and within the chart. */
  lemma EndsAhead(c: Chart, x: Action, e: int)
    requires Tables(c) && InChart(c, x) && e in EndsOf(c, x)
    ensures 0 < e <= c.n
    ensures x.Plain? ==> x.activation < e
    ensures x.Region? ==> c.regions.cores[x.row].activation < e
  {
    if x.Region? { assert CoreRow(c, c.regions.cores[x.row]); }
  }

  // ---- The marking loops.

  ghost function Marked(reachable: seq<bool>): set<int> { set e: int | 0 <= e < |reachable| && reachable[e] }

  method LowerBoundFrom(floors: seq<real>, value: real) returns (lo: nat)
    requires forall i, j :: 0 <= i < j < |floors| ==> floors[i] <= floors[j]
    ensures lo == FirstAtLeast(floors, value)
  {
    lo := 0;
    var hi := |floors|;
    while lo < hi
      invariant lo <= hi <= |floors|
      invariant forall i :: 0 <= i < lo ==> floors[i] < value
      invariant forall i :: hi <= i < |floors| ==> floors[i] >= value
    {
      var mid := (lo + hi) / 2;
      if floors[mid] < value { lo := mid + 1; } else { hi := mid; }
    }
    FirstIs(floors, value, lo);
  }

  lemma {:induction false} FirstIs(floors: seq<real>, value: real, lo: nat)
    requires lo <= |floors| && (forall i :: 0 <= i < lo ==> floors[i] < value) && (lo < |floors| ==> floors[lo] >= value)
    ensures lo == FirstAtLeast(floors, value)
  {
    if lo > 0 { FirstIs(floors[1..], value, lo - 1); }
  }

  method MarkEnds(reachable: array<bool>, first: int, last: int)
    requires first <= last ==> 0 <= first && last < reachable.Length
    modifies reachable
    ensures Marked(reachable[..]) == Marked(old(reachable[..])) + SpanSet(Ends(first, last, 0))
  {
    var e := first;
    while e <= last
      invariant if first <= last then first <= e <= last + 1 else e == first
      invariant forall i :: 0 <= i < reachable.Length ==> reachable[i] == (old(reachable[i]) || first <= i < e)
    {
      reachable[e] := true;
      e := e + 1;
    }
    MarkedRange(old(reachable[..]), reachable[..], first, last);
  }

  lemma MarkedRange(before: seq<bool>, after: seq<bool>, first: int, last: int)
    requires |before| == |after| && (first <= last ==> 0 <= first && last < |after|)
    requires forall i :: 0 <= i < |after| ==> after[i] == (before[i] || first <= i <= last)
    ensures Marked(after) == Marked(before) + SpanSet(Ends(first, last, 0))
  {
    forall e: int ensures e in Marked(after) <==> e in Marked(before) + SpanSet(Ends(first, last, 0)) {
      assert InSpan(first, last, e) <==> first <= e <= last;
    }
  }

  /** Marks one activation's early-Great ends past its edge. */
  method MarkEarlyGreat(reachable: array<bool>, c: Chart, activation: int, edge: int, hit: real) returns (width: nat)
    requires Tables(c) && 0 <= activation < c.n && reachable.Length == c.n + 1 && EndInRange(c.n, activation, edge)
    modifies reachable
    ensures Marked(reachable[..]) == Marked(old(reachable[..])) + SpanSet(Ends(edge + 1, GreatEnd(c, activation, hit), 0))
    ensures width == Max(0, GreatEnd(c, activation, hit) - edge)
  {
    var raw := LowerBoundFrom(c.greatFloors, hit + c.feverTime);
    var extended := ClampedEnd(c.n, activation, raw);
    MarkEnds(reachable, edge + 1, extended);
    width := Max(0, extended - edge);
  }

  method MarkEdge(reachable: array<bool>, c: Chart, activation: int, a: Activation) returns (width: nat)
    requires Tables(c) && 0 <= activation < c.n && reachable.Length == c.n + 1 && TableRow(c.n, activation, a) && a.edge >= 0
    modifies reachable
    ensures Marked(reachable[..]) == Marked(old(reachable[..])) + SpanSet(EdgeSpan(c, activation, a))
    ensures width == EdgeSpan(c, activation, a).width
  {
    hide Tables, Marked;
    MarkEnds(reachable, Min(a.exit, a.edge), a.edge);
    width := MarkEarlyGreat(reachable, c, activation, a.edge, a.hit);
  }

  method MarkPlain(reachable: array<bool>, c: Chart, late: bool, activation: int) returns (width: nat)
    requires Tables(c) && 0 <= activation < c.n && reachable.Length == c.n + 1
    modifies reachable
    ensures Marked(reachable[..]) == Marked(old(reachable[..])) + EndsOf(c, Plain(late, activation))
    ensures width == WidthOf(c, Plain(late, activation))
  {
    hide Marked;
    var p, l := c.perfect[activation], c.late[activation];
    assert TableRow(c.n, activation, p) && TableRow(c.n, activation, l);
    width := 0;
    if !late {
      if p.valid && p.edge >= 0 {
        width := MarkEdge(reachable, c, activation, p);
      }
    } else {
      var edge, edgeGreat := -1, 0;
      if p.valid { edge, edgeGreat := p.edge, p.greatEdge; }
      if l.valid && LateExtends(edge, l.edge, l.greatEdge, edgeGreat) {
        width := MarkEdge(reachable, c, activation, l);
      }
    }
  }

  method MarkRegion(reachable: array<bool>, c: Chart, row: int) returns (width: nat)
    requires Tables(c) && 0 <= row < |c.regions.cores| && reachable.Length == c.n + 1
    modifies reachable
    ensures Marked(reachable[..]) == Marked(old(reachable[..])) + EndsOf(c, Region(row))
    ensures width == WidthOf(c, Region(row))
  {
    hide Marked;
    var core := c.regions.cores[row];
    var a := core.activation;
    assert CoreRow(c, core) && TableRow(c.n, a, c.perfect[a]) && TableRow(c.n, a, c.late[a]);
    var edge, great := -1, -1;
    if core.perfectValid {
      edge := ClampedEnd(c.n, a, c.regions.perfectEndByHit[core.perfectHit]);
      great := ClampedEnd(c.n, a, c.regions.greatEndByHit[core.perfectHit]);
    }
    var exit := c.perfect[a].exit;
    if core.isGreat {
      var lateEdge := ClampedEnd(c.n, a, c.regions.perfectEndByHit[core.activationHit]);
      var lateGreat := ClampedEnd(c.n, a, c.regions.greatEndByHit[core.activationHit]);
      if edge >= 0 && !LateExtends(edge, lateEdge, lateGreat, great) {
        return 0;
      }
      edge, great, exit := lateEdge, lateGreat, c.late[a].exit;
    }
    MarkEnds(reachable, Min(exit, edge), great);
    width := Max(0, great - edge);
  }

  /** Marks every region row of one section. */
  method MarkSection(reachable: array<bool>, c: Chart, s: int, ghost done: set<Action>, ghost before: nat)
    returns (width: nat, ghost done': set<Action>)
    requires Tables(c) && c.forced && 0 <= s <= c.n && reachable.Length == c.n + 1
    requires Progress(c, Marked(reachable[..]), done, before)
    requires forall row :: InSection(c, s, row) ==> Taken(c, Marked(reachable[..]), Region(row))
    modifies reachable
    ensures Progress(c, Marked(reachable[..]), done', Max(before, width))
    ensures done <= done' && (forall row :: InSection(c, s, row) ==> Region(row) in done')
    ensures forall late, a :: Plain(late, a) in done' ==> Plain(late, a) in done
    ensures NewMarksPast(Marked(old(reachable[..])), Marked(reachable[..]), s - 1)
  {
    hide Marked, Progress, Taken, EndsOf, WidthOf;
    width, done' := 0, done;
    var row := c.regions.starts[s];
    while row < c.regions.starts[s + 1]
      invariant c.regions.starts[s] <= row <= c.regions.starts[s + 1]
      invariant Progress(c, Marked(reachable[..]), done', Max(before, width))
      invariant NewMarksPast(Marked(old(reachable[..])), Marked(reachable[..]), s - 1)
      invariant done <= done' && forall r :: c.regions.starts[s] <= r < row ==> Region(r) in done'
      invariant forall late, a :: Plain(late, a) in done' ==> Plain(late, a) in done
    {
      assert InSection(c, s, row);
      ghost var states := Marked(reachable[..]);
      TakenMonotone(c, Marked(old(reachable[..])), states, Region(row));
      Progressed(c, states, done', Max(before, width), Region(row));
      MarksPast(c, states, Region(row), s - 1);
      var found := MarkRegion(reachable, c, row);
      width := Max(width, found);
      done' := done' + {Region(row)};
      row := row + 1;
    }
  }

  ghost predicate NewMarksPast(before: set<int>, after: set<int>, s: int) {
    before <= after && forall e: int :: e in after && e !in before ==> s < e
  }

  lemma MarksPast(c: Chart, states: set<int>, x: Action, s: int)
    requires Tables(c) && InChart(c, x)
    requires match x case Plain(_, a) => s <= a case Region(row) => s <= c.regions.cores[row].activation
    ensures NewMarksPast(states, states + EndsOf(c, x), s)
  {
    hide EndsOf;
    forall e | e in EndsOf(c, x) ensures s < e { EndsAhead(c, x, e); }
  }

  /** Marks every live activation of an interval, removing each. */
  method Sweep(reachable: array<bool>, next: array<int>, stamps: array<int>, epoch: int, c: Chart, late: bool, lo: int, hi: int,
               ghost s: int, ghost done: set<Action>, ghost before: nat)
    returns (width: nat, ghost done': set<Action>)
    requires Tables(c) && reachable.Length == c.n + 1 && next != stamps
    requires 0 <= s <= lo < c.n && hi < c.n
    requires Successors.Valid(next[..], stamps[..], epoch, c.n) && RemovedDone(c.n, stamps[..], epoch, late, done)
    requires Progress(c, Marked(reachable[..]), done, before)
    requires forall a :: lo <= a <= hi ==> Taken(c, Marked(reachable[..]), Plain(late, a))
    modifies reachable, next, stamps
    ensures Progress(c, Marked(reachable[..]), done', Max(before, width))
    ensures Successors.Valid(next[..], stamps[..], epoch, c.n) && RemovedDone(c.n, stamps[..], epoch, late, done')
    ensures done <= done' && (forall a :: lo <= a <= hi ==> Plain(late, a) in done')
    ensures NewMarksPast(Marked(old(reachable[..])), Marked(reachable[..]), s)
  {
    hide Marked, Progress, Taken, EndsOf, WidthOf, Tables, Successors.Valid;
    width, done' := 0, done;
    var activation := Successors.Find(next, stamps, epoch, c.n, lo);
    while activation <= hi
      invariant Successors.Valid(next[..], stamps[..], epoch, c.n) && RemovedDone(c.n, stamps[..], epoch, late, done')
      invariant Successors.IsFirstLive(stamps[..], epoch, c.n, lo, activation)
      invariant Progress(c, Marked(reachable[..]), done', Max(before, width))
      invariant NewMarksPast(Marked(old(reachable[..])), Marked(reachable[..]), s)
      invariant done <= done'
      decreases c.n - activation
    {
      ghost var states, x := Marked(reachable[..]), Plain(late, activation);
      TakenMonotone(c, Marked(old(reachable[..])), states, x);
      Progressed(c, states, done', Max(before, width), x);
      MarksPast(c, states, x, s);
      var found := MarkPlain(reachable, c, late, activation);
      activation := Successors.Remove(next, stamps, epoch, c.n, activation);
      width := Max(width, found);
      done' := done' + {x};
    }
  }

  /** No stamp is past the epoch, and what it removed is done. */
  ghost predicate RemovedDone(n: int, stamps: seq<int>, epoch: int, late: bool, done: set<Action>) {
    n <= |stamps| && FreshStamps(stamps, epoch + 1) && forall a :: 0 <= a < n && stamps[a] == epoch ==> Plain(late, a) in done
  }

  /** What the marks, the actions done and the widest extension so far keep. */
  ghost predicate Progress(c: Chart, states: set<int>, done: set<Action>, width: nat)
    requires Tables(c)
  {
    && c.n in states && WithinClosed(c, states)
    && (forall x :: x in done ==> Taken(c, states, x) && EndsOf(c, x) <= states && WidthOf(c, x) <= width)
    && (width == 0 || exists x :: x in done && WidthOf(c, x) == width)
  }

  lemma Progressed(c: Chart, states: set<int>, done: set<Action>, width: nat, x: Action)
    requires Tables(c) && Progress(c, states, done, width) && Taken(c, states, x)
    ensures Progress(c, states + EndsOf(c, x), done + {x}, Max(width, WidthOf(c, x)))
  {
    hide First, Available, EndsOf, WidthOf, Tables, WithinClosed;
    MarkedWithinClosed(c, states, x);
    forall y | y in done + {x} ensures Taken(c, states + EndsOf(c, x), y) {
      TakenMonotone(c, states, states + EndsOf(c, x), y);
    }
    if WidthOf(c, x) > width { assert x in done + {x}; }
  }

  // ---- The prepass.

  /** Nonnegative runs, in order, none touching another's offsets. */
  predicate OrderedRuns(runs: Runs) {
    && |runs.firsts| == |runs.lasts|
    && (forall r :: 0 <= r < |runs.firsts| ==> 0 <= runs.firsts[r] <= runs.lasts[r])
    && (forall q, r :: 0 <= q < r < |runs.firsts| ==> runs.lasts[q] < runs.firsts[r])
  }

  method CheckRuns(runs: Runs) returns (ordered: bool)
    ensures ordered == OrderedRuns(runs)
  {
    if |runs.firsts| != |runs.lasts| { return false; }
    var previous := -2;
    for r := 0 to |runs.firsts|
      invariant forall q :: 0 <= q < r ==> 0 <= runs.firsts[q] <= runs.lasts[q]
      invariant forall p, q :: 0 <= p < q < r ==> runs.lasts[p] < runs.firsts[q]
      invariant previous == if r == 0 then -2 else runs.lasts[r - 1]
      invariant forall q :: 0 <= q < r ==> runs.lasts[q] <= previous
    {
      if runs.firsts[r] < 0 || runs.lasts[r] < runs.firsts[r] || runs.firsts[r] <= previous { return false; }
      previous := runs.lasts[r];
    }
    ordered := true;
  }

  /** Every interval of a state's runs. */
  method SweepRuns(reachable: array<bool>, next: array<int>, stamps: array<int>, epoch: int, c: Chart, late: bool, s: int,
                   ghost done: set<Action>, ghost before: nat)
    returns (width: nat, ghost done': set<Action>)
    requires Tables(c) && reachable.Length == c.n + 1 && next != stamps && 0 <= s < c.n && (late ==> c.forced)
    requires OrderedRuns(RunsOf(c, late)) && s in Marked(reachable[..])
    requires Successors.Valid(next[..], stamps[..], epoch, c.n) && RemovedDone(c.n, stamps[..], epoch, late, done)
    requires Progress(c, Marked(reachable[..]), done, before)
    modifies reachable, next, stamps
    ensures Progress(c, Marked(reachable[..]), done', Max(before, width))
    ensures Successors.Valid(next[..], stamps[..], epoch, c.n) && RemovedDone(c.n, stamps[..], epoch, late, done')
    ensures done <= done' && (forall a :: s <= a < c.n && InRuns(RunsOf(c, late), a - s) ==> Plain(late, a) in done')
    ensures NewMarksPast(Marked(old(reachable[..])), Marked(reachable[..]), s)
  {
    hide Marked, Progress, EndsOf, WidthOf, Tables, Successors.Valid, RemovedDone, First;
    var runs := RunsOf(c, late);
    width, done' := 0, done;
    for r := 0 to |runs.firsts|
      invariant Successors.Valid(next[..], stamps[..], epoch, c.n) && RemovedDone(c.n, stamps[..], epoch, late, done')
      invariant Progress(c, Marked(reachable[..]), done', Max(before, width))
      invariant NewMarksPast(Marked(old(reachable[..])), Marked(reachable[..]), s)
      invariant done <= done'
      invariant forall q, a :: 0 <= q < r && s + runs.firsts[q] <= a <= s + runs.lasts[q] && a < c.n ==> Plain(late, a) in done'
    {
      var lo := s + runs.firsts[r];
      if lo < c.n {
        var hi := Min(c.n - 1, s + runs.lasts[r]);
        forall a | lo <= a <= hi ensures Taken(c, Marked(reachable[..]), Plain(late, a)) {
          assert runs.firsts[r] <= a - s <= runs.lasts[r];
          assert Available(c, s, Plain(late, a));
        }
        var found;
        found, done' := Sweep(reachable, next, stamps, epoch, c, late, lo, hi, s, done', Max(before, width));
        width := Max(width, found);
      }
    }
  }

  function RunsOf(c: Chart, late: bool): Runs { if late then c.lateRuns else c.perfectRuns }

  ghost predicate StateDone(c: Chart, s: int, done: set<Action>)
    requires Tables(c)
  {
    forall x :: Available(c, s, x) ==> x in done
  }

  /** Every action of the section after one state. */
  method MarkState(reachable: array<bool>, perfectNext: array<int>, perfectStamps: array<int>, lateNext: array<int>,
                   lateStamps: array<int>, epoch: int, c: Chart, s: int, ghost done: set<Action>, ghost before: nat)
    returns (width: nat, ghost done': set<Action>)
    requires Tables(c) && reachable.Length == c.n + 1 && 0 <= s < c.n
    requires Distinct(perfectNext, perfectStamps, lateNext, lateStamps)
    requires OrderedRuns(c.perfectRuns) && OrderedRuns(c.lateRuns) && s in Marked(reachable[..])
    requires Successors.Valid(perfectNext[..], perfectStamps[..], epoch, c.n) && RemovedDone(c.n, perfectStamps[..], epoch, false, done)
    requires Successors.Valid(lateNext[..], lateStamps[..], epoch, c.n) && RemovedDone(c.n, lateStamps[..], epoch, true, done)
    requires Progress(c, Marked(reachable[..]), done, before)
    modifies reachable, perfectNext, perfectStamps, lateNext, lateStamps
    ensures Progress(c, Marked(reachable[..]), done', Max(before, width))
    ensures Successors.Valid(perfectNext[..], perfectStamps[..], epoch, c.n) && RemovedDone(c.n, perfectStamps[..], epoch, false, done')
    ensures Successors.Valid(lateNext[..], lateStamps[..], epoch, c.n) && RemovedDone(c.n, lateStamps[..], epoch, true, done')
    ensures done <= done' && StateDone(c, s, done')
    ensures NewMarksPast(Marked(old(reachable[..])), Marked(reachable[..]), s)
  {
    hide Marked, Progress, EndsOf, WidthOf, Successors.Valid, First, InRuns, OrderedRuns;
    width, done' := SweepRuns(reachable, perfectNext, perfectStamps, epoch, c, false, s, done, before);
    if c.forced {
      var late;
      late, done' := SweepRuns(reachable, lateNext, lateStamps, epoch, c, true, s, done', Max(before, width));
      width := Max(width, late);
      forall row | InSection(c, s + 1, row) ensures Taken(c, Marked(reachable[..]), Region(row)) {
        assert Available(c, s, Region(row));
      }
      var region;
      region, done' := MarkSection(reachable, c, s + 1, done', Max(before, width));
      width := Max(width, region);
    }
  }

  predicate Distinct(a: array<int>, b: array<int>, c: array<int>, d: array<int>) {
    a != b && a != c && a != d && b != c && b != d && c != d
  }

  /** What the prepass accepts; anything else raises. */
  predicate Acceptable(c: Chart, perfectNext: int, perfectStamps: int, lateNext: int, lateStamps: int, epoch: int) {
    && c.n >= 0 && 0 <= c.actionCount <= |c.firstFill| && c.actionCount <= |c.firstForced|
    && OrderedRuns(c.perfectRuns) && OrderedRuns(c.lateRuns) && epoch >= 1
    && c.n < perfectNext && c.n < perfectStamps && c.n < lateNext && c.n < lateStamps
    && forall i :: 0 <= i < c.actionCount ==> c.firstFill[i] >= 0
  }

  ghost predicate FreshStamps(stamps: seq<int>, epoch: int) { forall i :: 0 <= i < |stamps| ==> stamps[i] < epoch }

  /** The actions of the first section, in their order. */
  method MarkFirst(reachable: array<bool>, perfectNext: array<int>, perfectStamps: array<int>, lateNext: array<int>,
                   lateStamps: array<int>, epoch: int, c: Chart)
    returns (raised: bool, width: nat, ghost done: set<Action>)
    requires Tables(c) && reachable.Length == c.n + 1 && 0 <= c.actionCount <= |c.firstFill| && c.actionCount <= |c.firstForced|
    requires Distinct(perfectNext, perfectStamps, lateNext, lateStamps)
    requires Successors.Valid(perfectNext[..], perfectStamps[..], epoch, c.n) && RemovedDone(c.n, perfectStamps[..], epoch, false, {})
    requires Successors.Valid(lateNext[..], lateStamps[..], epoch, c.n) && RemovedDone(c.n, lateStamps[..], epoch, true, {})
    requires Marked(reachable[..]) == {c.n}
    modifies reachable, perfectNext, perfectStamps, lateNext, lateStamps
    ensures raised <==> exists i :: 0 <= i < c.actionCount && c.firstFill[i] < 0
    ensures !raised ==> Progress(c, Marked(reachable[..]), done, width)
    ensures !raised ==> Successors.Valid(perfectNext[..], perfectStamps[..], epoch, c.n) && RemovedDone(c.n, perfectStamps[..], epoch, false, done)
    ensures !raised ==> Successors.Valid(lateNext[..], lateStamps[..], epoch, c.n) && RemovedDone(c.n, lateStamps[..], epoch, true, done)
    ensures !raised ==> forall x :: First(c, x) ==> x in done
    ensures FreshStamps(perfectStamps[..], epoch + 1) && FreshStamps(lateStamps[..], epoch + 1)
  {
    hide Marked, Progress, EndsOf, WidthOf, Successors.Valid, InRuns, Available;
    raised, width, done := false, 0, {};
    EmptyProgress(c);
    for i := 0 to c.actionCount
      invariant !raised && forall j :: 0 <= j < i ==> c.firstFill[j] >= 0
      invariant Progress(c, Marked(reachable[..]), done, width)
      invariant Successors.Valid(perfectNext[..], perfectStamps[..], epoch, c.n) && RemovedDone(c.n, perfectStamps[..], epoch, false, done)
      invariant Successors.Valid(lateNext[..], lateStamps[..], epoch, c.n) && RemovedDone(c.n, lateStamps[..], epoch, true, done)
      invariant forall j :: 0 <= j < i && c.firstFill[j] < c.n ==> Plain(false, c.firstFill[j]) in done
      invariant forall j :: 0 <= j < i && c.firstFill[j] < c.n && c.forced && c.firstForced[j] >= 0 ==> Plain(true, c.firstFill[j]) in done
    {
      var fill := c.firstFill[i];
      if fill < 0 { raised := true; return; }
      if fill < c.n {
        assert First(c, Plain(false, fill));
        assert c.forced && c.firstForced[i] >= 0 ==> First(c, Plain(true, fill));
        var found;
        found, done := MarkFill(reachable, perfectNext, perfectStamps, epoch, c, false, fill, done, width);
        width := Max(width, found);
        if c.forced && c.firstForced[i] >= 0 {
          found, done := MarkFill(reachable, lateNext, lateStamps, epoch, c, true, fill, done, width);
          width := Max(width, found);
        }
      }
    }
    if c.forced {
      forall row | InSection(c, 0, row) ensures Taken(c, Marked(reachable[..]), Region(row)) {
        assert First(c, Region(row));
      }
      var region;
      region, done := MarkSection(reachable, c, 0, done, width);
      width := Max(width, region);
    }
  }

  lemma EmptyProgress(c: Chart)
    requires Tables(c)
    ensures Progress(c, {c.n}, {}, 0)
  {
    hide Tables, Taken;
  }

  /** One first-section activation, unless it was already removed. */
  method MarkFill(reachable: array<bool>, next: array<int>, stamps: array<int>, epoch: int, c: Chart, late: bool, fill: int,
                  ghost done: set<Action>, ghost before: nat)
    returns (width: nat, ghost done': set<Action>)
    requires Tables(c) && reachable.Length == c.n + 1 && next != stamps && 0 <= fill < c.n
    requires Successors.Valid(next[..], stamps[..], epoch, c.n) && RemovedDone(c.n, stamps[..], epoch, late, done)
    requires Progress(c, Marked(reachable[..]), done, before) && Taken(c, Marked(reachable[..]), Plain(late, fill))
    modifies reachable, next, stamps
    ensures Progress(c, Marked(reachable[..]), done', Max(before, width))
    ensures Successors.Valid(next[..], stamps[..], epoch, c.n) && RemovedDone(c.n, stamps[..], epoch, late, done')
    ensures done <= done' && Plain(late, fill) in done'
  {
    hide Marked, Progress, Taken, EndsOf, WidthOf, Tables, Successors.Valid;
    width, done' := 0, done;
    var live := Successors.Find(next, stamps, epoch, c.n, fill);
    if live == fill {
      Progressed(c, Marked(reachable[..]), done, before, Plain(late, fill));
      width := MarkPlain(reachable, c, late, fill);
      var following := Successors.Remove(next, stamps, epoch, c.n, fill);
      done' := done + {Plain(late, fill)};
    }
  }

  /** The marks are the least closed set of states, and the width is the widest extension taken in it. */
  method Prepass(perfectNext: array<int>, perfectStamps: array<int>, lateNext: array<int>, lateStamps: array<int>, epoch: int, c: Chart)
    returns (raised: bool, reachable: array<bool>, width: nat)
    requires c.n >= 0 ==> Tables(c)
    requires Distinct(perfectNext, perfectStamps, lateNext, lateStamps)
    requires FreshStamps(perfectStamps[..], epoch) && FreshStamps(lateStamps[..], epoch)
    modifies perfectNext, perfectStamps, lateNext, lateStamps
    ensures raised <==> !Acceptable(c, perfectNext.Length, perfectStamps.Length, lateNext.Length, lateStamps.Length, epoch)
    ensures fresh(reachable) && FreshStamps(perfectStamps[..], epoch + 1) && FreshStamps(lateStamps[..], epoch + 1)
    ensures !raised ==> reachable.Length == c.n + 1 && IsClosure(c, Marked(reachable[..])) && IsWidest(c, Marked(reachable[..]), width)
  {
    hide Progress, EndsOf, WidthOf, Successors.Valid, InRuns, OrderedRuns, Closed, IsWidest;
    raised, width, reachable := true, 0, new bool[0];
    if c.n < 0 || c.actionCount < 0 || |c.firstFill| < c.actionCount || |c.firstForced| < c.actionCount { return; }
    var ordered := CheckRuns(c.perfectRuns);
    if !ordered { return; }
    ordered := CheckRuns(c.lateRuns);
    if !ordered || epoch < 1 { return; }
    if perfectNext.Length < c.n + 1 || perfectStamps.Length < c.n + 1 || lateNext.Length < c.n + 1 || lateStamps.Length < c.n + 1 { return; }
    reachable := new bool[c.n + 1](_ => false);
    reachable[c.n] := true;
    assert Marked(reachable[..]) == {c.n};
    FreshStart(perfectNext[..], perfectStamps[..], epoch, c.n, false);
    FreshStart(lateNext[..], lateStamps[..], epoch, c.n, true);
    ghost var done;
    raised, width, done := MarkFirst(reachable, perfectNext, perfectStamps, lateNext, lateStamps, epoch, c);
    if raised { return; }
    width := MarkStates(reachable, perfectNext, perfectStamps, lateNext, lateStamps, epoch, c, done, width);
  }

  method MarkStates(reachable: array<bool>, perfectNext: array<int>, perfectStamps: array<int>, lateNext: array<int>,
                    lateStamps: array<int>, epoch: int, c: Chart, ghost first: set<Action>, before: nat)
    returns (width: nat)
    requires c.n >= 0 && Tables(c) && reachable.Length == c.n + 1 && OrderedRuns(c.perfectRuns) && OrderedRuns(c.lateRuns)
    requires Distinct(perfectNext, perfectStamps, lateNext, lateStamps)
    requires Successors.Valid(perfectNext[..], perfectStamps[..], epoch, c.n) && RemovedDone(c.n, perfectStamps[..], epoch, false, first)
    requires Successors.Valid(lateNext[..], lateStamps[..], epoch, c.n) && RemovedDone(c.n, lateStamps[..], epoch, true, first)
    requires Progress(c, Marked(reachable[..]), first, before) && forall x :: First(c, x) ==> x in first
    modifies reachable, perfectNext, perfectStamps, lateNext, lateStamps
    ensures IsClosure(c, Marked(reachable[..])) && IsWidest(c, Marked(reachable[..]), width)
    ensures FreshStamps(perfectStamps[..], epoch + 1) && FreshStamps(lateStamps[..], epoch + 1)
  {
    hide Progress, EndsOf, WidthOf, Successors.Valid, InRuns, OrderedRuns, Tables, First, Available, IsClosure, IsWidest, StateDone;
    ghost var done := first;
    width := before;
    for s := 0 to c.n
      invariant Successors.Valid(perfectNext[..], perfectStamps[..], epoch, c.n) && RemovedDone(c.n, perfectStamps[..], epoch, false, done)
      invariant Successors.Valid(lateNext[..], lateStamps[..], epoch, c.n) && RemovedDone(c.n, lateStamps[..], epoch, true, done)
      invariant Progress(c, Marked(reachable[..]), done, width) && first <= done
      invariant forall t :: 0 <= t < s && t in Marked(reachable[..]) ==> StateDone(c, t, done)
    {
      if reachable[s] {
        ghost var earlier, states := done, Marked(reachable[..]);
        var found;
        found, done := MarkState(reachable, perfectNext, perfectStamps, lateNext, lateStamps, epoch, c, s, done, width);
        width := Max(width, found);
        forall t | 0 <= t < s + 1 && t in Marked(reachable[..]) ensures StateDone(c, t, done) {
          assert t in states;
          if t < s { StateDoneMonotone(c, t, earlier, done); }
        }
      }
    }
    Finished(c, Marked(reachable[..]), done, width);
  }

  lemma StateDoneMonotone(c: Chart, s: int, done: set<Action>, more: set<Action>)
    requires Tables(c) && done <= more && StateDone(c, s, done)
    ensures StateDone(c, s, more)
  {
    hide Tables, Available;
  }

  lemma FreshStart(next: seq<int>, stamps: seq<int>, epoch: int, n: int, late: bool)
    requires 0 <= n < |next| && n < |stamps| && FreshStamps(stamps, epoch)
    ensures Successors.Valid(next, stamps, epoch, n) && RemovedDone(n, stamps, epoch, late, {})
  {
  }

  /** With every action of the first section and of every state done, the marks are closed. */
  lemma Finished(c: Chart, states: set<int>, done: set<Action>, width: nat)
    requires Tables(c) && Progress(c, states, done, width)
    requires forall x :: First(c, x) ==> x in done
    requires forall s :: 0 <= s < c.n && s in states ==> StateDone(c, s, done)
    ensures IsClosure(c, states) && IsWidest(c, states, width)
  {
    hide Tables, First, WithinClosed, EndsOf, WidthOf;
    forall x | Taken(c, states, x) ensures x in done {
      if !First(c, x) {
        var s :| s in states && Available(c, s, x);
        assert StateDone(c, s, done);
      }
    }
  }

  /** With at most `count` fever times sharing one reservation, each runs the prepass on an epoch of its own. */
  method PrepassPerFeverTime(w: Successors.Workspace, charts: seq<Chart>) returns (closures: seq<seq<bool>>)
    requires w.Valid() && |charts| <= Successors.EPOCH_LIMIT
    requires Distinct(w.perfect, w.perfectStamps, w.late, w.lateStamps)
    requires forall i :: 0 <= i < |charts| ==> Tables(charts[i])
    requires forall i :: 0 <= i < |charts| ==>
               Acceptable(charts[i], w.perfect.Length, w.perfectStamps.Length, w.late.Length, w.lateStamps.Length, 1)
    modifies w`epoch, w.perfect, w.perfectStamps, w.late, w.lateStamps
    ensures w.Valid() && |closures| == |charts|
    ensures forall i :: 0 <= i < |charts| ==> IsClosure(charts[i], Marked(closures[i]))
  {
    hide Tables, IsClosure, Marked, OrderedRuns;
    var epoch := w.ReserveEpochs(|charts|);
    closures := [];
    for i := 0 to |charts|
      invariant |closures| == i && 1 <= epoch && w.epoch == epoch + |charts| - 1
      invariant FreshStamps(w.perfectStamps[..], epoch + i) && FreshStamps(w.lateStamps[..], epoch + i)
      invariant forall j :: 0 <= j < i ==> IsClosure(charts[j], Marked(closures[j]))
    {
      var raised, reachable, width := Prepass(w.perfect, w.perfectStamps, w.late, w.lateStamps, epoch + i, charts[i]);
      closures := closures + [reachable[..]];
    }
  }
}