/** The core of a region-run candidate (gear_optimizer/frontier/producer_kernels.py): where its run fills the bar, how late that
    note can be hit, and the shortest run of Greats past a Great activation with which it can. */
module RegionCores {
  import opened Arithmetic
  import opened Wrappers
  import opened LanePrefixes
  import opened ActivationTest
  import FC = FillCrossing
  import LaneSums

  // ---- The latest hit.

  /** How far before a later note's last hit the activation has to be. */
  const EPSILON: real := 0.000001

  function LabelHigh(t: Timing, from: nat, end: nat, j: nat): real
    requires j < |t.chart.greatHigh| && j < |t.chart.perfectHigh|
  {
    if from <= j < end then t.chart.greatHigh[j] else t.chart.perfectHigh[j]
  }

  predicate Rows(t: Timing) {
    && |t.times| == |t.lateLow| == |t.chart.perfectHigh| == |t.chart.greatHigh|
    && |t.chart.lanes| == |t.chart.perfectLow| == |t.chart.greatLow| == |t.times|
  }

  /** The cap after the notes from j on, each lowering it while its own time lies before it. */
  function LatestFrom(t: Timing, lo: real, cap: real, from: nat, end: nat, j: nat): Option<real>
    requires Rows(t)
    decreases |t.times| - j
  {
    if j >= |t.times| || t.times[j] >= cap then Some(cap)
    else
      var capped := LabelHigh(t, from, end, j) - EPSILON;
      var lower := if capped < cap then capped else cap;
      if lower < lo then None else LatestFrom(t, lo, lower, from, end, j + 1)
  }

  function LatestHit(t: Timing, a: nat, lo: real, hi: real, from: nat, end: nat): Option<real>
    requires Rows(t)
  {
    if lo > hi then None else LatestFrom(t, lo, hi, from, end, a + 1)
  }

  /** Every later note whose own time lies before the hit can still be hit after it. */
  ghost predicate Waits(t: Timing, a: nat, from: nat, end: nat, h: real)
    requires Rows(t)
  {
    forall j: nat :: a < j < |t.times| && t.times[j] < h ==> LabelHigh(t, from, end, j) - EPSILON >= h
  }

  /** Every note can be hit well after its own time. */
  ghost predicate Roomy(t: Timing)
    requires Rows(t)
  {
    forall j: nat :: j < |t.times| ==> t.times[j] + EPSILON <= t.chart.perfectHigh[j] && t.times[j] + EPSILON <= t.chart.greatHigh[j]
  }

  ghost predicate IsLatest(t: Timing, a: nat, lo: real, hi: real, from: nat, end: nat, hit: Option<real>)
    requires Rows(t)
  {
    && (hit.Some? ==> lo <= hit.value <= hi && Waits(t, a, from, end, hit.value))
    && forall h: real :: lo <= h <= hi && (hit.Some? ==> h > hit.value) ==> !Waits(t, a, from, end, h)
  }

  /** The loop's result is the latest hit of the window after which every later note can wait. */
  lemma LatestHitIs(t: Timing, a: nat, lo: real, hi: real, from: nat, end: nat)
    requires Timed(t) && a < |t.times| && (Roomy(t) || hi <= t.times[a])
    ensures IsLatest(t, a, lo, hi, from, end, LatestHit(t, a, lo, hi, from, end))
  {
    if lo <= hi && Roomy(t) {
      LatestFromIs(t, a, lo, hi, from, end, a + 1);
    }
  }

  lemma {:induction false} LatestFromIs(t: Timing, a: nat, lo: real, cap: real, from: nat, end: nat, j: nat)
    requires Timed(t) && Roomy(t) && a < j <= |t.times| && lo <= cap
    requires forall i: nat :: a < i < j ==> LabelHigh(t, from, end, i) - EPSILON >= cap
    ensures IsLatest(t, a, lo, cap, from, end, LatestFrom(t, lo, cap, from, end, j))
    decreases |t.times| - j
  {
    if j < |t.times| && t.times[j] < cap {
      var capped := LabelHigh(t, from, end, j) - EPSILON;
      var lower := if capped < cap then capped else cap;
      forall h: real | lower < h <= cap ensures !Waits(t, a, from, end, h) { assert t.times[j] <= capped < h; }
      if lower >= lo { LatestFromIs(t, a, lo, lower, from, end, j + 1); }
    }
  }

  method Latest(t: Timing, a: nat, lo: real, hi: real, from: nat, end: nat) returns (hit: Option<real>)
    requires Rows(t) && a < |t.times|
    ensures hit == LatestHit(t, a, lo, hi, from, end)
  {
    if lo > hi { return None; }
    var cap := hi;
    for j := a + 1 to |t.times|
      invariant LatestFrom(t, lo, cap, from, end, j) == LatestHit(t, a, lo, hi, from, end)
    {
      if t.times[j] >= cap { return Some(cap); }
      var capped := LabelHigh(t, from, end, j) - EPSILON;
      if capped < cap { cap := capped; }
      if cap < lo { return None; }
    }
    hit := Some(cap);
  }

  // ---- The shortest run.

  /** A section whose run of Greats starts and ends there, its activation hit then. */
  function RunSection(n: nat, start: nat, runStart: nat, greatEnd: nat, a: nat, great: bool, hit: real): Section {
    Section(start, n, runStart, greatEnd, a, great, hit)
  }

  function LateHit(t: Timing, a: nat, runStart: nat, greatEnd: nat): Option<real>
    requires Rows(t) && a < |t.times|
  {
    LatestHit(t, a, t.lateLow[a], t.chart.greatHigh[a], runStart, greatEnd)
  }

  function PerfectHit(t: Timing, a: nat, runStart: nat, greatEnd: nat): Option<real>
    requires Rows(t) && a < |t.times|
  {
    var time, high := t.times[a], t.chart.perfectHigh[a];
    LatestHit(t, a, if time < high then time else high, if high > time then high else time, runStart, greatEnd)
  }

  /** With the run up to there the Great activation can be hit, at its latest hit. */
  ghost predicate RunActivates(t: Timing, denom: real, start: nat, runStart: nat, a: nat, greatEnd: nat)
    requires Timed(t) && start <= runStart <= a < greatEnd <= |t.times|
  {
    var hit := LateHit(t, a, runStart, greatEnd);
    hit.Some? && CanActivate(t, denom, RunSection(|t.times|, start, runStart, greatEnd, a, true, hit.value))
  }

  /** Runs are tried while they end before a note that a Perfect could not be hit late enough for. */
  function MaxEnd(t: Timing, hi: real, end: nat): (stop: nat)
    requires Rows(t) && end <= |t.times|
    ensures end <= stop <= |t.times|
    ensures forall j: nat :: end <= j < stop ==> t.chart.perfectHigh[j] < hi
    ensures stop < |t.times| ==> t.chart.perfectHigh[stop] >= hi
    decreases |t.times| - end
  {
    if end < |t.times| && t.chart.perfectHigh[end] < hi then MaxEnd(t, hi, end + 1) else end
  }

  ghost function FirstEnd(t: Timing, denom: real, start: nat, runStart: nat, a: nat, end: nat, stop: nat): Option<nat>
    requires Timed(t) && start <= runStart <= a < end && stop <= |t.times|
    decreases stop + 1 - end
  {
    if end > stop then None
    else if RunActivates(t, denom, start, runStart, a, end) then Some(end)
    else FirstEnd(t, denom, start, runStart, a, end + 1, stop)
  }

  /** It is the least end up to the stop with which the activation can be hit. */
  lemma {:induction false} FirstEndIs(t: Timing, denom: real, start: nat, runStart: nat, a: nat, end: nat, stop: nat)
    requires Timed(t) && start <= runStart <= a < end && stop <= |t.times|
    ensures var first := FirstEnd(t, denom, start, runStart, a, end, stop);
            && (first.Some? ==> end <= first.value <= stop && RunActivates(t, denom, start, runStart, a, first.value))
            && forall e: nat :: end <= e <= stop && (first.Some? ==> e < first.value) ==> !RunActivates(t, denom, start, runStart, a, e)
    decreases stop + 1 - end
  {
    hide RunActivates, Timed;
    if end <= stop && !RunActivates(t, denom, start, runStart, a, end) {
      FirstEndIs(t, denom, start, runStart, a, end + 1, stop);
    }
  }

  /** The longest chart whose exact tests all fit their table. */
  const LONGEST: nat := 32_768

  predicate TooMany(n: nat) { n > LONGEST }

  lemma CellsBound(t: Timing, s: Section)
    requires Placed(t, s) && |t.times| <= LONGEST
    ensures Cells(s) <= LaneSums.MAX_WORD_CELLS
  {
    hide GreatsBefore;
    TargetsFit(s);
    Scaled(s.activation - s.start + 1, LONGEST, (GreatsBefore(s, s.activation) + 64) / 64, 512);
  }

  lemma Scaled(a: nat, b: nat, x: nat, y: nat)
    requires a <= b && x <= y
    ensures a * x <= b * y
  {
  }

  method FindEnd(t: Timing, denom: real, start: nat, runStart: nat, a: nat) returns (raised: bool, first: Option<nat>, hit: Option<real>)
    requires Timed(t) && start <= runStart <= a < |t.times|
    ensures raised ==> TooMany(|t.times|)
    ensures !raised && first.Some? ==> first.value > a && hit == LateHit(t, a, runStart, first.value)
    ensures !raised ==> first == FirstEnd(t, denom, start, runStart, a, a + 1, MaxEnd(t, t.chart.greatHigh[a], a + 1))
  {
    hide CanActivate, LatestHit, MaxEnd, TooMany;
    var hi := t.chart.greatHigh[a];
    var stop := a + 1;
    while stop < |t.times| && t.chart.perfectHigh[stop] < hi
      invariant a + 1 <= stop <= |t.times| && MaxEnd(t, hi, a + 1) == MaxEnd(t, hi, stop)
    {
      NextEnd(t, hi, stop);
      stop := stop + 1;
    }
    LastEnd(t, hi, stop);
    for end := a + 1 to stop + 1
      invariant FirstEnd(t, denom, start, runStart, a, a + 1, stop) == FirstEnd(t, denom, start, runStart, a, end, stop)
    {
      hit := Latest(t, a, t.lateLow[a], t.chart.greatHigh[a], runStart, end);
      if hit.Some? {
        var s := RunSection(|t.times|, start, runStart, end, a, true, hit.value);
        var verdict := ActivationReachable(t, denom, s);
        if verdict.Raised? {
          RaisedMeans(t, s);
          return true, None, None;
        }
        if verdict.reachable { return false, Some(end), hit; }
      }
    }
    return false, None, None;
  }

  lemma RaisedMeans(t: Timing, s: Section)
    requires Placed(t, s) && Cells(s) > LaneSums.MAX_WORD_CELLS
    ensures TooMany(|t.times|)
  {
    hide Cells;
    if |t.times| <= LONGEST { CellsBound(t, s); }
  }

  lemma NextEnd(t: Timing, hi: real, end: nat)
    requires Rows(t) && end < |t.times| && t.chart.perfectHigh[end] < hi
    ensures MaxEnd(t, hi, end) == MaxEnd(t, hi, end + 1)
  {
  }

  lemma LastEnd(t: Timing, hi: real, end: nat)
    requires Rows(t) && end <= |t.times| && (end < |t.times| ==> t.chart.perfectHigh[end] >= hi)
    ensures MaxEnd(t, hi, end) == end
  {
  }

  // ---- The core.

  /** The note that fills the bar, its run's end, and its latest hits as a Great and as a Perfect. */
  datatype Core = Core(activation: nat, greatEnd: nat, great: bool, hit: Option<real>, perfectHit: Option<real>)

  lemma CrossingIs(start: nat, runStart: nat, k: int, denom: real, n: nat, a: int, great: bool)
    requires denom > 0.0 && start <= runStart && FC.ServerFillCrossingRun(start, runStart, k, denom, n) == FC.At(a, great)
    ensures start <= a < n && FC.Crosses(FC.Run(start, runStart, k), denom, a) && (great <==> runStart <= a < runStart + k)
  {
    hide FC.ServerFillCrossingRun;
    FC.ClosedFormIsWalk(start, runStart, k, denom, n);
    FC.WalkFinds(FC.Run(start, runStart, k), denom, start, n);
  }

  ghost function CoreAt(t: Timing, denom: real, start: nat, offset: nat, k: int): Option<Core>
    requires Timed(t) && denom > 0.0
  {
    var n, runStart := |t.times|, start + offset;
    match FC.ServerFillCrossingRun(start, runStart, k, denom, n)
    case Never => None
    case At(note, great) =>
      CrossingIs(start, runStart, k, denom, n, note, great);
      var a: nat := note;
      if great then
        var first := FirstEnd(t, denom, start, runStart, a, a + 1, MaxEnd(t, t.chart.greatHigh[a], a + 1));
        if first.None? then None
        else Some(Core(a, first.value, true, LateHit(t, a, runStart, first.value), PerfectHit(t, a, runStart, first.value)))
      else
        var greatEnd := Min(n, runStart + k);
        if greatEnd <= runStart then None
        else
          var hit := PerfectHit(t, a, runStart, greatEnd);
          if hit.Some? && CanActivate(t, denom, RunSection(n, start, runStart, greatEnd, a, false, hit.value))
          then Some(Core(a, greatEnd, false, None, hit))
          else None
  }

  /** The run kept fills the bar where the candidate's does, so its bar is never what rules a core out. */
  lemma KeptRunFills(start: nat, runStart: nat, k: int, denom: real, n: nat, a: nat, greatEnd: nat, great: bool, hit: real)
    requires start <= runStart && start <= a < n && FC.Crosses(FC.Run(start, runStart, k), denom, a)
    requires great <==> runStart <= a < runStart + k
    requires if great then greatEnd > a else runStart < greatEnd == Min(n, runStart + k)
    ensures FC.Crosses(Greatness(RunSection(n, start, runStart, greatEnd, a, great, hit)), denom, a)
  {
    FC.BarOfRun(FC.Run(start, runStart, k), a);
    FC.BarOfRun(Greatness(RunSection(n, start, runStart, greatEnd, a, great, hit)), a);
  }

  /** The core of one candidate, unless the exact test's table would be too large. */
  method FindCore(t: Timing, denom: real, start: nat, offset: nat, k: int) returns (raised: bool, core: Option<Core>)
    requires Timed(t) && denom > 0.0
    ensures raised ==> TooMany(|t.times|)
    ensures !raised ==> core == CoreAt(t, denom, start, offset, k)
  {
    hide CanActivate, FirstEnd, MaxEnd, LatestHit, TooMany, FC.ServerFillCrossingRun, Cells;
    var n, runStart := |t.times|, start + offset;
    var crossing := FC.ServerFillCrossingRun(start, runStart, k, denom, n);
    if crossing.Never? { return false, None; }
    CrossingIs(start, runStart, k, denom, n, crossing.note, crossing.great);
    var a: nat := crossing.note;
    var time, high := t.times[a], t.chart.perfectHigh[a];
    if crossing.great {
      var first, hit;
      raised, first, hit := FindEnd(t, denom, start, runStart, a);
      if raised || first.None? { return raised, None; }
      var perfectHit := Latest(t, a, if time < high then time else high, if high > time then high else time, runStart, first.value);
      return false, Some(Core(a, first.value, true, hit, perfectHit));
    }
    var greatEnd := Min(n, runStart + k);
    if greatEnd <= runStart { return false, None; }
    var hit := Latest(t, a, if time < high then time else high, if high > time then high else time, runStart, greatEnd);
    if hit.None? { return false, None; }
    var s := RunSection(n, start, runStart, greatEnd, a, false, hit.value);
    var verdict := ActivationReachable(t, denom, s);
    if verdict.Raised? {
      RaisedMeans(t, s);
      return true, None;
    }
    return false, if verdict.reachable then Some(Core(a, greatEnd, false, None, hit)) else None;
  }

  // ---- What a core is, by its hits' windows.

  /** Of a later note the latest hit is that of its label in the run's section. */
  lemma LabelHighIs(t: Timing, start: nat, runStart: nat, greatEnd: nat, a: nat, great: bool, hit: real, j: nat)
    requires Timed(t) && start <= runStart <= greatEnd <= |t.times| && start <= a < j < |t.times|
    ensures LabelHigh(t, runStart, greatEnd, j) == NoteAt(t.chart, RunSection(|t.times|, start, runStart, greatEnd, a, great, hit), j).high
  {
  }

  /** Every window ends well past its note's time, or none past it. */
  ghost predicate Windowed(t: Timing)
    requires Rows(t)
  {
    Roomy(t) || forall i: nat :: i < |t.times| ==> t.chart.perfectHigh[i] <= t.times[i] && t.chart.greatHigh[i] <= t.times[i]
  }

  /** The latest hit from the earliest to the latest late Great, with the run's Greats up to there. */
  ghost predicate IsLateHit(t: Timing, a: nat, runStart: nat, greatEnd: nat, hit: Option<real>)
    requires Rows(t) && a < |t.times|
  {
    IsLatest(t, a, t.lateLow[a], t.chart.greatHigh[a], runStart, greatEnd, hit)
  }

  /** The latest hit from the note's own time to the latest Perfect. */
  ghost predicate IsPerfectHit(t: Timing, a: nat, runStart: nat, greatEnd: nat, hit: Option<real>)
    requires Rows(t) && a < |t.times|
  {
    IsLatest(t, a, t.times[a], t.chart.perfectHigh[a], runStart, greatEnd, hit)
  }

  /** At its latest late-Great hit with the run up to there the activation can be hit. */
  ghost predicate LateWorks(t: Timing, denom: real, start: nat, runStart: nat, a: nat, greatEnd: nat, h: real)
    requires Timed(t) && start <= runStart <= a < greatEnd <= |t.times|
  {
    IsLateHit(t, a, runStart, greatEnd, Some(h)) && CanActivate(t, denom, RunSection(|t.times|, start, runStart, greatEnd, a, true, h))
  }

  /** Run ends past the activation, each next note still a Great because a Perfect could not be hit as late. */
  ghost predicate IsTried(t: Timing, a: nat, end: nat)
    requires Rows(t) && a < |t.times|
  {
    a < end <= |t.times| && forall j: nat :: a < j < end ==> t.chart.perfectHigh[j] < t.chart.greatHigh[a]
  }

  ghost predicate IsGreatCore(t: Timing, denom: real, start: nat, runStart: nat, a: nat, core: Option<Core>)
    requires Timed(t) && start <= runStart <= a < |t.times|
  {
    match core
    case Some(c) =>
      && c.great && c.activation == a && IsTried(t, a, c.greatEnd)
      && c.hit.Some? && LateWorks(t, denom, start, runStart, a, c.greatEnd, c.hit.value)
      && IsPerfectHit(t, a, runStart, c.greatEnd, c.perfectHit)
      && forall e: nat, h: real :: a < e < c.greatEnd ==> !LateWorks(t, denom, start, runStart, a, e, h)
    case None =>
      forall e: nat, h: real :: IsTried(t, a, e) ==> !LateWorks(t, denom, start, runStart, a, e, h)
  }

  ghost predicate PerfectWorks(t: Timing, denom: real, start: nat, runStart: nat, a: nat, greatEnd: nat, h: real)
    requires Timed(t) && start <= runStart < greatEnd <= |t.times| && start <= a < |t.times|
  {
    IsPerfectHit(t, a, runStart, greatEnd, Some(h)) && CanActivate(t, denom, RunSection(|t.times|, start, runStart, greatEnd, a, false, h))
  }

  ghost predicate IsPerfectCore(t: Timing, denom: real, start: nat, runStart: nat, k: int, a: nat, core: Option<Core>)
    requires Timed(t) && start <= runStart && start <= a < |t.times|
  {
    var end := Min(|t.times|, runStart + k);
    match core
    case Some(c) =>
      && runStart < end && c == Core(a, end, false, None, c.perfectHit)
      && c.perfectHit.Some? && PerfectWorks(t, denom, start, runStart, a, end, c.perfectHit.value)
    case None => runStart < end ==> forall h: real :: !PerfectWorks(t, denom, start, runStart, a, end, h)
  }

  /** Where the candidate's run fills the bar: on a Great, the core of the shortest run that works; on a Perfect, the run's own
      core; none where the bar does not fill in the chart. */
  ghost predicate IsCore(t: Timing, denom: real, start: nat, offset: nat, k: int, core: Option<Core>)
    requires Timed(t)
  {
    var runStart := start + offset;
    && (forall a: nat :: start <= a < |t.times| && FC.Crosses(FC.Run(start, runStart, k), denom, a) ==>
          if runStart <= a < runStart + k then IsGreatCore(t, denom, start, runStart, a, core)
          else IsPerfectCore(t, denom, start, runStart, k, a, core))
    && (core.Some? ==> exists a: nat :: start <= a < |t.times| && FC.Crosses(FC.Run(start, runStart, k), denom, a))
  }

  lemma LatestIsUnique(t: Timing, a: nat, lo: real, hi: real, from: nat, end: nat, hit: Option<real>, other: Option<real>)
    requires Rows(t) && IsLatest(t, a, lo, hi, from, end, hit) && IsLatest(t, a, lo, hi, from, end, other)
    ensures hit == other
  {
    hide Waits;
  }

  lemma HitsAre(t: Timing, a: nat, runStart: nat, greatEnd: nat)
    requires Timed(t) && Windowed(t) && a < |t.times|
    ensures IsLateHit(t, a, runStart, greatEnd, LateHit(t, a, runStart, greatEnd))
    ensures IsPerfectHit(t, a, runStart, greatEnd, PerfectHit(t, a, runStart, greatEnd))
  {
    hide LatestHit, IsLatest;
    LatestHitIs(t, a, t.lateLow[a], t.chart.greatHigh[a], runStart, greatEnd);
    LatestHitIs(t, a, t.times[a], t.chart.perfectHigh[a], runStart, greatEnd);
  }

  lemma WorksIs(t: Timing, denom: real, start: nat, runStart: nat, a: nat, greatEnd: nat, h: real)
    requires Timed(t) && Windowed(t) && start <= runStart <= a < greatEnd <= |t.times|
    ensures LateWorks(t, denom, start, runStart, a, greatEnd, h)
            <==> RunActivates(t, denom, start, runStart, a, greatEnd) && LateHit(t, a, runStart, greatEnd) == Some(h)
  {
    hide Windowed, IsLatest, CanActivate, LateHit, Rising;
    HitsAre(t, a, runStart, greatEnd);
    if LateWorks(t, denom, start, runStart, a, greatEnd, h) {
      LatestIsUnique(t, a, t.lateLow[a], t.chart.greatHigh[a], runStart, greatEnd, Some(h), LateHit(t, a, runStart, greatEnd));
    }
  }

  lemma TriedIs(t: Timing, a: nat, end: nat)
    requires Rows(t) && a < |t.times|
    ensures IsTried(t, a, end) <==> a < end <= MaxEnd(t, t.chart.greatHigh[a], a + 1)
  {
  }

  lemma GreatCoreIs(t: Timing, denom: real, start: nat, runStart: nat, a: nat)
    requires Timed(t) && Windowed(t) && start <= runStart <= a < |t.times|
    ensures var first := FirstEnd(t, denom, start, runStart, a, a + 1, MaxEnd(t, t.chart.greatHigh[a], a + 1));
            IsGreatCore(t, denom, start, runStart, a,
                        if first.None? then None
                        else Some(Core(a, first.value, true, LateHit(t, a, runStart, first.value), PerfectHit(t, a, runStart, first.value))))
  {
    hide Windowed, IsLatest, CanActivate, LateHit, PerfectHit, MaxEnd, FirstEnd, IsTried, LateWorks;
    var stop := MaxEnd(t, t.chart.greatHigh[a], a + 1);
    var first := FirstEnd(t, denom, start, runStart, a, a + 1, stop);
    FirstEndIs(t, denom, start, runStart, a, a + 1, stop);
    forall e: nat ensures IsTried(t, a, e) <==> a < e <= stop { TriedIs(t, a, e); }
    forall e: nat, h: real | a < e <= |t.times|
      ensures LateWorks(t, denom, start, runStart, a, e, h)
              <==> RunActivates(t, denom, start, runStart, a, e) && LateHit(t, a, runStart, e) == Some(h)
    {
      WorksIs(t, denom, start, runStart, a, e, h);
    }
    if first.Some? { HitsAre(t, a, runStart, first.value); }
  }

  lemma PerfectCoreIs(t: Timing, denom: real, start: nat, runStart: nat, k: int, a: nat)
    requires Timed(t) && Windowed(t) && start <= runStart && start <= a < |t.times| && runStart < Min(|t.times|, runStart + k)
    ensures var end := Min(|t.times|, runStart + k);
            var hit := PerfectHit(t, a, runStart, end);
            IsPerfectCore(t, denom, start, runStart, k, a,
                          if hit.Some? && CanActivate(t, denom, RunSection(|t.times|, start, runStart, end, a, false, hit.value))
                          then Some(Core(a, end, false, None, hit)) else None)
  {
    hide Windowed, IsLatest, CanActivate, PerfectHit;
    var end := Min(|t.times|, runStart + k);
    var hit := PerfectHit(t, a, runStart, end);
    HitsAre(t, a, runStart, end);
    forall h: real | IsPerfectHit(t, a, runStart, end, Some(h)) ensures hit == Some(h) {
      LatestIsUnique(t, a, t.times[a], t.chart.perfectHigh[a], runStart, end, Some(h), hit);
    }
  }

  /** The core found is the candidate's, its hits the latest of the note's own late-Great and Perfect windows. */
  lemma CoreIs(t: Timing, denom: real, start: nat, offset: nat, k: int)
    requires Timed(t) && Windowed(t) && denom > 0.0
    ensures IsCore(t, denom, start, offset, k, CoreAt(t, denom, start, offset, k))
  {
    hide Timed, Windowed, IsGreatCore, IsPerfectCore, FirstEnd, MaxEnd, LateHit, PerfectHit, CanActivate, FC.ServerFillCrossingRun, FC.Crosses;
    var n, runStart := |t.times|, start + offset;
    var crossing := FC.ServerFillCrossingRun(start, runStart, k, denom, n);
    CrossingOf(start, runStart, k, denom, n);
    if crossing.At? {
      CrossingIs(start, runStart, k, denom, n, crossing.note, crossing.great);
      var a: nat := crossing.note;
      forall b: nat | FC.Crosses(FC.Run(start, runStart, k), denom, b) ensures b == a {
        FC.CrossingIsUnique(FC.Run(start, runStart, k), denom, a, b);
      }
      if crossing.great {
        GreatCoreIs(t, denom, start, runStart, a);
      } else if runStart < Min(n, runStart + k) {
        PerfectCoreIs(t, denom, start, runStart, k, a);
      } else {
        NoRunNoCore(t, denom, start, runStart, k, a);
      }
    }
  }

  lemma NoRunNoCore(t: Timing, denom: real, start: nat, runStart: nat, k: int, a: nat)
    requires Timed(t) && start <= runStart && start <= a < |t.times| && runStart >= Min(|t.times|, runStart + k)
    ensures IsPerfectCore(t, denom, start, runStart, k, a, None)
  {
  }

  lemma CrossingOf(start: nat, runStart: nat, k: int, denom: real, n: nat)
    requires denom > 0.0 && start <= runStart
    ensures FC.ServerFillCrossingRun(start, runStart, k, denom, n).Never? ==>
              forall a: nat :: start <= a < n ==> !FC.Crosses(FC.Run(start, runStart, k), denom, a)
  {
    hide FC.ServerFillCrossingRun;
    FC.ClosedFormIsWalk(start, runStart, k, denom, n);
    FC.WalkFinds(FC.Run(start, runStart, k), denom, start, n);
  }
}
