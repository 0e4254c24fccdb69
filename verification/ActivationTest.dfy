/** Whether a region run's activation can be hit when its bar fills (gear_optimizer/frontier/producer_kernels.py): the chart's
    own prefix certifies it at once, and where it does not the exact test over the lanes decides. */
module ActivationTest {
  import opened Arithmetic
  import opened LanePrefixes
  import FC = FillCrossing
  import LaneSums

  /** A chart with its notes' times and the earliest late-Great hits. */
  datatype Timing = Timing(chart: Chart, times: seq<real>, lateLow: seq<real>)

  ghost predicate Rising(s: seq<real>) { forall i, j :: 0 <= i <= j < |s| ==> s[i] <= s[j] }

  /** Aligned rows, floors that never fall, and for both labels a window around the note's own time. */
  ghost predicate Timed(t: Timing) {
    var c := t.chart;
    && |c.lanes| == |t.lateLow| == |c.perfectLow| == |c.perfectHigh| == |c.greatLow| == |c.greatHigh| == |t.times|
    && Rising(t.times) && Rising(c.perfectLow) && Rising(c.greatLow)
    && forall i :: 0 <= i < |t.times| ==> c.perfectLow[i] <= t.times[i] <= c.perfectHigh[i] && c.greatLow[i] <= t.times[i] <= c.greatHigh[i]
  }

  /** A section to the chart's end, with its run of Greats inside it. */
  ghost predicate Placed(t: Timing, s: Section) {
    && Timed(t) && s.start <= s.activation < s.end == |t.times|
    && s.start <= s.greatStart <= s.greatEnd <= s.end
  }

  /** The section's Greats, for the bar. */
  function Greatness(s: Section): FC.Placement {
    var great := s.greatStart <= s.activation < s.greatEnd || s.activationGreat;
    FC.Placement(s.start, s.greatStart, s.greatEnd - s.greatStart, if great then s.activation else s.start - 1)
  }

  function GreatsBefore(s: Section, note: int): int { FC.GreatsBefore(Greatness(s), note) }

  /** A note's window is that of the label the bar fills it by. */
  lemma LabelsAre(c: Chart, s: Section, i: nat)
    requires Aligned(c, s) && s.start <= i < s.end && s.start <= s.greatStart <= s.greatEnd
    ensures var note, great := NoteAt(c, s, i), FC.IsGreat(Greatness(s), i);
            && note.index == i && note.great == great
            && note.low == (if great then c.greatLow[i] else c.perfectLow[i]) && note.high == (if great then c.greatHigh[i] else c.perfectHigh[i])
  {
  }

  // ---- The chart's own prefix.

  /** The activation's own window holds its hit. */
  predicate HitsWindow(c: Chart, s: Section)
    requires Aligned(c, s)
  {
    NoteAt(c, s, s.activation).low <= s.hit <= NoteAt(c, s, s.activation).high
  }

  ghost predicate OpensInTime(c: Chart, s: Section, i: nat)
    requires Aligned(c, s) && i < s.end
  {
    NoteAt(c, s, i).low <= s.hit
  }

  ghost predicate StaysOpen(c: Chart, s: Section, i: nat)
    requires Aligned(c, s) && i < s.end
  {
    NoteAt(c, s, i).high >= s.hit
  }

  lemma HitsWindowIs(c: Chart, s: Section)
    requires Aligned(c, s)
    ensures HitsWindow(c, s) <==> OpensInTime(c, s, s.activation) && StaysOpen(c, s, s.activation)
  {
  }

  /** Every note before the activation can be hit by then, and every later one still then. */
  ghost predicate PrefixLegal(c: Chart, s: Section)
    requires Aligned(c, s)
  {
    && (forall i: nat :: s.start <= i < s.activation ==> OpensInTime(c, s, i))
    && (forall i: nat :: s.activation < i < s.end ==> StaysOpen(c, s, i))
  }

  lemma {:induction false} LanePrefix(c: Chart, s: Section, lane: int, a: nat, upTo: nat)
    requires Aligned(c, s) && s.start <= a <= upTo <= s.end
    ensures LaneNotes(c, s, lane, a) <= LaneNotes(c, s, lane, upTo)
    decreases upTo
  {
    hide NoteAt, Ascending, LaneNotes;
    if a < upTo {
      LanePrefix(c, s, lane, a, upTo - 1);
      LaneStep(c, s, lane, upTo);
    }
  }

  lemma LaneStep(c: Chart, s: Section, lane: int, upTo: nat)
    requires Aligned(c, s) && s.start < upTo <= s.end
    ensures LaneNotes(c, s, lane, upTo - 1) <= LaneNotes(c, s, lane, upTo)
  {
    hide NoteAt, Ascending;
  }

  /** What a lane has past its notes before a is at a or later. */
  lemma RestIsLater(c: Chart, s: Section, lane: int, a: nat, j: nat)
    requires Aligned(c, s) && s.start <= a <= s.end && |LaneNotes(c, s, lane, a)| <= j < |LaneNotes(c, s, lane, s.end)|
    ensures LaneNotes(c, s, lane, s.end)[j].index >= a
  {
    hide NoteAt;
    var notes, before := LaneNotes(c, s, lane, s.end), LaneNotes(c, s, lane, a);
    LanePrefix(c, s, lane, a, s.end);
    forall i | 0 <= i < |before| ensures before[i] != notes[j] {
      assert before[i] == notes[i] && notes[i].index < notes[j].index;
    }
    assert notes[j] !in before && notes[j] == NoteAt(c, s, notes[j].index);
  }

  lemma {:induction false} HeadsSplit(notes: seq<Note>, k: nat, a: nat)
    requires k <= |notes| && (forall j :: 0 <= j < k ==> notes[j].index < a) && forall j :: k <= j < |notes| ==> notes[j].index >= a
    ensures Heads(notes[..k], HEAD_NOTES) == Heads(notes, a)
  {
    if notes != [] {
      var front := notes[..|notes| - 1];
      if k < |notes| {
        HeadsSplit(front, k, a);
        assert front[..k] == notes[..k];
      } else {
        HeadsSplit(front, k - 1, a);
        assert notes[..k] == notes && front[..k - 1] == front;
      }
    }
  }

  function LaneOf(c: Chart, s: Section, k: nat): int
    requires Aligned(c, s) && k < |Lanes(c, s, s.end)|
  {
    Lanes(c, s, s.end)[k]
  }

  /** Where the activation cuts lane k. */
  function CutOf(c: Chart, s: Section, k: nat): nat
    requires Aligned(c, s) && k < |Lanes(c, s, s.end)|
  {
    |LaneNotes(c, s, LaneOf(c, s, k), s.activation)|
  }

  lemma IndexOf(c: Chart, s: Section, i: nat)
    requires Aligned(c, s) && i < s.end
    ensures NoteAt(c, s, i).index == i
  {
  }

  /** The cut of the activation's own lane is the activation. */
  lemma CutIsActivation(c: Chart, s: Section)
    requires Aligned(c, s)
    ensures var lane := c.lanes[s.activation];
            var notes, k := LaneNotes(c, s, lane, s.end), |LaneNotes(c, s, lane, s.activation)|;
            k < |notes| && notes[k].index == s.activation
  {
    hide NoteAt;
    var lane := c.lanes[s.activation];
    var notes, before := LaneNotes(c, s, lane, s.end), LaneNotes(c, s, lane, s.activation);
    LanePrefix(c, s, lane, s.activation, s.end);
    IndexOf(c, s, s.activation);
    var j :| 0 <= j < |notes| && notes[j] == NoteAt(c, s, s.activation);
    forall i | 0 <= i < |before| ensures notes[i].index < s.activation { assert notes[i] == before[i]; }
    if |before| < |notes| { RestIsLater(c, s, lane, s.activation, |before|); }
    CutPlace(notes, |before|, s.activation, j);
  }

  lemma CutPlace(notes: seq<Note>, k: nat, x: nat, j: nat)
    requires Ascending(notes) && k <= |notes| && j < |notes| && notes[j].index == x
    requires (forall i :: 0 <= i < k ==> notes[i].index < x) && (k < |notes| ==> notes[k].index >= x)
    ensures j == k
  {
    assert k < |notes|;
  }

  /** The chart's own prefix is allowed in every lane. */
  lemma CutAllowed(c: Chart, s: Section, k: nat)
    requires Aligned(c, s) && HitsWindow(c, s) && PrefixLegal(c, s) && k < |Lanes(c, s, s.end)|
    ensures LaneSums.Option(c, s, k, CutOf(c, s, k))
    ensures LaneSums.OptionGreats(c, s, k, CutOf(c, s, k)) == Greats(LaneNotes(c, s, LaneOf(c, s, k), s.activation))
  {
    hide Lanes, NoteAt, Heads, Greats;
    var lane := LaneOf(c, s, k);
    var notes, before := LaneNotes(c, s, lane, s.end), LaneNotes(c, s, lane, s.activation);
    LanePrefix(c, s, lane, s.activation, s.end);
    assert notes[..|before|] == before;
    forall j: nat | |before| <= j < |notes| ensures notes[j].index >= s.activation { RestIsLater(c, s, lane, s.activation, j); }
    HeadsSplit(notes, |before|, s.activation);
    CutIsActivation(c, s);
    forall j: nat | j < |notes| ensures j < |before| ==> notes[j].low <= s.hit ensures j >= |before| ==> notes[j].high >= s.hit {
      assert notes[j] == NoteAt(c, s, notes[j].index);
      if j < |before| { assert OpensInTime(c, s, notes[j].index); }
      else if notes[j].index != s.activation { assert StaysOpen(c, s, notes[j].index); }
    }
  }

  // ---- The lanes' cuts add up to the prefix.

  function Events(c: Chart, s: Section, lanes: seq<int>, upTo: nat): int
    requires Aligned(c, s) && s.start <= upTo <= s.end
  {
    if lanes == [] then 0 else Events(c, s, lanes[..|lanes| - 1], upTo) + |LaneNotes(c, s, lanes[|lanes| - 1], upTo)|
  }

  function GreatEvents(c: Chart, s: Section, lanes: seq<int>, upTo: nat): int
    requires Aligned(c, s) && s.start <= upTo <= s.end
  {
    if lanes == [] then 0 else GreatEvents(c, s, lanes[..|lanes| - 1], upTo) + Greats(LaneNotes(c, s, lanes[|lanes| - 1], upTo))
  }

  ghost predicate Distinct(lanes: seq<int>) { forall i, j :: 0 <= i < j < |lanes| ==> lanes[i] != lanes[j] }

  lemma {:induction false} LanesAre(c: Chart, s: Section, upTo: nat)
    requires Aligned(c, s) && s.start <= upTo <= s.end
    ensures Distinct(Lanes(c, s, upTo)) && forall i :: s.start <= i < upTo ==> c.lanes[i] in Lanes(c, s, upTo)
    decreases upTo
  {
    if upTo > s.start { LanesAre(c, s, upTo - 1); }
  }

  lemma LaneGreats(c: Chart, s: Section, lane: int, upTo: nat)
    requires Aligned(c, s) && s.start < upTo <= s.end
    ensures var one := if c.lanes[upTo - 1] == lane then 1 else 0;
            && |LaneNotes(c, s, lane, upTo)| == |LaneNotes(c, s, lane, upTo - 1)| + one
            && Greats(LaneNotes(c, s, lane, upTo)) == Greats(LaneNotes(c, s, lane, upTo - 1)) + (if NoteAt(c, s, upTo - 1).great then one else 0)
  {
    hide NoteAt, Ascending;
    var notes := LaneNotes(c, s, lane, upTo - 1);
    assert (notes + [NoteAt(c, s, upTo - 1)])[..|notes|] == notes;
  }

  /** One more note is one more event of its lane, and a Great if it is one. */
  lemma {:induction false} OneMore(c: Chart, s: Section, lanes: seq<int>, upTo: nat)
    requires Aligned(c, s) && s.start < upTo <= s.end && Distinct(lanes)
    ensures var one := if c.lanes[upTo - 1] in lanes then 1 else 0;
            && Events(c, s, lanes, upTo) == Events(c, s, lanes, upTo - 1) + one
            && GreatEvents(c, s, lanes, upTo) == GreatEvents(c, s, lanes, upTo - 1) + (if NoteAt(c, s, upTo - 1).great then one else 0)
  {
    hide NoteAt, LaneNotes, Greats;
    if lanes != [] {
      var front, last := lanes[..|lanes| - 1], lanes[|lanes| - 1];
      OneMore(c, s, front, upTo);
      LaneGreats(c, s, last, upTo);
      var lane := c.lanes[upTo - 1];
      assert last !in front && (lane in lanes <==> lane in front || lane == last);
    }
  }

  lemma {:induction false} NoEvents(c: Chart, s: Section, lanes: seq<int>)
    requires Aligned(c, s)
    ensures Events(c, s, lanes, s.start) == 0 && GreatEvents(c, s, lanes, s.start) == 0
  {
    if lanes != [] { NoEvents(c, s, lanes[..|lanes| - 1]); }
  }

  lemma GreatsStep(s: Section, upTo: nat)
    requires s.start < upTo <= s.activation && s.start <= s.greatStart <= s.greatEnd
    ensures GreatsBefore(s, upTo) == GreatsBefore(s, upTo - 1) + (if s.greatStart <= upTo - 1 < s.greatEnd then 1 else 0)
    ensures GreatsBefore(s, s.start) == 0
  {
  }

  /** The notes before the activation: all of them, with the run's Greats. */
  lemma {:induction false} EventsAre(c: Chart, s: Section, lanes: seq<int>, upTo: nat)
    requires Aligned(c, s) && s.start <= s.greatStart <= s.greatEnd && s.start <= upTo <= s.activation && Distinct(lanes)
    requires forall i :: s.start <= i < s.end ==> c.lanes[i] in lanes
    ensures Events(c, s, lanes, upTo) == upTo - s.start && GreatEvents(c, s, lanes, upTo) == GreatsBefore(s, upTo)
    decreases upTo
  {
    hide Events, GreatEvents, GreatsBefore;
    if upTo == s.start {
      NoEvents(c, s, lanes);
      if s.start < s.activation { GreatsStep(s, s.start + 1); } else { NoGreats(s); }
    } else {
      EventsAre(c, s, lanes, upTo - 1);
      OneMore(c, s, lanes, upTo);
      GreatsStep(s, upTo);
    }
  }

  lemma NoGreats(s: Section)
    requires s.start <= s.greatStart <= s.greatEnd
    ensures GreatsBefore(s, s.start) == 0
  {
  }

  function Cuts(c: Chart, s: Section, k: nat): (choice: seq<nat>)
    requires Aligned(c, s) && k <= |Lanes(c, s, s.end)|
    ensures |choice| == k && forall j :: 0 <= j < k ==> choice[j] == CutOf(c, s, j)
  {
    seq(k, j requires 0 <= j < k => CutOf(c, s, j))
  }

  lemma {:induction false} CutsAreChoice(c: Chart, s: Section, lanes: seq<int>)
    requires Aligned(c, s) && HitsWindow(c, s) && PrefixLegal(c, s) && lanes <= Lanes(c, s, s.end)
    ensures LaneSums.IsChoice(c, s, Cuts(c, s, |lanes|), Events(c, s, lanes, s.activation), GreatEvents(c, s, lanes, s.activation))
  {
    hide LaneSums.Option, LaneSums.OptionGreats, Lanes, PrefixLegal, HitsWindow, Greats, LaneNotes;
    if lanes != [] {
      var k := |lanes| - 1;
      CutsAreChoice(c, s, lanes[..k]);
      CutAllowed(c, s, k);
      assert Cuts(c, s, |lanes|)[..k] == Cuts(c, s, k);
      assert lanes[k] == LaneOf(c, s, k);
    }
  }

  /** The lanes have prefixes with the wanted events and Greats. */
  ghost predicate Chooses(c: Chart, s: Section)
    requires Aligned(c, s)
  {
    LaneSums.Choosable(c, s, |Lanes(c, s, s.end)|, s.activation - s.start, GreatsBefore(s, s.activation))
  }

  /** The certificate: where the chart's own prefix is legal the exact test would pass. */
  lemma PrefixIsChoosable(c: Chart, s: Section)
    requires Aligned(c, s) && s.start <= s.greatStart <= s.greatEnd && HitsWindow(c, s) && PrefixLegal(c, s)
    ensures Chooses(c, s)
  {
    hide Lanes, PrefixLegal, HitsWindow, LaneSums.IsChoice, GreatsBefore;
    var lanes := Lanes(c, s, s.end);
    LanesAre(c, s, s.end);
    EventsAre(c, s, lanes, s.activation);
    CutsAreChoice(c, s, lanes);
    assert |Cuts(c, s, |lanes|)| == |lanes|;
  }

  // ---- The test.

  /** The bar fills on the activation, and the hit is in its window. */
  ghost predicate FillsHere(t: Timing, denom: real, s: Section)
    requires Placed(t, s)
  {
    OpensInTime(t.chart, s, s.activation) && StaysOpen(t.chart, s, s.activation) && FC.Crosses(Greatness(s), denom, s.activation)
  }

  /** The activation can be hit then: the bar fills on it and the lanes can play everything before it first. */
  ghost predicate CanActivate(t: Timing, denom: real, s: Section)
    requires Placed(t, s)
  {
    FillsHere(t, denom, s) && Chooses(t.chart, s)
  }

  /** The packed table the exact test would need. */
  function Cells(s: Section): int { (s.activation - s.start + 1) * ((GreatsBefore(s, s.activation) + 64) / 64) }

  /** With windows around rising times no lane is illegal. */
  lemma NeverIllegal(t: Timing, s: Section)
    requires Placed(t, s)
    ensures !LaneSums.MeetsIllegal(t.chart, s)
  {
    hide Lanes, LaneSums.OpenBefore;
    forall k: nat | k < |Lanes(t.chart, s, s.end)| ensures !IllegalLane(LaneSums.NotesOf(t.chart, s, k)) {
      LaneIsLegal(t, s, Lanes(t.chart, s, s.end)[k]);
    }
  }

  lemma LaneIsLegal(t: Timing, s: Section, lane: int)
    requires Placed(t, s)
    ensures !IllegalLane(LaneNotes(t.chart, s, lane, s.end))
  {
    hide NoteAt;
    var notes := LaneNotes(t.chart, s, lane, s.end);
    forall i: nat | i < |notes| ensures notes[i].low <= t.times[notes[i].index] <= notes[i].high { WindowHasTime(t, s, notes[i].index); }
    forall j, k | 0 <= j <= k < |notes| ensures notes[j].low <= notes[k].high {
      assert j < k ==> notes[j].index < notes[k].index;
      assert t.times[notes[j].index] <= t.times[notes[k].index];
    }
  }

  lemma WindowHasTime(t: Timing, s: Section, i: nat)
    requires Placed(t, s) && i < s.end
    ensures NoteAt(t.chart, s, i).low <= t.times[i] <= NoteAt(t.chart, s, i).high
  {
  }

  lemma TargetsFit(s: Section)
    requires s.start <= s.activation < s.end && s.start <= s.greatStart <= s.greatEnd
    ensures 0 <= GreatsBefore(s, s.activation) <= s.activation - s.start
    ensures !LaneSums.OutOfTarget(s, s.activation - s.start, GreatsBefore(s, s.activation))
  {
  }

  /** The three floors looked at: the last before the run, the last in it, the last after it. */
  predicate FloorsLegal(t: Timing, s: Section)
    requires |t.chart.perfectLow| >= s.end && |t.chart.greatLow| >= s.end
    requires s.start <= s.activation < s.end && s.start <= s.greatStart <= s.greatEnd <= s.end
  {
    var before, inside := Min(s.activation, s.greatStart), Min(s.activation, s.greatEnd);
    && (before > s.start ==> t.chart.perfectLow[before - 1] <= s.hit)
    && (inside > s.greatStart ==> t.chart.greatLow[inside - 1] <= s.hit)
    && (s.activation > s.greatEnd ==> t.chart.perfectLow[s.activation - 1] <= s.hit)
  }

  lemma FloorsAre(t: Timing, s: Section)
    requires Placed(t, s)
    ensures FloorsLegal(t, s) <==> forall i: nat :: s.start <= i < s.activation ==> OpensInTime(t.chart, s, i)
  {
    var c := t.chart;
    var before, inside := Min(s.activation, s.greatStart), Min(s.activation, s.greatEnd);
    if FloorsLegal(t, s) {
      forall i: nat | s.start <= i < s.activation ensures OpensInTime(c, s, i) {
        if i < s.greatStart { assert c.perfectLow[i] <= c.perfectLow[before - 1]; }
        else if i < s.greatEnd { assert c.greatLow[i] <= c.greatLow[inside - 1]; }
        else { assert c.perfectLow[i] <= c.perfectLow[s.activation - 1]; }
      }
    } else if before > s.start && c.perfectLow[before - 1] > s.hit {
      assert !OpensInTime(c, s, before - 1);
    } else if inside > s.greatStart && c.greatLow[inside - 1] > s.hit {
      assert !OpensInTime(c, s, inside - 1);
    } else {
      assert !OpensInTime(c, s, s.activation - 1);
    }
  }

  /** Later notes are looked at only while their own times lie before the hit. */
  method StayOpen(t: Timing, s: Section) returns (legal: bool)
    requires Placed(t, s)
    ensures legal <==> forall i: nat :: s.activation < i < s.end ==> StaysOpen(t.chart, s, i)
  {
    for j := s.activation + 1 to s.end
      invariant forall i: nat :: s.activation < i < j ==> StaysOpen(t.chart, s, i)
    {
      if t.times[j] >= s.hit {
        forall i: nat | j <= i < s.end ensures StaysOpen(t.chart, s, i) {
          WindowHasTime(t, s, i);
          assert t.times[j] <= t.times[i];
        }
        return true;
      }
      var high := if s.greatStart <= j < s.greatEnd then t.chart.greatHigh[j] else t.chart.perfectHigh[j];
      if high < s.hit {
        assert !StaysOpen(t.chart, s, j);
        return false;
      }
    }
    legal := true;
  }

  /** The bar before the activation in halves. */
  lemma HalvesAre(denom: real, s: Section, fill: real)
    requires s.start <= s.activation < s.end && s.start <= s.greatStart <= s.greatEnd
    requires fill == 0.5 * (2 * (s.activation - s.start) - GreatsBefore(s, s.activation)) as real
    ensures FC.Crosses(Greatness(s), denom, s.activation) <==> fill < denom && denom <= fill + FC.Fill(Greatness(s), s.activation)
    ensures FC.Crosses(Greatness(s), denom, s.activation) ==> denom <= (s.end - s.start) as real
  {
    hide FC.GreatsBefore;
    FC.BarOfRun(Greatness(s), s.activation);
    TargetsFit(s);
  }

  /** True exactly when the activation can be hit; the certificate only ever spares the exact test. */
  method ActivationReachable(t: Timing, denom: real, s: Section) returns (verdict: LaneSums.Verdict)
    requires Placed(t, s)
    ensures verdict.Answer? ==> (verdict.reachable <==> CanActivate(t, denom, s))
    ensures verdict.Raised? <==> FillsHere(t, denom, s) && !PrefixLegal(t.chart, s) && Cells(s) > LaneSums.MAX_WORD_CELLS
  {
    hide FC.Crosses, FC.GreatsBefore, LaneSums.Choosable, LaneSums.MeetsIllegal, StaysOpen, OpensInTime, FloorsLegal, LaneSums.OutOfTarget;
    var greats := GreatsBefore(s, s.activation);
    var fill := 0.5 * (2 * (s.activation - s.start) - greats) as real;
    HalvesAre(denom, s, fill);
    HitsWindowIs(t.chart, s);
    if denom > (s.end - s.start) as real { return LaneSums.Answer(false); }
    if !HitsWindow(t.chart, s) { return LaneSums.Answer(false); }
    if !(fill < denom && denom <= fill + FC.Fill(Greatness(s), s.activation)) { return LaneSums.Answer(false); }
    FloorsAre(t, s);
    var legal := FloorsLegal(t, s);
    if legal { legal := StayOpen(t, s); }
    if legal {
      PrefixIsChoosable(t.chart, s);
      return LaneSums.Answer(true);
    }
    TargetsFit(s);
    NeverIllegal(t, s);
    verdict := LaneSums.Reachable(t.chart, s, s.activation - s.start, greats);
  }
}
