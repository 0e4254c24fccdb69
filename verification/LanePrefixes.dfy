/** The exact lane-prefix test of the frontier producer (gear_optimizer/frontier/producer_kernels.py): whether some prefix
    of every lane, before the activation, has the wanted events and Greats. */
module LanePrefixes {

  datatype Chart = Chart(lanes: seq<int>, perfectLow: seq<real>, perfectHigh: seq<real>, greatLow: seq<real>, greatHigh: seq<real>)

  datatype Section = Section(start: nat, end: nat, greatStart: int, greatEnd: int, activation: nat, activationGreat: bool, hit: real)

  /** A note of the section with its label's hit window. */
  datatype Note = Note(index: nat, low: real, high: real, great: bool)

  const HEAD_NOTES := 100

  predicate Aligned(c: Chart, s: Section) {
    && s.start <= s.activation < s.end <= |c.lanes|
    && s.end <= |c.perfectLow| && s.end <= |c.perfectHigh| && s.end <= |c.greatLow| && s.end <= |c.greatHigh|
  }

  function NoteAt(c: Chart, s: Section, i: nat): Note
    requires Aligned(c, s) && i < s.end
  {
    var great := s.greatStart <= i < s.greatEnd || (i == s.activation && s.activationGreat);
    Note(i, if great then c.greatLow[i] else c.perfectLow[i], if great then c.greatHigh[i] else c.perfectHigh[i], great)
  }

  // ---- The notes of a lane, and the lanes in order of appearance.

  ghost predicate Ascending(notes: seq<Note>) { forall j, k :: 0 <= j < k < |notes| ==> notes[j].index < notes[k].index }

  function LaneNotes(c: Chart, s: Section, lane: int, upTo: nat): (notes: seq<Note>)
    requires Aligned(c, s) && s.start <= upTo <= s.end
    ensures Ascending(notes)
    ensures forall k :: 0 <= k < |notes| ==>
              s.start <= notes[k].index < upTo && c.lanes[notes[k].index] == lane && notes[k] == NoteAt(c, s, notes[k].index)
    ensures forall i :: s.start <= i < upTo && c.lanes[i] == lane ==> NoteAt(c, s, i) in notes
    decreases upTo
  {
    if upTo == s.start then []
    else if c.lanes[upTo - 1] == lane then LaneNotes(c, s, lane, upTo - 1) + [NoteAt(c, s, upTo - 1)]
    else LaneNotes(c, s, lane, upTo - 1)
  }

  function Lanes(c: Chart, s: Section, upTo: nat): (lanes: seq<int>)
    requires Aligned(c, s) && s.start <= upTo <= s.end
    decreases upTo
  {
    if upTo == s.start then []
    else
      var before := Lanes(c, s, upTo - 1);
      if c.lanes[upTo - 1] in before then before else before + [c.lanes[upTo - 1]]
  }

  function Greats(notes: seq<Note>): (n: nat)
    ensures n <= |notes|
  {
    if notes == [] then 0 else Greats(notes[..|notes| - 1]) + (if notes[|notes| - 1].great then 1 else 0)
  }

  /** The head's notes before a note. */
  function Heads(notes: seq<Note>, before: nat): (n: nat)
    ensures n <= |notes|
  {
    if notes == [] then 0
    else
      var last := notes[|notes| - 1].index;
      Heads(notes[..|notes| - 1], before) + (if last < HEAD_NOTES && last < before then 1 else 0)
  }

  // ---- What a lane allows.

  /** Some note's window closes before an earlier one of its lane opens. */
  ghost predicate IllegalLane(notes: seq<Note>) {
    exists j, k :: 0 <= j <= k < |notes| && notes[j].low > notes[k].high
  }

  /** A lane's first k notes may be hit before the activation: every note that cannot wait is among them and none that
      cannot come yet, the activation's own lane stops at it, and the head's notes are those before the activation. */
  ghost predicate Allowed(s: Section, own: bool, notes: seq<Note>, k: int) {
    && 0 <= k <= |notes|
    && (forall j :: 0 <= j < |notes| && notes[j].high < s.hit ==> j < k)
    && (forall j :: 0 <= j < |notes| && notes[j].low > s.hit ==> k <= j)
    && (own ==> k < |notes| && notes[k].index == s.activation)
    && Heads(notes[..k], HEAD_NOTES) == Heads(notes, s.activation)
  }

  datatype Scan = Illegal | Blocked | Options(first: nat, last: nat)

  ghost predicate IsScan(s: Section, own: bool, notes: seq<Note>, scan: Scan) {
    match scan
    case Illegal => IllegalLane(notes)
    case Blocked => !IllegalLane(notes) && forall k :: !Allowed(s, own, notes, k)
    case Options(first, last) =>
      !IllegalLane(notes) && first <= last <= |notes| && forall k :: Allowed(s, own, notes, k) <==> first <= k <= last
  }

  /** Along ascending notes the head's notes come first. */
  lemma {:induction false} HeadsOfPrefix(notes: seq<Note>, k: nat)
    requires k <= |notes| && Ascending(notes)
    ensures var all := Heads(notes, HEAD_NOTES); Heads(notes[..k], HEAD_NOTES) == if k < all then k else all
    ensures forall i :: 0 <= i < |notes| ==> (i < Heads(notes, HEAD_NOTES) <==> notes[i].index < HEAD_NOTES)
  {
    if notes != [] {
      var front := notes[..|notes| - 1];
      if k < |notes| {
        HeadsOfPrefix(front, k);
        assert front[..k] == notes[..k];
      } else {
        HeadsOfPrefix(front, k - 1);
        assert notes[..k] == notes;
      }
      if |front| > 0 && notes[|notes| - 1].index < HEAD_NOTES { assert front[|front| - 1].index < HEAD_NOTES; }
    }
  }

  lemma {:induction false} HeadsBefore(notes: seq<Note>, before: nat)
    ensures Heads(notes, before) <= Heads(notes, HEAD_NOTES)
  {
    if notes != [] { HeadsBefore(notes[..|notes| - 1], before); }
  }

  // ---- One pass over a lane.

  /** The running values of the pass; -1 for a maximum or position not met yet. */
  datatype Pass = Pass(clock: real, minimum: nat, maximum: int, position: int, heads: nat, targetHeads: nat)

  ghost predicate IsPass(s: Section, notes: seq<Note>, p: Pass) {
    && !IllegalLane(notes)
    && (forall j :: 0 <= j < |notes| ==> notes[j].low <= p.clock)
    && (notes != [] ==> exists j :: 0 <= j < |notes| && notes[j].low == p.clock)
    && p.minimum <= |notes| && (p.minimum > 0 ==> notes[p.minimum - 1].high < s.hit)
    && (forall j :: p.minimum <= j < |notes| ==> notes[j].high >= s.hit)
    && p.maximum < |notes| && (p.maximum >= 0 ==> notes[p.maximum].low > s.hit)
    && (forall j :: 0 <= j < |notes| && (p.maximum < 0 || j < p.maximum) ==> notes[j].low <= s.hit)
    && p.position < |notes| && (p.position >= 0 ==> notes[p.position].index == s.activation)
    && (p.position < 0 ==> forall j :: 0 <= j < |notes| ==> notes[j].index != s.activation)
    && p.heads == Heads(notes, HEAD_NOTES) && p.targetHeads == Heads(notes, s.activation)
  }

  function Advanced(s: Section, count: nat, p: Pass, note: Note): Pass {
    var head := note.index < HEAD_NOTES;
    Pass(if count == 0 || note.low > p.clock then note.low else p.clock,
         if note.high < s.hit then count + 1 else p.minimum,
         if note.low > s.hit && p.maximum < 0 then count else p.maximum,
         if note.index == s.activation then count else p.position,
         if head then p.heads + 1 else p.heads,
         if head && note.index < s.activation then p.targetHeads + 1 else p.targetHeads)
  }

  lemma NoNotes(s: Section)
    ensures IsPass(s, [], Pass(0.0, 0, -1, -1, 0, 0)) && Greats([]) == 0
  {
  }

  lemma PassAdvances(s: Section, notes: seq<Note>, p: Pass, note: Note)
    requires IsPass(s, notes, p)
    ensures var p' := Advanced(s, |notes|, p, note);
            if p'.clock > note.high then IllegalLane(notes + [note]) else IsPass(s, notes + [note], p')
  {
    hide Heads, IsPass, IllegalLane;
    ClockAdvances(s, notes, p, note);
    HeadsMore(notes, note, HEAD_NOTES);
    HeadsMore(notes, note, s.activation);
    if Advanced(s, |notes|, p, note).clock <= note.high { BoundsAdvance(s, notes, p, note); }
  }

  lemma HeadsMore(notes: seq<Note>, note: Note, before: nat)
    ensures Heads(notes + [note], before) == Heads(notes, before) + (if note.index < HEAD_NOTES && note.index < before then 1 else 0)
  {
    assert (notes + [note])[..|notes|] == notes;
  }

  lemma ClockAdvances(s: Section, notes: seq<Note>, p: Pass, note: Note)
    requires IsPass(s, notes, p)
    ensures var clock := Advanced(s, |notes|, p, note).clock;
            && (forall j :: 0 <= j <= |notes| ==> (notes + [note])[j].low <= clock)
            && (exists j :: 0 <= j <= |notes| && (notes + [note])[j].low == clock)
            && (IllegalLane(notes + [note]) <==> clock > note.high)
  {
    hide Heads;
    var more, clock := notes + [note], Advanced(s, |notes|, p, note).clock;
    if clock != note.low {
      var j :| 0 <= j < |notes| && notes[j].low == p.clock;
      assert more[j].low == clock;
    } else {
      assert more[|notes|].low == clock;
    }
    assert forall i, k :: 0 <= i <= k < |notes| ==> notes[i].low <= notes[k].high;
    assert forall i, k :: 0 <= i <= k < |notes| ==> more[i].low <= more[k].high;
    if clock > note.high { assert more[|notes|].high == note.high; }
  }

  lemma BoundsAdvance(s: Section, notes: seq<Note>, p: Pass, note: Note)
    requires IsPass(s, notes, p) && !IllegalLane(notes + [note])
    requires var clock := Advanced(s, |notes|, p, note).clock;
             && (forall j :: 0 <= j <= |notes| ==> (notes + [note])[j].low <= clock)
             && (exists j :: 0 <= j <= |notes| && (notes + [note])[j].low == clock)
    requires Heads(notes + [note], HEAD_NOTES) == Heads(notes, HEAD_NOTES) + (if note.index < HEAD_NOTES then 1 else 0)
    requires Heads(notes + [note], s.activation)
             == Heads(notes, s.activation) + (if note.index < HEAD_NOTES && note.index < s.activation then 1 else 0)
    ensures IsPass(s, notes + [note], Advanced(s, |notes|, p, note))
  {
    hide Heads, IllegalLane;
  }

  /** The range the pass leaves: from the minimum to the maximum, through the activation and the head. */
  function Range(own: bool, count: nat, p: Pass): Scan {
    var top := if p.maximum < 0 then count else p.maximum;
    if p.minimum > top || (own && !(p.minimum <= p.position <= top)) then Blocked
    else
      var first := if own then p.position else p.minimum;
      var last := if own then p.position else top;
      var first' := if first >= p.targetHeads then first else p.targetHeads;
      var last' := if p.targetHeads < p.heads && p.targetHeads < last then p.targetHeads else last;
      if first' > last' then Blocked else Options(first', last')
  }

  predicate InRange(own: bool, count: nat, p: Pass, k: int) {
    0 <= k <= count && p.minimum <= k && (p.maximum >= 0 ==> k <= p.maximum) && (own ==> k == p.position)
    && (if k < p.heads then k else p.heads) == p.targetHeads
  }

  lemma RangeIs(own: bool, count: nat, p: Pass)
    requires p.minimum <= count && p.maximum < count && p.position < count && p.targetHeads <= p.heads <= count
    ensures var scan := Range(own, count, p);
            !scan.Illegal? && (scan.Options? ==> scan.first <= scan.last <= count)
            && forall k :: InRange(own, count, p, k) <==> (scan.Options? && scan.first <= k <= scan.last)
  {
  }

  lemma AllowedIs(s: Section, own: bool, notes: seq<Note>, p: Pass, k: int)
    requires IsPass(s, notes, p) && Ascending(notes) && (own ==> exists j :: 0 <= j < |notes| && notes[j].index == s.activation)
    ensures Allowed(s, own, notes, k) <==> InRange(own, |notes|, p, k)
  {
    hide Heads, IllegalLane;
    if 0 <= k <= |notes| { HeadsOfPrefix(notes, k); }
  }

  lemma RangeIsScan(s: Section, own: bool, notes: seq<Note>, p: Pass)
    requires IsPass(s, notes, p) && Ascending(notes) && (own ==> exists j :: 0 <= j < |notes| && notes[j].index == s.activation)
    ensures IsScan(s, own, notes, Range(own, |notes|, p))
  {
    hide Heads, IllegalLane, Allowed, InRange, Range;
    HeadsBefore(notes, s.activation);
    RangeIs(own, |notes|, p);
    forall k { AllowedIs(s, own, notes, p, k); }
  }

  /** A lane illegal so far stays so. */
  lemma {:induction false} PrefixIllegal(c: Chart, s: Section, lane: int, upTo: nat)
    requires Aligned(c, s) && s.start <= upTo <= s.end && IllegalLane(LaneNotes(c, s, lane, upTo))
    ensures IllegalLane(LaneNotes(c, s, lane, s.end))
    decreases s.end - upTo
  {
    hide NoteAt, Ascending;
    if upTo < s.end {
      var notes, more := LaneNotes(c, s, lane, upTo), LaneNotes(c, s, lane, upTo + 1);
      var j, k :| 0 <= j <= k < |notes| && notes[j].low > notes[k].high;
      assert more[j].low > more[k].high;
      PrefixIllegal(c, s, lane, upTo + 1);
    }
  }

  ghost predicate PrefixGreats(notes: seq<Note>, greats: seq<nat>) {
    |greats| == |notes| + 1 && forall k :: 0 <= k <= |notes| ==> greats[k] == Greats(notes[..k])
  }

  lemma PrefixesMore(notes: seq<Note>, note: Note, greats: seq<nat>)
    requires PrefixGreats(notes, greats)
    ensures PrefixGreats(notes + [note], greats + [greats[|notes|] + (if note.great then 1 else 0)])
  {
    var more := notes + [note];
    assert more[..|notes| + 1] == more && more[..|notes|] == notes == notes[..|notes|];
    forall k | 0 <= k <= |notes| ensures more[..k] == notes[..k] { }
  }

  /** The Greats of a lane's prefixes and the range of prefixes it allows. */
  method ScanLane(c: Chart, s: Section, lane: int) returns (scan: Scan, prefixGreats: seq<nat>)
    requires Aligned(c, s)
    ensures IsScan(s, lane == c.lanes[s.activation], LaneNotes(c, s, lane, s.end), scan)
    ensures scan.Options? ==> PrefixGreats(LaneNotes(c, s, lane, s.end), prefixGreats)
  {
    hide Greats, Heads, NoteAt, IsPass, IllegalLane, Advanced, Ascending, Allowed, Range;
    ghost var notes: seq<Note> := [];
    prefixGreats := [0];
    var count, pass := 0, Pass(0.0, 0, -1, -1, 0, 0);
    NoNotes(s);
    for i := s.start to s.end
      invariant notes == LaneNotes(c, s, lane, i) && count == |notes| && IsPass(s, notes, pass) && PrefixGreats(notes, prefixGreats)
    {
      if c.lanes[i] == lane {
        var note := NoteAt(c, s, i);
        PassAdvances(s, notes, pass, note);
        pass := Advanced(s, count, pass, note);
        if pass.clock > note.high {
          PrefixIllegal(c, s, lane, i + 1);
          scan := Illegal;
          return;
        }
        PrefixesMore(notes, note, prefixGreats);
        prefixGreats := prefixGreats + [prefixGreats[count] + (if note.great then 1 else 0)];
        count := count + 1;
        notes := notes + [note];
      }
    }
    OwnNote(c, s, lane);
    RangeIsScan(s, lane == c.lanes[s.activation], notes, pass);
    scan := Range(lane == c.lanes[s.activation], count, pass);
  }

  lemma OwnNote(c: Chart, s: Section, lane: int)
    requires Aligned(c, s)
    ensures var notes := LaneNotes(c, s, lane, s.end);
            lane == c.lanes[s.activation] ==> exists j :: 0 <= j < |notes| && notes[j].index == s.activation
  {
    if lane == c.lanes[s.activation] { assert NoteAt(c, s, s.activation) in LaneNotes(c, s, lane, s.end); }
  }
}
