/** The fever timeline at fixed hit times (gear_optimizer/solver/fever_timeline.py): the section loop against the game's
    fever bar, note by note. */
module FeverTimeline {

  /** The bar with the notes that fill it so far, or a fever and when it ends. */
  datatype Bar = Filling(count: nat) | Fever(end: real)

  /** A play's hit times, the notes that fill the bar, and how long a fever lasts. */
  datatype Play = Play(times: seq<real>, fill: nat, duration: real)

  ghost predicate IsPlay(p: Play) {
    p.fill >= 1 && p.duration > 0.0 && forall i, j :: 0 <= i < j < |p.times| ==> p.times[i] <= p.times[j]
  }

  /** One note: it adds its fill first and is in fever if that fills the bar; the note a fever ends at adds none. */
  function Next(p: Play, bar: Bar, time: real): Bar {
    match bar
    case Filling(count) => if count + 1 >= p.fill then Fever(time + p.duration) else Filling(count + 1)
    case Fever(end) => if time < end then bar else Filling(0)
  }

  predicate Scored(p: Play, bar: Bar, time: real) {
    match bar
    case Filling(count) => count + 1 >= p.fill
    case Fever(end) => time < end
  }

  /** The bar before note i. */
  function BarAt(p: Play, i: nat): Bar
    requires i <= |p.times|
  {
    if i == 0 then Filling(0) else Next(p, BarAt(p, i - 1), p.times[i - 1])
  }

  predicate InFever(p: Play, i: nat)
    requires i < |p.times|
  {
    Scored(p, BarAt(p, i), p.times[i])
  }

  /** Fevers started by the first n notes. */
  function Activations(p: Play, n: nat): nat
    requires n <= |p.times|
  {
    if n == 0 then 0 else Activations(p, n - 1) + (if BarAt(p, n - 1).Filling? && InFever(p, n - 1) then 1 else 0)
  }

  /** The note after the last fever note, 0 without one. */
  function LastEnd(p: Play, n: nat): nat
    requires n <= |p.times|
  {
    if n == 0 then 0 else if InFever(p, n - 1) then n else LastEnd(p, n - 1)
  }

  function BodyFever(p: Play, from: nat, n: nat): nat
    requires from <= n <= |p.times|
    decreases n
  {
    if n == from then 0 else BodyFever(p, from, n - 1) + (if InFever(p, n - 1) then 1 else 0)
  }

  // ---- Runs of notes.

  /** From the note after `start`, the bar counts up to the one that fills it. */
  lemma {:induction false} Fills(p: Play, start: nat, base: nat, n: nat)
    requires IsPlay(p) && start + n <= |p.times| && BarAt(p, start) == Filling(base) && base + n < p.fill
    ensures BarAt(p, start + n) == Filling(base + n)
    ensures forall i :: start <= i < start + n ==> !InFever(p, i)
    ensures Activations(p, start + n) == Activations(p, start) && LastEnd(p, start + n) == LastEnd(p, start)
  {
    if n > 0 { Fills(p, start, base, n - 1); }
  }

  /** A fever holds until the first note at or past its end. */
  lemma {:induction false} Burns(p: Play, start: nat, stop: nat)
    requires IsPlay(p) && start < stop <= |p.times| && BarAt(p, start) == Filling(p.fill - 1)
    requires forall i :: start < i < stop ==> p.times[i] < p.times[start] + p.duration
    ensures BarAt(p, stop) == Fever(p.times[start] + p.duration)
    ensures forall i :: start <= i < stop ==> InFever(p, i)
    ensures Activations(p, stop) == Activations(p, start) + 1 && LastEnd(p, stop) == stop
    decreases stop
  {
    if start + 1 < stop { Burns(p, start, stop - 1); }
  }

  /** The note a fever ends at adds no fill. */
  lemma Ends(p: Play, i: nat)
    requires i < |p.times| && BarAt(p, i).Fever? && p.times[i] >= BarAt(p, i).end
    ensures BarAt(p, i + 1) == Filling(0) && !InFever(p, i)
    ensures Activations(p, i + 1) == Activations(p, i) && LastEnd(p, i + 1) == LastEnd(p, i)
  {
  }

  /** numpy's left search on non-decreasing times. */
  method SearchLeft(times: seq<real>, value: real) returns (index: nat)
    requires forall i, j :: 0 <= i < j < |times| ==> times[i] <= times[j]
    ensures index <= |times| && (forall i :: 0 <= i < index ==> times[i] < value) && (index < |times| ==> times[index] >= value)
  {
    index := 0;
    while index < |times| && times[index] < value
      invariant index <= |times| && forall i :: 0 <= i < index ==> times[i] < value
    {
      index := index + 1;
    }
  }

  // ---- The section loop.

  ghost predicate MaskIs(p: Play, mask: seq<bool>, n: nat) {
    |mask| >= |p.times| >= n && (forall i :: 0 <= i < n ==> mask[i] == InFever(p, i)) && forall i :: n <= i < |mask| ==> !mask[i]
  }

  /** What the loop knows at a section's start: nothing played, or a fever just over. */
  ghost predicate AtSection(p: Play, section: nat, note: nat)
    requires note <= |p.times|
  {
    if section == 0 then note == 0
    else BarAt(p, note).Fever? && (note < |p.times| ==> p.times[note] >= BarAt(p, note).end)
  }

  /** A section's notes up to the one that fills the bar. */
  lemma SectionFills(p: Play, section: nat, note: nat, stop: nat)
    requires IsPlay(p) && note <= stop <= |p.times| && AtSection(p, section, note)
    requires note < |p.times| && (stop < |p.times| ==> stop == note + p.fill - (if section == 0 then 1 else 0))
    requires stop <= note + p.fill - (if section == 0 then 1 else 0) && (section == 0 || note < stop)
    ensures stop < |p.times| ==> BarAt(p, stop) == Filling(p.fill - 1)
    ensures forall i :: note <= i < stop ==> !InFever(p, i)
    ensures Activations(p, stop) == Activations(p, note) && LastEnd(p, stop) == LastEnd(p, note)
  {
    hide Next, Scored, Activations, LastEnd;
    if section == 0 {
      NoNotes(p);
      Fills(p, 0, 0, stop);
    } else {
      Ends(p, note);
      Fills(p, note + 1, 0, stop - note - 1);
    }
  }

  lemma NoNotes(p: Play)
    ensures BarAt(p, 0) == Filling(0) && Activations(p, 0) == 0 && LastEnd(p, 0) == 0
  {
  }

  /** The mask, the body counts, the activations and where the last fever ended. With a fill of 1 the loop stops before the
      first note and marks nothing. */
  method Timeline(p: Play, mask: array<bool>) returns (bodyFever: nat, bodyNormal: nat, activations: nat, lastEnd: nat)
    requires IsPlay(p) && mask.Length == |p.times|
    modifies mask
    ensures p.fill >= 2 || p.times == [] ==>
              && MaskIs(p, mask[..], |p.times|)
              && (|p.times| > 100 ==> bodyFever == BodyFever(p, 100, |p.times|) && bodyFever + bodyNormal == |p.times| - 100)
              && (|p.times| <= 100 ==> bodyFever == 0 && bodyNormal == 0)
              && activations == Activations(p, |p.times|) && lastEnd == LastEnd(p, |p.times|)
    ensures p.fill == 1 ==> (forall i :: 0 <= i < mask.Length ==> !mask[i]) && activations == 0
    ensures MaskIs(p, mask[..], |p.times|) <==> p.fill >= 2 || p.times == []
  {
    hide BarAt, InFever, Activations, LastEnd;
    for i := 0 to mask.Length
      invariant forall j :: 0 <= j < i ==> !mask[j]
    {
      mask[i] := false;
    }
    NoNotes(p);
    activations, lastEnd := Sections(p, mask);
    bodyFever, bodyNormal := 0, 0;
    if |p.times| > 100 {
      bodyFever, bodyNormal := BodyCounts(p, mask);
    }
    TimelineIsBar(p, mask[..]);
  }

  method BodyCounts(p: Play, mask: array<bool>) returns (fever: nat, normal: nat)
    requires mask.Length == |p.times| > 100
    ensures fever + normal == |p.times| - 100 && (MaskIs(p, mask[..], |p.times|) ==> fever == BodyFever(p, 100, |p.times|))
  {
    hide InFever;
    fever, normal := 0, 0;
    for i := 100 to |p.times|
      invariant fever + normal == i - 100 && (MaskIs(p, mask[..], |p.times|) ==> fever == BodyFever(p, 100, i))
    {
      assert MaskIs(p, mask[..], |p.times|) ==> mask[..][i] == InFever(p, i);
      if mask[i] { fever := fever + 1; } else { normal := normal + 1; }
    }
  }

  method Sections(p: Play, mask: array<bool>) returns (activations: nat, lastEnd: nat)
    requires IsPlay(p) && mask.Length == |p.times| && forall i :: 0 <= i < mask.Length ==> !mask[i]
    modifies mask
    ensures p.fill >= 2 || p.times == [] ==>
              MaskIs(p, mask[..], |p.times|) && activations == Activations(p, |p.times|) && lastEnd == LastEnd(p, |p.times|)
    ensures p.fill == 1 ==> (forall i :: 0 <= i < mask.Length ==> !mask[i]) && activations == 0
  {
    hide BarAt, InFever, Activations, LastEnd;
    var n := |p.times|;
    var note, section := 0, 0;
    activations, lastEnd := 0, 0;
    NoNotes(p);
    while note < n
      invariant note <= n && AtSection(p, section, note) && MaskIs(p, mask[..], note)
      invariant activations == Activations(p, note) && lastEnd == LastEnd(p, note)
      invariant p.fill == 1 ==> note == 0 && section == 0
      decreases n - note
    {
      var toFill := if section == 0 then p.fill - 1 else p.fill;
      var stop := if note + toFill < n then note + toFill else n;
      SectionFills(p, section, note, stop);
      section := section + 1;
      note := stop;
      if note >= n { break; }
      if note == 0 { return; }
      activations := activations + 1;
      var end := SearchLeft(p.times, p.times[note] + p.duration);
      Burns(p, note, end);
      MarkFever(p, mask, note, end);
      note := end;
      lastEnd := end;
    }
  }

  method MarkFever(p: Play, mask: array<bool>, start: nat, end: nat)
    requires start <= end <= |p.times| == mask.Length && MaskIs(p, mask[..], start) && forall i :: start <= i < end ==> InFever(p, i)
    modifies mask
    ensures MaskIs(p, mask[..], end)
  {
    hide InFever;
    for i := start to end
      invariant MaskIs(p, mask[..], i)
    {
      mask[i] := true;
    }
  }

  /** A fill of 1 fills the bar with the first note, which the loop does not mark: it agrees with the bar exactly for a fill of
      at least 2, or no notes. */
  lemma TimelineIsBar(p: Play, mask: seq<bool>)
    requires IsPlay(p) && |mask| == |p.times|
    requires p.fill >= 2 || p.times == [] ==> MaskIs(p, mask, |p.times|)
    requires p.fill == 1 ==> forall i :: 0 <= i < |mask| ==> !mask[i]
    ensures MaskIs(p, mask, |p.times|) <==> p.fill >= 2 || p.times == []
  {
    if p.fill == 1 && p.times != [] { assert InFever(p, 0); }
  }
}
