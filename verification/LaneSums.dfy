/** The packed table over all lanes (gear_optimizer/frontier/producer_kernels.py): it answers whether the lanes' prefixes
    can be chosen to have the wanted events and Greats. */
module LaneSums {
  import opened Words
  import opened LaneTable
  import opened LanePrefixes

  const MAX_WORD_CELLS := 16_777_216

  ghost predicate IsOwn(c: Chart, s: Section, lane: int)
    requires Aligned(c, s)
  {
    lane == c.lanes[s.activation]
  }

  function NotesOf(c: Chart, s: Section, k: nat): (notes: seq<Note>)
    requires Aligned(c, s) && k < |Lanes(c, s, s.end)|
  {
    LaneNotes(c, s, Lanes(c, s, s.end)[k], s.end)
  }

  /** Lane k allows a prefix of this many notes. */
  ghost predicate Option(c: Chart, s: Section, k: nat, count: nat): (allowed: bool)
    requires Aligned(c, s) && k < |Lanes(c, s, s.end)|
    ensures allowed ==> count <= |NotesOf(c, s, k)|
  {
    Allowed(s, IsOwn(c, s, Lanes(c, s, s.end)[k]), NotesOf(c, s, k), count)
  }

  function OptionGreats(c: Chart, s: Section, k: nat, count: nat): nat
    requires Aligned(c, s) && k < |Lanes(c, s, s.end)| && count <= |NotesOf(c, s, k)|
  {
    Greats(NotesOf(c, s, k)[..count])
  }

  /** One allowed prefix per lane of the first |choice|, with these events and Greats in all. */
  ghost predicate IsChoice(c: Chart, s: Section, choice: seq<nat>, events: int, greats: int)
    requires Aligned(c, s)
  {
    && |choice| <= |Lanes(c, s, s.end)|
    && if choice == [] then events == 0 && greats == 0
       else
         var k := |choice| - 1;
         && Option(c, s, k, choice[k])
         && IsChoice(c, s, choice[..k], events - choice[k], greats - OptionGreats(c, s, k, choice[k]))
  }

  ghost predicate Choosable(c: Chart, s: Section, k: nat, events: int, greats: int)
    requires Aligned(c, s)
  {
    exists choice: seq<nat> :: |choice| == k && IsChoice(c, s, choice, events, greats)
  }

  lemma {:induction false} ChoiceIsNatural(c: Chart, s: Section, choice: seq<nat>, events: int, greats: int)
    requires Aligned(c, s) && IsChoice(c, s, choice, events, greats)
    ensures events >= 0 && greats >= 0
  {
    hide Option, OptionGreats;
    if choice != [] {
      var k := |choice| - 1;
      ChoiceIsNatural(c, s, choice[..k], events - choice[k], greats - OptionGreats(c, s, k, choice[k]));
    }
  }

  lemma ChooseNone(c: Chart, s: Section, events: int, greats: int)
    requires Aligned(c, s)
    ensures Choosable(c, s, 0, events, greats) <==> events == 0 && greats == 0
  {
    if events == 0 && greats == 0 { assert IsChoice(c, s, [], events, greats); }
  }

  /** What some option of lane k leaves for the lanes before it. */
  ghost predicate Extends(c: Chart, s: Section, k: nat, events: int, greats: int, option: nat)
    requires Aligned(c, s) && k < |Lanes(c, s, s.end)|
  {
    Option(c, s, k, option) && Choosable(c, s, k, events - option, greats - OptionGreats(c, s, k, option))
  }

  lemma ChooseOneMore(c: Chart, s: Section, k: nat, events: int, greats: int)
    requires Aligned(c, s) && k < |Lanes(c, s, s.end)|
    ensures Choosable(c, s, k + 1, events, greats) <==> exists option: nat :: Extends(c, s, k, events, greats, option)
  {
    hide Option, OptionGreats, Extends, Lanes;
    if Choosable(c, s, k + 1, events, greats) {
      var choice: seq<nat> :| |choice| == k + 1 && IsChoice(c, s, choice, events, greats);
      LastChoice(c, s, choice, events, greats);
    }
    if option: nat :| Extends(c, s, k, events, greats, option) {
      ChooseMore(c, s, k, events, greats, option);
    }
  }

  lemma LastChoice(c: Chart, s: Section, choice: seq<nat>, events: int, greats: int)
    requires Aligned(c, s) && choice != [] && IsChoice(c, s, choice, events, greats)
    ensures var k := |choice| - 1; Extends(c, s, k, events, greats, choice[k])
  {
    hide Option, OptionGreats, Lanes, Aligned;
    var k := |choice| - 1;
    var front := choice[..k];
    assert |front| == k && IsChoice(c, s, front, events - choice[k], greats - OptionGreats(c, s, k, choice[k]));
  }

  lemma ChooseMore(c: Chart, s: Section, k: nat, events: int, greats: int, option: nat)
    requires Aligned(c, s) && k < |Lanes(c, s, s.end)| && Extends(c, s, k, events, greats, option)
    ensures Choosable(c, s, k + 1, events, greats)
  {
    hide Option, OptionGreats, Lanes;
    var choice: seq<nat> :| |choice| == k && IsChoice(c, s, choice, events - option, greats - OptionGreats(c, s, k, option));
    var more := choice + [option];
    assert more[..k] == choice && more[k] == option;
    assert IsChoice(c, s, more, events, greats);
  }

  /** The table holds what the first k lanes can reach, up to the target Greats. */
  ghost predicate TableIs(c: Chart, s: Section, k: nat, table: array2<nat>, greatest: nat)
    requires Aligned(c, s) && greatest < WORD_BITS * table.Length1
    reads table
  {
    forall e: nat, g: nat :: e < table.Length0 && g <= greatest ==> (CellBit(table, e, g) <==> Choosable(c, s, k, e, g))
  }

  /** Some option below `end` reaches a cell from the table before. */
  ghost predicate Merged(c: Chart, s: Section, k: nat, first: nat, end: nat, e: nat, g: nat)
    requires Aligned(c, s) && k < |Lanes(c, s, s.end)|
  {
    exists option: nat :: first <= option < end && Extends(c, s, k, e, g, option)
  }

  /** Merges every option of one lane. */
  method MergeLane(c: Chart, s: Section, k: nat, scan: Scan, prefixGreats: seq<nat>, table: array2<nat>, merged: array2<nat>, greatest: nat)
    requires Aligned(c, s) && k < |Lanes(c, s, s.end)| && table != merged
    requires table.Length0 == merged.Length0 > 0 && table.Length1 == merged.Length1 && greatest < WORD_BITS * table.Length1
    requires scan.Options? && IsScan(s, IsOwn(c, s, Lanes(c, s, s.end)[k]), NotesOf(c, s, k), scan)
    requires PrefixGreats(NotesOf(c, s, k), prefixGreats)
    requires Packed(table) && TableIs(c, s, k, table, greatest)
    modifies merged
    ensures Packed(merged) && TableIs(c, s, k + 1, merged, greatest)
  {
    hide Packed, Choosable, Extends, NotesOf, Greats, IllegalLane, Allowed, CellBit, LaneNotes, Lanes;
    var first, last := scan.first, scan.last;
    forall e, w | 0 <= e < merged.Length0 && 0 <= w < merged.Length1 {
      merged[e, w] := 0;
    }
    Cleared(merged);
    for option := first to last + 1
      invariant Packed(table) && Packed(merged) && TableIs(c, s, k, table, greatest)
      invariant forall e: nat, g: nat :: e < merged.Length0 && g <= greatest ==> (CellBit(merged, e, g) <==> Merged(c, s, k, first, option, e, g))
    {
      var greats := prefixGreats[option];
      assert greats == OptionGreats(c, s, k, option) && Option(c, s, k, option);
      if option >= table.Length0 || greats > greatest {
        forall e: nat, g: nat | e < merged.Length0 && g <= greatest
          ensures Merged(c, s, k, first, option + 1, e, g) <==> Merged(c, s, k, first, option, e, g)
        {
          TooLarge(c, s, k, e, g, option);
          MergedMore(c, s, k, first, option, e, g);
        }
      } else {
        MergeOption(table, merged, option, greats);
        forall e: nat, g: nat | e < merged.Length0 && g <= greatest
          ensures CellBit(merged, e, g) <==> Merged(c, s, k, first, option + 1, e, g)
        {
          ExtendsIs(c, s, k, e, g, option);
          MergedMore(c, s, k, first, option, e, g);
        }
      }
    }
    forall e: nat, g: nat | e < merged.Length0 && g <= greatest
      ensures CellBit(merged, e, g) <==> Choosable(c, s, k + 1, e, g)
    {
      ChooseOneMore(c, s, k, e, g);
      MergedAll(c, s, k, scan, e, g);
    }
  }

  lemma Cleared(t: array2<nat>)
    requires forall e, w :: 0 <= e < t.Length0 && 0 <= w < t.Length1 ==> t[e, w] == 0
    ensures Packed(t) && forall e: nat, g: nat :: e < t.Length0 && g < WORD_BITS * t.Length1 ==> !CellBit(t, e, g)
  {
    forall b: nat { NoBits(b); }
  }

  lemma TooLarge(c: Chart, s: Section, k: nat, e: nat, g: nat, option: nat)
    requires Aligned(c, s) && k < |Lanes(c, s, s.end)| && Option(c, s, k, option)
    requires option > e || OptionGreats(c, s, k, option) > g
    ensures !Extends(c, s, k, e, g, option)
  {
    hide Option, OptionGreats;
    if Extends(c, s, k, e, g, option) {
      var choice: seq<nat> :| |choice| == k && IsChoice(c, s, choice, e - option, g - OptionGreats(c, s, k, option));
      ChoiceIsNatural(c, s, choice, e - option, g - OptionGreats(c, s, k, option));
    }
  }

  lemma ExtendsIs(c: Chart, s: Section, k: nat, e: nat, g: nat, option: nat)
    requires Aligned(c, s) && k < |Lanes(c, s, s.end)| && Option(c, s, k, option)
    ensures Extends(c, s, k, e, g, option) <==>
              (e >= option && g >= OptionGreats(c, s, k, option) && Choosable(c, s, k, e - option, g - OptionGreats(c, s, k, option)))
  {
    hide Option, OptionGreats, Choosable;
    if option > e || OptionGreats(c, s, k, option) > g { TooLarge(c, s, k, e, g, option); }
  }

  lemma MergedMore(c: Chart, s: Section, k: nat, first: nat, option: nat, e: nat, g: nat)
    requires Aligned(c, s) && k < |Lanes(c, s, s.end)| && first <= option
    ensures Merged(c, s, k, first, option + 1, e, g) <==> Merged(c, s, k, first, option, e, g) || Extends(c, s, k, e, g, option)
  {
    hide Extends;
  }

  lemma MergedAll(c: Chart, s: Section, k: nat, scan: Scan, e: nat, g: nat)
    requires Aligned(c, s) && k < |Lanes(c, s, s.end)|
    requires scan.Options? && IsScan(s, IsOwn(c, s, Lanes(c, s, s.end)[k]), NotesOf(c, s, k), scan)
    ensures Merged(c, s, k, scan.first, scan.last + 1, e, g) <==> exists option: nat :: Extends(c, s, k, e, g, option)
  {
    hide Choosable, Allowed, IllegalLane, NotesOf, Lanes;
  }

  // ---- The whole test.

  datatype Verdict = Raised | Answer(reachable: bool)

  /** More events than the section holds beside the activation, or more Greats than events. */
  predicate OutOfTarget(s: Section, events: int, greats: int)
    requires s.start <= s.end
  {
    events < 0 || events > s.end - s.start - 1 || greats < 0 || greats > events
  }

  /** Some lane's windows are illegal and no earlier lane already rules every choice out. */
  ghost predicate MeetsIllegal(c: Chart, s: Section)
    requires Aligned(c, s)
  {
    exists k :: 0 <= k < |Lanes(c, s, s.end)| && IllegalLane(NotesOf(c, s, k)) && OpenBefore(c, s, k)
  }

  ghost predicate OpenBefore(c: Chart, s: Section, k: nat)
    requires Aligned(c, s) && k <= |Lanes(c, s, s.end)|
  {
    forall j :: 0 <= j < k ==> IsOpen(c, s, j)
  }

  ghost predicate IsOpen(c: Chart, s: Section, k: nat)
    requires Aligned(c, s) && k < |Lanes(c, s, s.end)|
  {
    !IllegalLane(NotesOf(c, s, k)) && exists count: nat :: Option(c, s, k, count)
  }

  /** True exactly when one prefix per lane can be chosen with the target events and Greats. */
  method Reachable(c: Chart, s: Section, events: int, greats: int) returns (verdict: Verdict)
    requires Aligned(c, s)
    ensures OutOfTarget(s, events, greats) ==> verdict == Answer(false)
    ensures !OutOfTarget(s, events, greats) ==>
              (verdict == Raised <==> (events + 1) * ((greats + 64) / 64) > MAX_WORD_CELLS || MeetsIllegal(c, s))
    ensures !OutOfTarget(s, events, greats) && verdict != Raised ==>
              (verdict.reachable <==> Choosable(c, s, |Lanes(c, s, s.end)|, events, greats))
  {
    hide Packed, Choosable, NotesOf, Greats, IllegalLane, Allowed, CellBit, LaneNotes, IsScan, IsOpen, Option, PrefixGreats;
    if OutOfTarget(s, events, greats) { return Answer(false); }
    var words := (greats + 64) / 64;
    if (events + 1) * words > MAX_WORD_CELLS { return Raised; }
    var table, merged := new nat[events + 1, words]((_, _) => 0), new nat[events + 1, words]((_, _) => 0);
    Cleared(merged);
    table[0, 0] := 1;
    FirstTable(c, s, table, greats);
    var lanes := UniqueLanes(c, s);
    for k := 0 to |lanes|
      invariant lanes == Lanes(c, s, s.end) && table != merged && fresh(table) && fresh(merged)
      invariant table.Length0 == merged.Length0 == events + 1 && table.Length1 == merged.Length1 == words
      invariant Packed(table) && TableIs(c, s, k, table, greats) && OpenBefore(c, s, k)
    {
      var scan, prefixGreats := ScanLane(c, s, lanes[k]);
      ScanOf(c, s, k, scan);
      if scan.Illegal? { return Raised; }
      if scan.Blocked? {
        NoChoiceFrom(c, s, k, |lanes|, events, greats);
        NotIllegal(c, s, k);
        return Answer(false);
      }
      ScanIs(c, s, k, scan, prefixGreats);
      MergeLane(c, s, k, scan, prefixGreats, table, merged, greats);
      table, merged := merged, table;
    }
    NotIllegal(c, s, |lanes|);
    BitOfOne(table[events, greats / 64], greats % 64);
    verdict := Answer(And(table[events, greats / 64], Shl(1, greats % 64)) != 0);
    assert CellBit(table, events, greats) <==> Bit(table[events, greats / 64], greats % 64) by { CellIs(table, events, greats); }
  }

  lemma CellIs(t: array2<nat>, e: nat, g: nat)
    requires e < t.Length0 && g < WORD_BITS * t.Length1
    ensures CellBit(t, e, g) <==> Bit(t[e, g / WORD_BITS], g % WORD_BITS)
  {
    hide Bit;
  }

  lemma FirstTable(c: Chart, s: Section, t: array2<nat>, greatest: nat)
    requires Aligned(c, s) && t.Length0 > 0 && greatest < WORD_BITS * t.Length1
    requires t[0, 0] == 1 && forall e, w :: 0 <= e < t.Length0 && 0 <= w < t.Length1 && (e, w) != (0, 0) ==> t[e, w] == 0
    ensures Packed(t) && TableIs(c, s, 0, t, greatest)
  {
    hide Choosable, Bit;
    assert Pow2(0) == 1 && IsWord(1) by { Pow2Mono(1, WORD_BITS); }
    forall e: nat, g: nat | e < t.Length0 && g <= greatest ensures CellBit(t, e, g) <==> Choosable(c, s, 0, e, g) {
      ChooseNone(c, s, e, g);
      NoBits(g % WORD_BITS);
      BitOne(0, g % WORD_BITS);
    }
  }

  lemma BitOfOne(word: nat, b: nat)
    requires b < WORD_BITS
    ensures And(word, Shl(1, b)) != 0 <==> Bit(word, b)
  {
    hide And, Shl, Bit, Pow2;
    assert Pow2(0) == 1 by { PowZero(); }
    forall i: nat ensures Bit(And(word, Shl(1, b)), i) <==> Bit(word, i) && i == b {
      BitAnd(word, Shl(1, b), i);
      BitShl(1, b, i);
      if i >= b { BitOne(0, i - b); }
    }
    if And(word, Shl(1, b)) != 0 {
      HighestBitIs(And(word, Shl(1, b)));
    } else {
      NoBits(b);
    }
  }

  lemma PowZero()
    ensures Pow2(0) == 1
  {
  }

  method UniqueLanes(c: Chart, s: Section) returns (lanes: seq<int>)
    requires Aligned(c, s)
    ensures lanes == Lanes(c, s, s.end)
  {
    lanes := [];
    for note := s.start to s.end
      invariant lanes == Lanes(c, s, note)
    {
      var found := false;
      for k := 0 to |lanes|
        invariant found <==> c.lanes[note] in lanes[..k]
      {
        if lanes[k] == c.lanes[note] { found := true; break; }
      }
      if !found { lanes := lanes + [c.lanes[note]]; }
    }
  }

  lemma ScanOf(c: Chart, s: Section, k: nat, scan: Scan)
    requires Aligned(c, s) && k < |Lanes(c, s, s.end)|
    requires IsScan(s, Lanes(c, s, s.end)[k] == c.lanes[s.activation], LaneNotes(c, s, Lanes(c, s, s.end)[k], s.end), scan)
    ensures scan.Illegal? <==> IllegalLane(NotesOf(c, s, k))
    ensures !scan.Illegal? ==> (scan.Options? <==> IsOpen(c, s, k))
    ensures scan.Blocked? ==> forall count: nat :: !Option(c, s, k, count)
  {
    hide Allowed, IllegalLane, Lanes, LaneNotes;
    if scan.Options? { assert Option(c, s, k, scan.first); }
  }

  lemma ScanIs(c: Chart, s: Section, k: nat, scan: Scan, prefixGreats: seq<nat>)
    requires Aligned(c, s) && k < |Lanes(c, s, s.end)|
    requires IsScan(s, Lanes(c, s, s.end)[k] == c.lanes[s.activation], LaneNotes(c, s, Lanes(c, s, s.end)[k], s.end), scan)
    requires PrefixGreats(LaneNotes(c, s, Lanes(c, s, s.end)[k], s.end), prefixGreats)
    ensures IsScan(s, IsOwn(c, s, Lanes(c, s, s.end)[k]), NotesOf(c, s, k), scan) && PrefixGreats(NotesOf(c, s, k), prefixGreats)
  {
    hide IsScan, PrefixGreats, Lanes, LaneNotes;
  }

  /** A lane with no option rules out every choice of it and the lanes after. */
  lemma {:induction false} NoChoiceFrom(c: Chart, s: Section, k: nat, count: nat, events: int, greats: int)
    requires Aligned(c, s) && k < count <= |Lanes(c, s, s.end)| && forall n: nat :: !Option(c, s, k, n)
    ensures !Choosable(c, s, count, events, greats)
    decreases count
  {
    hide Option, OptionGreats, Choosable;
    var last: nat := count - 1;
    ChooseOneMore(c, s, last, events, greats);
    if option: nat :| Extends(c, s, last, events, greats, option) {
      if last > k { NoChoiceFrom(c, s, k, last, events - option, greats - OptionGreats(c, s, last, option)); }
    }
  }

  lemma NotIllegal(c: Chart, s: Section, k: nat)
    requires Aligned(c, s) && k <= |Lanes(c, s, s.end)| && OpenBefore(c, s, k)
    requires k < |Lanes(c, s, s.end)| ==> !IllegalLane(NotesOf(c, s, k)) && forall n: nat :: !Option(c, s, k, n)
    ensures !MeetsIllegal(c, s)
  {
    hide IllegalLane, Option, NotesOf, Lanes;
    forall j | 0 <= j < |Lanes(c, s, s.end)| ensures !(IllegalLane(NotesOf(c, s, j)) && OpenBefore(c, s, j)) {
      if j > k { assert !IsOpen(c, s, k); } else if j < k { assert IsOpen(c, s, j); }
    }
  }
}
