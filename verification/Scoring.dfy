/** The game's per-note integer scoring of a Force Great response surface (gear_optimizer/score.py), over exact
    reals: every note's value is floored on its own. */
module Scoring {
  import opened Arithmetic
  import opened Words
  import opened Wrappers

  const HEAD_NOTES: nat := 100

  /** Four fever and four Great words of 32 head notes each, and the counts of the notes after the head: in fever,
      judged Great, and both. */
  datatype Surface = Surface(words: seq<nat>, bodyFever: nat, bodyGreat: nat, bodyFeverGreat: nat)

  /** What a stat line contributes: the Perfect and the Great base, the combo multiplier after the head and its ramp
      over the head notes, the fever multiplier. */
  datatype Line = Line(base: real, greatBase: real, combo: real, ramp: seq<real>, fever: real)

  predicate ValidSurface(s: Surface, bodyTotal: nat) {
    && |s.words| == 8
    && s.bodyFeverGreat <= s.bodyFever && s.bodyFeverGreat <= s.bodyGreat
    && s.bodyFever + s.bodyGreat - s.bodyFeverGreat <= bodyTotal
  }

  /** A stat line whose multipliers never lower a note. */
  predicate ValidLine(l: Line) {
    && l.base >= 0.0 && l.greatBase >= 0.0 && l.combo >= 0.0 && l.fever >= 1.0
    && |l.ramp| >= HEAD_NOTES
    && forall i :: 0 <= i < |l.ramp| ==> l.ramp[i] >= 0.0
  }

  predicate InFever(s: Surface, note: nat)
    requires |s.words| == 8 && note < HEAD_NOTES
  {
    Bit(s.words[note / 32], note % 32)
  }

  predicate IsGreat(s: Surface, note: nat)
    requires |s.words| == 8 && note < HEAD_NOTES
  {
    Bit(s.words[4 + note / 32], note % 32)
  }

  /** The points of a base at a note's multiplier, floored. */
  function Points(base: real, scaling: real, l: Line, fever: bool): int {
    (base * (if fever then scaling * l.fever else scaling)).Floor
  }

  /** A note's points: a Great scores the lower of its Perfect and its Great value. */
  function NoteScore(l: Line, scaling: real, fever: bool, great: bool): int {
    var perfect := Points(l.base, scaling, l, fever);
    if great then Min(perfect, Points(l.greatBase, scaling, l, fever)) else perfect
  }

  function HeadScore(s: Surface, l: Line, n: nat): int
    requires |s.words| == 8 && n <= HEAD_NOTES && n <= |l.ramp|
  {
    if n == 0 then 0
    else HeadScore(s, l, n - 1) + NoteScore(l, l.ramp[n - 1], InFever(s, n - 1), IsGreat(s, n - 1))
  }

  /** Notes by count: `fever` and `great` of `total` notes, `both` of them both, at a fever and a plain note's value
      and what a Great of each kind loses. */
  function CountedScore(fever: int, great: int, both: int, total: int,
                        feverValue: int, comboValue: int, feverLoss: int, normalLoss: int): int {
    fever * feverValue + (total - fever) * comboValue - ((great - both) * normalLoss + both * feverLoss)
  }

  /** The notes after the head, by count: the Greats lose what they fall short of a Perfect. */
  function BodyScore(s: Surface, l: Line, bodyTotal: nat): int {
    var comboValue := Points(l.base, l.combo, l, false);
    var feverValue := Points(l.base, l.combo, l, true);
    CountedScore(s.bodyFever, s.bodyGreat, s.bodyFeverGreat, bodyTotal, feverValue, comboValue,
                 Max(0, feverValue - Points(l.greatBase, l.combo, l, true)),
                 Max(0, comboValue - Points(l.greatBase, l.combo, l, false)))
  }

  function SurfaceScore(s: Surface, l: Line, headLen: nat, bodyTotal: nat): int
    requires |s.words| == 8 && headLen <= HEAD_NOTES && headLen <= |l.ramp|
  {
    BodyScore(s, l, bodyTotal) + HeadScore(s, l, headLen)
  }

  /** The scorer's loop over the head notes; counts that do not fit the song are refused. */
  method FgSurfaceScore(l: Line, s: Surface, totalNotes: nat) returns (r: Option<int>)
    requires |s.words| == 8 && HEAD_NOTES <= |l.ramp|
    ensures r.Some? <==> ValidSurface(s, Max(0, totalNotes - HEAD_NOTES))
    ensures r.Some? ==> r.value == SurfaceScore(s, l, Min(totalNotes, HEAD_NOTES), Max(0, totalNotes - HEAD_NOTES))
  {
    var headLen := Min(totalNotes, HEAD_NOTES);
    var bodyTotal := Max(0, totalNotes - HEAD_NOTES);
    if s.bodyFeverGreat > Min(s.bodyFever, s.bodyGreat)
       || s.bodyFever + s.bodyGreat - s.bodyFeverGreat > bodyTotal {
      return None;
    }
    var comboValue, feverValue := Points(l.base, l.combo, l, false), Points(l.base, l.combo, l, true);
    var normalLoss := Max(0, comboValue - Points(l.greatBase, l.combo, l, false));
    var feverLoss := Max(0, feverValue - Points(l.greatBase, l.combo, l, true));
    var score := CountedScore(s.bodyFever, s.bodyGreat, s.bodyFeverGreat, bodyTotal,
                              feverValue, comboValue, feverLoss, normalLoss);
    for note := 0 to headLen
      invariant score == BodyScore(s, l, bodyTotal) + HeadScore(s, l, note)
    {
      var fever := InFever(s, note);
      var value := Points(l.base, l.ramp[note], l, fever);
      if IsGreat(s, note) {
        value := value - Max(0, value - Points(l.greatBase, l.ramp[note], l, fever));
      }
      score := score + value;
    }
    return Some(score);
  }

  // ---- The counted body is the notes scored one by one.

  /** `count` notes of one kind, scored one by one. */
  function RepeatScore(l: Line, count: nat, fever: bool, great: bool): int {
    if count == 0 then 0 else RepeatScore(l, count - 1, fever, great) + NoteScore(l, l.combo, fever, great)
  }

  lemma {:induction false} RepeatScoreIsProduct(l: Line, count: nat, fever: bool, great: bool)
    ensures RepeatScore(l, count, fever, great) == count * NoteScore(l, l.combo, fever, great)
  {
    if count > 0 {
      RepeatScoreIsProduct(l, count - 1, fever, great);
      var v := NoteScore(l, l.combo, fever, great);
      assert count * v == (count - 1) * v + v;
    }
  }

  lemma BodyScoreIsNoteByNote(s: Surface, l: Line, bodyTotal: nat)
    requires ValidSurface(s, bodyTotal)
    ensures BodyScore(s, l, bodyTotal)
         == RepeatScore(l, s.bodyFeverGreat, true, true) + RepeatScore(l, s.bodyFever - s.bodyFeverGreat, true, false)
          + RepeatScore(l, s.bodyGreat - s.bodyFeverGreat, false, true)
          + RepeatScore(l, bodyTotal - s.bodyFever - (s.bodyGreat - s.bodyFeverGreat), false, false)
  {
    var fg, f, g := s.bodyFeverGreat, s.bodyFever, s.bodyGreat - s.bodyFeverGreat;
    RepeatScoreIsProduct(l, fg, true, true);
    RepeatScoreIsProduct(l, f - fg, true, false);
    RepeatScoreIsProduct(l, g, false, true);
    RepeatScoreIsProduct(l, bodyTotal - f - g, false, false);
    var F, C := NoteScore(l, l.combo, true, false), NoteScore(l, l.combo, false, false);
    var FG, CG := NoteScore(l, l.combo, true, true), NoteScore(l, l.combo, false, true);
    CountsRegroup(f, g + fg, fg, bodyTotal, F, C, FG, CG);
  }

  lemma CountsRegroup(f: int, g: int, fg: int, total: int, F: int, C: int, FG: int, CG: int)
    ensures CountedScore(f, g, fg, total, F, C, F - FG, C - CG)
         == fg * FG + (f - fg) * F + (g - fg) * CG + (total - f - (g - fg)) * C
  {
  }

  // ---- Monotonicity of the score in the surface.

  lemma FloorMono(x: real, y: real)
    requires x <= y
    ensures x.Floor <= y.Floor
  {
  }

  lemma NoteScoreOrder(l: Line, scaling: real)
    requires ValidLine(l) && scaling >= 0.0
    ensures NoteScore(l, scaling, false, false) <= NoteScore(l, scaling, true, false)
    ensures NoteScore(l, scaling, false, true) <= NoteScore(l, scaling, true, true)
    ensures NoteScore(l, scaling, true, true) <= NoteScore(l, scaling, true, false)
    ensures NoteScore(l, scaling, false, true) <= NoteScore(l, scaling, false, false)
    ensures 0 <= NoteScore(l, scaling, false, true)
  {
    ScaleMono(1.0, l.fever, scaling);
    ScaleMono(scaling, scaling * l.fever, l.base);
    ScaleMono(scaling, scaling * l.fever, l.greatBase);
    FloorMono(l.base * scaling, l.base * (scaling * l.fever));
    FloorMono(l.greatBase * scaling, l.greatBase * (scaling * l.fever));
    FloorMono(0.0, l.base * scaling);
    FloorMono(0.0, l.greatBase * scaling);
  }

  /** No surface scores below zero. */
  lemma {:induction false} HeadScoreNonNegative(s: Surface, l: Line, n: nat)
    requires |s.words| == 8 && n <= HEAD_NOTES && ValidLine(l)
    ensures 0 <= HeadScore(s, l, n)
  {
    if n > 0 {
      HeadScoreNonNegative(s, l, n - 1);
      NoteScoreOrder(l, l.ramp[n - 1]);
    }
  }

  lemma ProductNonNegative(a: int, b: int)
    requires a >= 0 && b >= 0
    ensures a * b >= 0
  {
  }

  lemma ScoreNonNegative(s: Surface, l: Line, headLen: nat, bodyTotal: nat)
    requires ValidSurface(s, bodyTotal) && ValidLine(l) && headLen <= HEAD_NOTES
    ensures 0 <= SurfaceScore(s, l, headLen, bodyTotal)
  {
    HeadScoreNonNegative(s, l, headLen);
    BodyScoreIsNoteByNote(s, l, bodyTotal);
    NoteScoreOrder(l, l.combo);
    var fg, f, g := s.bodyFeverGreat, s.bodyFever, s.bodyGreat - s.bodyFeverGreat;
    RepeatScoreIsProduct(l, fg, true, true);
    RepeatScoreIsProduct(l, f - fg, true, false);
    RepeatScoreIsProduct(l, g, false, true);
    RepeatScoreIsProduct(l, bodyTotal - f - g, false, false);
    ProductNonNegative(fg, NoteScore(l, l.combo, true, true));
    ProductNonNegative(f - fg, NoteScore(l, l.combo, true, false));
    ProductNonNegative(g, NoteScore(l, l.combo, false, true));
    ProductNonNegative(bodyTotal - f - g, NoteScore(l, l.combo, false, false));
  }
}
