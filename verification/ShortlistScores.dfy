/** Why a combo the FT/FF shortlist drops is never missed (gear_optimizer/solver/ftff_combos.py): whatever it scores at a key
    in Base play, a combo the key keeps scores too, with the same PP, CM and FM gems. */
module ShortlistScores {
  import opened Arithmetic
  import opened Words
  import opened Scoring
  import opened GemProblem
  import opened SplitCaps
  import opened ShortlistSweep
  import F = Shortlist
  import SplitScores

  /** The combo's index is its place in the split table both searches walk. */
  lemma {:induction false} ComboIsPos(a: nat, b: nat)
    requires a + b <= GEM_BUDGET
    ensures F.ComboIndex(a, b) == Pos(GEM_BUDGET, a, b)
  {
    if a > 0 {
      ComboIsPos(a - 1, b);
      assert a * (a - 1) == (a - 1) * (a - 2) + 2 * (a - 1);
    }
  }

  // ---- What beats an option is in the end kept.

  lemma ContainsTransitive(q: F.Input, s: nat, t: nat, u: nat)
    requires F.ValidInput(q) && s < |q.surfaces| && t < |q.surfaces| && u < |q.surfaces|
    requires F.Contains(q, s, t) && F.Contains(q, t, u)
    ensures F.Contains(q, s, u)
  {
    hide Bit, IsWord;
    forall w | 0 <= w < 4 ensures Within(q.surfaces[u].masks[w], q.surfaces[s].masks[w]) { }
  }

  /** A word with more bits is larger. */
  lemma {:induction false} WithinAtMost(small: nat, big: nat)
    requires Within(small, big)
    ensures small <= big
    decreases small
  {
    if small > 0 {
      forall b: nat | Bit(small / 2, b) ensures Bit(big / 2, b) {
        assert Bit(small, b + 1);
      }
      WithinAtMost(small / 2, big / 2);
      assert Bit(small, 0) ==> Bit(big, 0);
    }
  }

  function MostBody(surfaces: seq<F.Surface>): (m: nat)
    ensures forall s :: 0 <= s < |surfaces| ==> surfaces[s].body <= m
  {
    if surfaces == [] then 0
    else Max(MostBody(surfaces[..|surfaces| - 1]), surfaces[|surfaces| - 1].body)
  }

  /** With stat gems worth less than element gems no combo's value exceeds the element's alone. */
  lemma ValueAtMost(q: F.Input, a: nat, b: nat)
    requires F.ValidInput(q) && a + b <= F.GEM_BUDGET
    ensures F.Value(q.gains, a, b) <= q.gains.element * F.GEM_BUDGET
  {
    F.ValueIsWeighted(q.gains, a, b);
    Product(-F.Wx(q), a);
    Product(-F.Wy(q), b);
  }

  lemma Product(x: int, y: int)
    requires x >= 0 && y >= 0
    ensures x * y >= 0
  {
  }

  /** A surface's place in the order of containment. */
  lemma ContainedBelow(q: F.Input, s': nat, s: nat)
    requires F.ValidInput(q) && s < |q.surfaces| && s' < |q.surfaces| && F.Contains(q, s', s)
    ensures q.surfaces[s].body <= q.surfaces[s'].body
    ensures forall w :: 0 <= w < 4 ==> q.surfaces[s].masks[w] <= q.surfaces[s'].masks[w] < Pow2(WORD_BITS)
    ensures s' == s || q.surfaces[s].body < q.surfaces[s'].body || exists w :: 0 <= w < 4 && q.surfaces[s].masks[w] < q.surfaces[s'].masks[w]
  {
    hide Bit, Within, Pow2;
    var x, y := q.surfaces[s], q.surfaces[s'];
    forall w | 0 <= w < 4 ensures x.masks[w] <= y.masks[w] < Pow2(WORD_BITS) {
      WithinAtMost(x.masks[w], y.masks[w]);
      assert IsWord(y.masks[w]);
    }
    if x.body == y.body && forall w :: 0 <= w < 4 ==> x.masks[w] == y.masks[w] {
      assert x.masks == y.masks;
      assert x == y;
    }
  }

  function MasksLeft(x: F.Surface): int
    requires |x.masks| == 4
  {
    4 * Pow2(WORD_BITS) - x.masks[0] - x.masks[1] - x.masks[2] - x.masks[3]
  }

  /** Following what beats an option leads to one that nothing of the key beats: it still contains its fever notes, with as
      many residual gems and as much value. */
  lemma {:induction false} BeatenByKept(q: F.Input, kx: nat, ky: nat, s: nat, a: nat, b: nat) returns (s': nat, a': nat, b': nat)
    requires F.ValidInput(q) && F.IsOption(q, kx, ky, s, a, b)
    ensures F.IsOption(q, kx, ky, s', a', b') && !F.Beaten(q, kx, ky, s', a', b')
    ensures F.Contains(q, s', s) && a' + b' <= a + b && F.Value(q.gains, a', b') >= F.Value(q.gains, a, b)
    decreases a + b, q.gains.element * F.GEM_BUDGET - F.Value(q.gains, a, b), MostBody(q.surfaces) - q.surfaces[s].body,
              MasksLeft(q.surfaces[s]), F.COMBOS - F.ComboIndex(a, b)
  {
    hide F.HasOption, F.Value, F.ComboIndex, Within, MostBody, Pow2, Bit;
    if F.Beaten(q, kx, ky, s, a, b) {
      var t: nat, c: nat, d: nat :| F.IsOption(q, kx, ky, t, c, d) && F.Beats(q, t, c, d, s, a, b);
      ContainedBelow(q, t, s);
      ValueAtMost(q, c, d);
      F.ComboIndexBound(c, d);
      s', a', b' := BeatenByKept(q, kx, ky, t, c, d);
      ContainsTransitive(q, s', t, s);
    } else {
      s', a', b' := s, a, b;
      assert forall w :: 0 <= w < 4 ==> Within(q.surfaces[s].masks[w], q.surfaces[s].masks[w]) by { WithinItself(q, s); }
    }
  }

  lemma WithinItself(q: F.Input, s: nat)
    requires F.ValidInput(q) && s < |q.surfaces|
    ensures forall w :: 0 <= w < 4 ==> Within(q.surfaces[s].masks[w], q.surfaces[s].masks[w])
  {
  }

  // ---- Scores in Base play.

  /** A timing surface as a scored one: no Greats. */
  function BaseSurface(x: F.Surface): Surface
    requires |x.masks| == 4
  {
    Surface(x.masks + [0, 0, 0, 0], x.body, 0, 0)
  }

  lemma NoGreats(x: F.Surface, note: nat)
    requires |x.masks| == 4 && note < HEAD_NOTES
    ensures InFever(BaseSurface(x), note) == Bit(x.masks[note / 32], note % 32) && !IsGreat(BaseSurface(x), note)
  {
    BitZero(note % 32);
  }

  lemma {:induction false} HeadScoresMore(q: F.Input, s': nat, s: nat, l: Line, n: nat)
    requires F.ValidInput(q) && s < |q.surfaces| && s' < |q.surfaces| && F.Contains(q, s', s) && ValidLine(l) && n <= HEAD_NOTES
    ensures HeadScore(BaseSurface(q.surfaces[s]), l, n) <= HeadScore(BaseSurface(q.surfaces[s']), l, n)
  {
    hide NoteScore, BaseSurface, InFever, IsGreat, Bit;
    if n > 0 {
      HeadScoresMore(q, s', s, l, n - 1);
      NoGreats(q.surfaces[s], n - 1);
      NoGreats(q.surfaces[s'], n - 1);
      assert Within(q.surfaces[s].masks[(n - 1) / 32], q.surfaces[s'].masks[(n - 1) / 32]);
      NoteScoreOrder(l, l.ramp[n - 1]);
    }
  }

  lemma BodyScoresMore(x: F.Surface, y: F.Surface, l: Line, total: nat)
    requires |x.masks| == 4 && |y.masks| == 4 && ValidLine(l) && x.body <= y.body
    ensures BodyScore(BaseSurface(x), l, total) <= BodyScore(BaseSurface(y), l, total)
  {
    hide Points;
    NoteScoreOrder(l, l.combo);
    var combo, fever := Points(l.base, l.combo, l, false), Points(l.base, l.combo, l, true);
    Product(y.body - x.body, fever - combo);
    assert y.body * fever + (total - y.body) * combo - (x.body * fever + (total - x.body) * combo) == (y.body - x.body) * (fever - combo);
  }

  /** What an FT/FF combo leaves of the gem budget and adds to the colors. */
  function ComboGroup(k: SplitColors, a: nat, b: nat): Group
    requires a + b <= GEM_BUDGET
  {
    Group(GEM_BUDGET - a - b, ColorGain(k.ftPrimary, k.ffPrimary, a, b), ColorGain(k.ftSecondary, k.ffSecondary, a, b), 0)
  }

  /** The input's gains are the song's colors'; its surfaces fit the song. */
  ghost predicate FitsSong(q: F.Input, song: Song, k: SplitColors) {
    && ValidSong(song) && |song.pool.offsets| > 0
    && (song.flags.singleColor ==> k.ftPrimary == k.ftSecondary && k.ffPrimary == k.ffSecondary)
    && q.gains == F.Gains(AxisWorth(k.ftPrimary, k.ftSecondary), AxisWorth(k.ffPrimary, k.ffSecondary), WeightsOf(song.flags).element)
    && forall s :: 0 <= s < |q.surfaces| ==> q.surfaces[s].body <= song.bodyTotal
  }

  /** The score of a combo's surface with these PP, CM and FM gems, the rest on the element. */
  function BaseScore(song: Song, l: Loadout, k: SplitColors, x: F.Surface, a: nat, b: nat, gems: Alloc): int
    requires ValidSong(song) && |x.masks| == 4 && a + b <= GEM_BUDGET && InSpace(song, l, ComboGroup(k, a, b), gems)
  {
    SurfaceScore(BaseSurface(x), AllocLine(song, l, ComboGroup(k, a, b), gems), song.headLen, song.bodyTotal)
  }

  lemma ComboGroupIs(q: F.Input, song: Song, k: SplitColors, a: nat, b: nat)
    requires FitsSong(q, song, k) && a + b <= GEM_BUDGET
    ensures ValidGroup(song, ComboGroup(k, a, b)) && SplitScores.WholeGems(ComboGroup(k, a, b))
    ensures SplitScores.GroupValue(ComboGroup(k, a, b), WeightsOf(song.flags).element) == F.Value(q.gains, a, b)
  {
    hide ValidSong, WeightsOf;
  }

  lemma HeadFits(song: Song)
    requires ValidSong(song)
    ensures song.headLen <= HEAD_NOTES
  {
  }

  /** Containing an option's fever notes, with as many residual gems and as much value, is scoring at least as much. */
  lemma BeaterScoresMore(q: F.Input, song: Song, l: Loadout, k: SplitColors, s': nat, a': nat, b': nat, s: nat, a: nat, b: nat, gems: Alloc)
    requires F.ValidInput(q) && FitsSong(q, song, k) && ValidLoadout(song, l) && s < |q.surfaces| && s' < |q.surfaces|
    requires a + b <= GEM_BUDGET && InSpace(song, l, ComboGroup(k, a, b), gems)
    requires F.Contains(q, s', s) && a' + b' <= a + b && F.Value(q.gains, a', b') >= F.Value(q.gains, a, b)
    ensures InSpace(song, l, ComboGroup(k, a', b'), gems)
    ensures BaseScore(song, l, k, q.surfaces[s], a, b, gems) <= BaseScore(song, l, k, q.surfaces[s'], a', b', gems)
  {
    hide AllocLine, SurfaceScore, WeightsOf, ValidSong, F.Value, HeadScore, BodyScore, SplitScores.Amplifies, ColorGain, SplitScores.GroupValue,
         SplitScores.WholeGems, Within, ValidLine;
    var g, o := ComboGroup(k, a, b), ComboGroup(k, a', b');
    HeadFits(song);
    ComboGroupIs(q, song, k, a, b);
    ComboGroupIs(q, song, k, a', b');
    var gap := SplitScores.RaisedLine(song, l, g, o, gems);
    SplitScores.LineAmplifies(song, l, g, gems);
    var x, y := BaseSurface(q.surfaces[s]), BaseSurface(q.surfaces[s']);
    SplitScores.ScoreRises(x, AllocLine(song, l, g, gems), (3 * gap) as real, (2 * gap) as real, song.headLen, song.bodyTotal, 0);
    AllocLineValid(song, l, o, gems);
    SurfaceScoresMore(q, s', s, AllocLine(song, l, o, gems), song.headLen, song.bodyTotal);
  }

  lemma SurfaceScoresMore(q: F.Input, s': nat, s: nat, l: Line, headLen: nat, bodyTotal: nat)
    requires F.ValidInput(q) && s < |q.surfaces| && s' < |q.surfaces| && F.Contains(q, s', s) && ValidLine(l) && headLen <= HEAD_NOTES
    ensures SurfaceScore(BaseSurface(q.surfaces[s]), l, headLen, bodyTotal) <= SurfaceScore(BaseSurface(q.surfaces[s']), l, headLen, bodyTotal)
  {
    hide HeadScore, BodyScore, BaseSurface, Within;
    HeadScoresMore(q, s', s, l, headLen);
    BodyScoresMore(q.surfaces[s], q.surfaces[s'], l, bodyTotal);
  }

  /** Whatever an option of a reachable key scores, a combo on the key's shortlist scores at least as much there with the same
      PP, CM and FM gems: the shortlist holds a best combo of every loadout with this key. */
  lemma ShortlistHoldsBest(q: F.Input, song: Song, l: Loadout, k: SplitColors, starts: seq<nat>, combos: seq<nat>, kx: nat, ky: nat,
                           s: nat, a: nat, b: nat, gems: Alloc)
    returns (s': nat, a': nat, b': nat)
    requires F.ValidInput(q) && FitsSong(q, song, k) && ValidLoadout(song, l) && kx <= F.MAX_STAT && ky <= F.MAX_STAT
    requires KeyShortlist(q, starts, combos, kx, ky) && q.reach[F.Cell(kx, ky)]
    requires F.IsOption(q, kx, ky, s, a, b) && InSpace(song, l, ComboGroup(k, a, b), gems)
    ensures F.IsOption(q, kx, ky, s', a', b') && InSpace(song, l, ComboGroup(k, a', b'), gems)
    ensures F.ComboIndex(a', b') in combos[starts[F.Cell(kx, ky)]..starts[F.Cell(kx, ky) + 1]]
    ensures BaseScore(song, l, k, q.surfaces[s], a, b, gems) <= BaseScore(song, l, k, q.surfaces[s'], a', b', gems)
  {
    hide BaseScore, InSpace, F.Beaten, F.HasOption, F.Value, F.ComboIndex, F.Contains, ComboGroup, ValidSong, ValidLoadout, F.Cell;
    s', a', b' := BeatenByKept(q, kx, ky, s, a, b);
    assert F.Kept(q, kx, ky, a', b');
    BeaterScoresMore(q, song, l, k, s', a', b', s, a, b, gems);
  }
}
