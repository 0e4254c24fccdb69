/** Ties on the FT/FF shortlist (gear_optimizer/solver/ftff_combos.py): exactly when a beater scores strictly more, and exactly
    when the combo a tie-break picks as the key's Base winner is on the shortlist. */
module ShortlistTies {
  import opened Words
  import opened Scoring
  import opened GemProblem
  import opened SplitCaps
  import opened ShortlistScores
  import F = Shortlist
  import ShortlistSweep
  import GemBounds
  import SplitScores

  // ---- Which added fever notes pay.

  /** A note of this multiplier scores more in fever. */
  predicate NotePays(l: Line, scaling: real) { Points(l.base, scaling, l, true) > Points(l.base, scaling, l, false) }

  predicate HeadBit(x: F.Surface, note: nat)
    requires |x.masks| == 4 && note < HEAD_NOTES
  {
    Bit(x.masks[note / 32], note % 32)
  }

  /** A head note in y's fever, not in x's, that pays. */
  predicate AddsAt(x: F.Surface, y: F.Surface, l: Line, note: nat)
    requires |x.masks| == 4 && |y.masks| == 4 && note < HEAD_NOTES <= |l.ramp|
  {
    HeadBit(y, note) && !HeadBit(x, note) && NotePays(l, l.ramp[note])
  }

  ghost predicate AddsHead(x: F.Surface, y: F.Surface, l: Line, n: nat)
    requires |x.masks| == 4 && |y.masks| == 4 && n <= HEAD_NOTES <= |l.ramp|
  {
    exists note: nat :: note < n && AddsAt(x, y, l, note)
  }

  /** Some fever note y has over x pays. */
  ghost predicate Adds(x: F.Surface, y: F.Surface, l: Line, headLen: nat)
    requires |x.masks| == 4 && |y.masks| == 4 && headLen <= HEAD_NOTES <= |l.ramp|
  {
    AddsHead(x, y, l, headLen) || (x.body < y.body && NotePays(l, l.combo))
  }

  lemma {:induction false} HeadStrict(q: F.Input, s': nat, s: nat, l: Line, n: nat)
    requires F.ValidInput(q) && s < |q.surfaces| && s' < |q.surfaces| && F.Contains(q, s', s) && ValidLine(l) && n <= HEAD_NOTES
    ensures HeadScore(BaseSurface(q.surfaces[s]), l, n) <= HeadScore(BaseSurface(q.surfaces[s']), l, n)
    ensures HeadScore(BaseSurface(q.surfaces[s]), l, n) < HeadScore(BaseSurface(q.surfaces[s']), l, n)
            <==> AddsHead(q.surfaces[s], q.surfaces[s'], l, n)
  {
    hide Points, BaseSurface, InFever, IsGreat, Bit;
    if n > 0 {
      HeadStrict(q, s', s, l, n - 1);
      NoGreats(q.surfaces[s], n - 1);
      NoGreats(q.surfaces[s'], n - 1);
      assert F.Contains(q, s', s) && Within(q.surfaces[s].masks[(n - 1) / 32], q.surfaces[s'].masks[(n - 1) / 32]);
      NoteScoreOrder(l, l.ramp[n - 1]);
      OneMoreNote(q.surfaces[s], q.surfaces[s'], l, n);
    }
  }

  lemma OneMoreNote(x: F.Surface, y: F.Surface, l: Line, n: nat)
    requires |x.masks| == 4 && |y.masks| == 4 && 0 < n <= HEAD_NOTES <= |l.ramp|
    ensures AddsHead(x, y, l, n) <==> AddsHead(x, y, l, n - 1) || AddsAt(x, y, l, n - 1)
  {
    hide AddsAt;
  }

  lemma BodyStrict(x: F.Surface, y: F.Surface, l: Line, total: nat)
    requires |x.masks| == 4 && |y.masks| == 4 && ValidLine(l) && x.body <= y.body
    ensures BodyScore(BaseSurface(x), l, total) <= BodyScore(BaseSurface(y), l, total)
    ensures BodyScore(BaseSurface(x), l, total) < BodyScore(BaseSurface(y), l, total) <==> x.body < y.body && NotePays(l, l.combo)
  {
    hide Points;
    NoteScoreOrder(l, l.combo);
    var combo, fever := Points(l.base, l.combo, l, false), Points(l.base, l.combo, l, true);
    PositiveProduct(y.body - x.body, fever - combo);
    assert y.body * fever + (total - y.body) * combo - (x.body * fever + (total - x.body) * combo) == (y.body - x.body) * (fever - combo);
  }

  lemma PositiveProduct(x: int, y: int)
    requires x >= 0 && y >= 0
    ensures x * y >= 0 && (x * y > 0 <==> x > 0 && y > 0)
  {
  }

  lemma SurfaceStrict(q: F.Input, s': nat, s: nat, l: Line, headLen: nat, bodyTotal: nat)
    requires F.ValidInput(q) && s < |q.surfaces| && s' < |q.surfaces| && F.Contains(q, s', s) && ValidLine(l) && headLen <= HEAD_NOTES
    ensures SurfaceScore(BaseSurface(q.surfaces[s]), l, headLen, bodyTotal) <= SurfaceScore(BaseSurface(q.surfaces[s']), l, headLen, bodyTotal)
    ensures SurfaceScore(BaseSurface(q.surfaces[s]), l, headLen, bodyTotal) < SurfaceScore(BaseSurface(q.surfaces[s']), l, headLen, bodyTotal)
            <==> Adds(q.surfaces[s], q.surfaces[s'], l, headLen)
  {
    hide HeadScore, BodyScore, BaseSurface, Within, AddsHead, NotePays;
    HeadStrict(q, s', s, l, headLen);
    BodyStrict(q.surfaces[s], q.surfaces[s'], l, bodyTotal);
  }

  // ---- Exactly when a beater scores strictly more.

  /** Of equal value two combos make the same stat line of the same gems. */
  lemma LevelLine(q: F.Input, song: Song, l: Loadout, k: SplitColors, a': nat, b': nat, a: nat, b: nat, gems: Alloc)
    requires F.ValidInput(q) && FitsSong(q, song, k) && ValidLoadout(song, l)
    requires a + b <= GEM_BUDGET && InSpace(song, l, ComboGroup(k, a, b), gems)
    requires a' + b' <= a + b && F.Value(q.gains, a', b') == F.Value(q.gains, a, b)
    ensures InSpace(song, l, ComboGroup(k, a', b'), gems)
    ensures AllocLine(song, l, ComboGroup(k, a', b'), gems) == AllocLine(song, l, ComboGroup(k, a, b), gems)
  {
    hide AllocLine, WeightsOf, ValidSong, F.Value, ColorGain, SplitScores.GroupValue, SplitScores.WholeGems;
    ComboGroupIs(q, song, k, a, b);
    ComboGroupIs(q, song, k, a', b');
    var gap := SplitScores.RaisedLine(song, l, ComboGroup(k, a, b), ComboGroup(k, a', b'), gems);
  }

  /** With more value every note of the song scores a point more. */
  lemma MoreValueStrict(q: F.Input, song: Song, l: Loadout, k: SplitColors, s: nat, a': nat, b': nat, a: nat, b: nat, gems: Alloc)
    requires F.ValidInput(q) && FitsSong(q, song, k) && ValidLoadout(song, l) && s < |q.surfaces|
    requires a + b <= GEM_BUDGET && InSpace(song, l, ComboGroup(k, a, b), gems)
    requires a' + b' <= a + b && F.Value(q.gains, a', b') > F.Value(q.gains, a, b)
    ensures InSpace(song, l, ComboGroup(k, a', b'), gems)
    ensures BaseScore(song, l, k, q.surfaces[s], a, b, gems) + song.headLen + song.bodyTotal <= BaseScore(song, l, k, q.surfaces[s], a', b', gems)
  {
    hide AllocLine, SurfaceScore, WeightsOf, ValidSong, F.Value, SplitScores.Amplifies, ColorGain, SplitScores.GroupValue, SplitScores.WholeGems;
    HeadFits(song);
    var g, o := ComboGroup(k, a, b), ComboGroup(k, a', b');
    ComboGroupIs(q, song, k, a, b);
    ComboGroupIs(q, song, k, a', b');
    var gap := SplitScores.RaisedLine(song, l, g, o, gems);
    SplitScores.LineAmplifies(song, l, g, gems);
    SplitScores.ScoreRises(BaseSurface(q.surfaces[s]), AllocLine(song, l, g, gems), (3 * gap) as real, (2 * gap) as real, song.headLen,
                           song.bodyTotal, 1);
  }

  /** A song without notes scores nothing. */
  lemma NoNotesNoScore(q: F.Input, song: Song, l: Loadout, k: SplitColors, s: nat, a: nat, b: nat, gems: Alloc)
    requires F.ValidInput(q) && FitsSong(q, song, k) && s < |q.surfaces| && song.headLen == 0 && song.bodyTotal == 0
    requires a + b <= GEM_BUDGET && InSpace(song, l, ComboGroup(k, a, b), gems)
    ensures BaseScore(song, l, k, q.surfaces[s], a, b, gems) == 0
  {
    hide AllocLine, Points;
  }

  /** The line of the beater. */
  function LineOf(song: Song, l: Loadout, k: SplitColors, a: nat, b: nat, gems: Alloc): Line
    requires ValidSong(song) && a + b <= GEM_BUDGET && InSpace(song, l, ComboGroup(k, a, b), gems)
  {
    AllocLine(song, l, ComboGroup(k, a, b), gems)
  }

  /** Exactly when what beats an option scores strictly more with the same gems: its value is larger (and there is a note), or
      a fever note it adds pays. */
  lemma StrictlyMore(q: F.Input, song: Song, l: Loadout, k: SplitColors, s': nat, a': nat, b': nat, s: nat, a: nat, b: nat, gems: Alloc)
    requires F.ValidInput(q) && FitsSong(q, song, k) && ValidLoadout(song, l) && s < |q.surfaces| && s' < |q.surfaces|
    requires a + b <= GEM_BUDGET && InSpace(song, l, ComboGroup(k, a, b), gems)
    requires F.Contains(q, s', s) && a' + b' <= a + b && F.Value(q.gains, a', b') >= F.Value(q.gains, a, b)
    ensures InSpace(song, l, ComboGroup(k, a', b'), gems) && song.headLen <= HEAD_NOTES <= |LineOf(song, l, k, a', b', gems).ramp|
    ensures BaseScore(song, l, k, q.surfaces[s], a, b, gems) < BaseScore(song, l, k, q.surfaces[s'], a', b', gems)
            <==> (F.Value(q.gains, a', b') > F.Value(q.gains, a, b) && song.headLen + song.bodyTotal > 0)
                 || Adds(q.surfaces[s], q.surfaces[s'], LineOf(song, l, k, a', b', gems), song.headLen)
  {
    hide AllocLine, SurfaceScore, WeightsOf, ValidSong, F.Value, ColorGain, Within, ValidLine, Adds;
    HeadFits(song);
    BeaterScoresMore(q, song, l, k, s', a', b', s, a, b, gems);
    ComboGroupIs(q, song, k, a', b');
    AllocLineValid(song, l, ComboGroup(k, a', b'), gems);
    ValidRamp(LineOf(song, l, k, a', b', gems));
    SurfaceStrict(q, s', s, LineOf(song, l, k, a', b', gems), song.headLen, song.bodyTotal);
    if F.Value(q.gains, a', b') == F.Value(q.gains, a, b) {
      LevelLine(q, song, l, k, a', b', a, b, gems);
    } else if song.headLen + song.bodyTotal > 0 {
      MoreValueStrict(q, song, l, k, s, a', b', a, b, gems);
    } else {
      NoNotesNoScore(q, song, l, k, s, a, b, gems);
      NoNotesNoScore(q, song, l, k, s', a', b', gems);
      NoNotesNoneAdded(q, song, s', s, LineOf(song, l, k, a', b', gems));
    }
  }

  lemma ValidRamp(l: Line)
    requires ValidLine(l)
    ensures HEAD_NOTES <= |l.ramp|
  {
  }

  lemma NoNotesNoneAdded(q: F.Input, song: Song, s': nat, s: nat, l: Line)
    requires F.ValidInput(q) && s < |q.surfaces| && s' < |q.surfaces| && HEAD_NOTES <= |l.ramp| && song.headLen == 0 && song.bodyTotal == 0
    requires forall t :: 0 <= t < |q.surfaces| ==> q.surfaces[t].body <= song.bodyTotal
    ensures !Adds(q.surfaces[s], q.surfaces[s'], l, song.headLen)
  {
  }

  /** With the same fever notes: exactly when its value is larger. */
  lemma SameSurfaceStrict(q: F.Input, song: Song, l: Loadout, k: SplitColors, s: nat, a': nat, b': nat, a: nat, b: nat, gems: Alloc)
    requires F.ValidInput(q) && FitsSong(q, song, k) && ValidLoadout(song, l) && s < |q.surfaces| && song.headLen + song.bodyTotal > 0
    requires a + b <= GEM_BUDGET && InSpace(song, l, ComboGroup(k, a, b), gems)
    requires a' + b' <= a + b && F.Value(q.gains, a', b') >= F.Value(q.gains, a, b)
    ensures InSpace(song, l, ComboGroup(k, a', b'), gems)
    ensures BaseScore(song, l, k, q.surfaces[s], a, b, gems) < BaseScore(song, l, k, q.surfaces[s], a', b', gems)
            <==> F.Value(q.gains, a', b') > F.Value(q.gains, a, b)
  {
    hide BaseScore, InSpace, ComboGroup, ValidSong, F.Value, HeadBit, NotePays;
    WithinItself(q, s);
    StrictlyMore(q, song, l, k, s, a', b', s, a, b, gems);
  }

  /** The source's comment says strictly more unless the two are identical: with gains of 6, 0 and 12 the splits (0, 1) and
      (2, 0) are not, one beats the other on its surface, and every gems score the same on both. */
  lemma BeaterTies(q: F.Input, song: Song, l: Loadout, k: SplitColors, s: nat, gems: Alloc)
    requires F.ValidInput(q) && FitsSong(q, song, k) && ValidLoadout(song, l) && s < |q.surfaces| && q.gains == F.Gains(6, 0, 12)
    requires InSpace(song, l, ComboGroup(k, 2, 0), gems)
    ensures F.Beats(q, s, 0, 1, s, 2, 0) && F.ComboIndex(0, 1) == 1 && F.ComboIndex(2, 0) == 181
    ensures InSpace(song, l, ComboGroup(k, 0, 1), gems)
    ensures BaseScore(song, l, k, q.surfaces[s], 0, 1, gems) == BaseScore(song, l, k, q.surfaces[s], 2, 0, gems)
  {
    hide AllocLine, ValidSong, InSpace, ComboGroup;
    WithinItself(q, s);
    LevelLine(q, song, l, k, 0, 1, 2, 0, gems);
  }

  // ---- The key's winner.

  /** A loadout at a reachable key of a song that has notes. */
  ghost predicate Case(q: F.Input, song: Song, l: Loadout, k: SplitColors, kx: nat, ky: nat) {
    && F.ValidInput(q) && FitsSong(q, song, k) && ValidLoadout(song, l) && kx <= F.MAX_STAT && ky <= F.MAX_STAT
    && q.reach[F.Cell(kx, ky)] && song.headLen + song.bodyTotal > 0
  }

  /** An option of the key with gems it can spend. */
  ghost predicate IsPlay(q: F.Input, song: Song, l: Loadout, k: SplitColors, kx: nat, ky: nat, s: nat, a: nat, b: nat, gems: Alloc)
    requires Case(q, song, l, k, kx, ky)
  {
    F.IsOption(q, kx, ky, s, a, b) && InSpace(song, l, ComboGroup(k, a, b), gems)
  }

  /** No play of the key scores more. */
  ghost predicate Wins(q: F.Input, song: Song, l: Loadout, k: SplitColors, kx: nat, ky: nat, s: nat, a: nat, b: nat, gems: Alloc)
    requires Case(q, song, l, k, kx, ky)
  {
    && IsPlay(q, song, l, k, kx, ky, s, a, b, gems)
    && forall t: nat, c: nat, d: nat, other: Alloc :: IsPlay(q, song, l, k, kx, ky, t, c, d, other) ==>
         BaseScore(song, l, k, q.surfaces[t], c, d, other) <= BaseScore(song, l, k, q.surfaces[s], a, b, gems)
  }

  /** The winner of the highest combo index. */
  ghost predicate HighestWinner(q: F.Input, song: Song, l: Loadout, k: SplitColors, kx: nat, ky: nat, s: nat, a: nat, b: nat, gems: Alloc) {
    && Case(q, song, l, k, kx, ky) && Wins(q, song, l, k, kx, ky, s, a, b, gems)
    && forall t: nat, c: nat, d: nat, other: Alloc :: Wins(q, song, l, k, kx, ky, t, c, d, other) ==> F.ComboIndex(c, d) <= F.ComboIndex(a, b)
  }

  /** The winner of the lowest. */
  ghost predicate LowestWinner(q: F.Input, song: Song, l: Loadout, k: SplitColors, kx: nat, ky: nat, s: nat, a: nat, b: nat, gems: Alloc) {
    && Case(q, song, l, k, kx, ky) && Wins(q, song, l, k, kx, ky, s, a, b, gems)
    && forall t: nat, c: nat, d: nat, other: Alloc :: Wins(q, song, l, k, kx, ky, t, c, d, other) ==> F.ComboIndex(a, b) <= F.ComboIndex(c, d)
  }

  /** Whatever beats a winner wins too, with the same gems and the same value, and no fever note it adds pays. */
  lemma BeaterWins(q: F.Input, song: Song, l: Loadout, k: SplitColors, kx: nat, ky: nat, s: nat, a: nat, b: nat, gems: Alloc,
                   t: nat, c: nat, d: nat)
    requires Case(q, song, l, k, kx, ky) && Wins(q, song, l, k, kx, ky, s, a, b, gems)
    requires F.IsOption(q, kx, ky, t, c, d) && F.Beats(q, t, c, d, s, a, b)
    ensures Wins(q, song, l, k, kx, ky, t, c, d, gems) && F.Value(q.gains, c, d) == F.Value(q.gains, a, b)
    ensures song.headLen <= HEAD_NOTES <= |LineOf(song, l, k, a, b, gems).ramp|
    ensures !Adds(q.surfaces[s], q.surfaces[t], LineOf(song, l, k, a, b, gems), song.headLen)
  {
    hide BaseScore, InSpace, ValidSong, ComboGroup, LineOf, F.HasOption, F.Value, F.ComboIndex, F.Contains, F.ValidInput, FitsSong, Adds, F.Cell;
    StrictlyMore(q, song, l, k, t, c, d, s, a, b, gems);
    BeaterScoresMore(q, song, l, k, t, c, d, s, a, b, gems);
    assert IsPlay(q, song, l, k, kx, ky, t, c, d, gems);
    SameLine(q, song, l, k, c, d, a, b, gems);
  }

  lemma SameLine(q: F.Input, song: Song, l: Loadout, k: SplitColors, a': nat, b': nat, a: nat, b: nat, gems: Alloc)
    requires F.ValidInput(q) && FitsSong(q, song, k) && ValidLoadout(song, l)
    requires a + b <= GEM_BUDGET && InSpace(song, l, ComboGroup(k, a, b), gems)
    requires a' + b' <= a + b && F.Value(q.gains, a', b') == F.Value(q.gains, a, b)
    ensures InSpace(song, l, ComboGroup(k, a', b'), gems) && LineOf(song, l, k, a', b', gems) == LineOf(song, l, k, a, b, gems)
  {
    hide AllocLine, ValidSong, InSpace, ComboGroup, F.Value, F.ValidInput, FitsSong;
    LevelLine(q, song, l, k, a', b', a, b, gems);
  }

  /** Nothing but other surfaces of the same combo beats the combo's winning options. */
  ghost predicate OnlyItself(q: F.Input, song: Song, l: Loadout, k: SplitColors, kx: nat, ky: nat, a: nat, b: nat, gems: Alloc)
    requires Case(q, song, l, k, kx, ky) && a + b <= GEM_BUDGET
  {
    forall s: nat, t: nat, c: nat, d: nat ::
      Wins(q, song, l, k, kx, ky, s, a, b, gems) && F.IsOption(q, kx, ky, t, c, d) && F.Beats(q, t, c, d, s, a, b) ==> c == a && d == b
  }

  /** Then the combo is kept: of its winning options one with the most fever notes is beaten by none. */
  lemma {:induction false} OnlyItselfKept(q: F.Input, song: Song, l: Loadout, k: SplitColors, kx: nat, ky: nat, s: nat, a: nat, b: nat, gems: Alloc)
    requires Case(q, song, l, k, kx, ky) && Wins(q, song, l, k, kx, ky, s, a, b, gems) && OnlyItself(q, song, l, k, kx, ky, a, b, gems)
    ensures F.Kept(q, kx, ky, a, b)
    decreases MostBody(q.surfaces) - q.surfaces[s].body, MasksLeft(q.surfaces[s])
  {
    hide BaseScore, InSpace, ValidSong, ComboGroup, LineOf, F.HasOption, F.Value, F.ComboIndex, Within, MostBody, Pow2, Bit, FitsSong, Adds, F.Cell,
         ValidLoadout;
    if F.Beaten(q, kx, ky, s, a, b) {
      var t: nat, c: nat, d: nat :| F.IsOption(q, kx, ky, t, c, d) && F.Beats(q, t, c, d, s, a, b);
      BeaterWins(q, song, l, k, kx, ky, s, a, b, gems, t, c, d);
      ContainedBelow(q, t, s);
      OnlyItselfKept(q, song, l, k, kx, ky, t, a, b, gems);
    }
  }

  // ---- Of two combos of equal value, which has the residual gems.

  /** With FT gems worth no more than FF gems, the one with more residual gems comes later in the table; with FT gems worth
      more, earlier. */
  lemma LevelOrder(q: F.Input, a: nat, b: nat, c: nat, d: nat)
    requires F.ValidInput(q) && a + b <= F.GEM_BUDGET && c + d <= a + b && F.Value(q.gains, c, d) == F.Value(q.gains, a, b)
    requires c != a || d != b
    ensures F.Wx(q) <= F.Wy(q) && c + d < a + b ==> F.ComboIndex(c, d) > F.ComboIndex(a, b)
    ensures F.Wx(q) > F.Wy(q) ==> c + d < a + b && F.ComboIndex(c, d) < F.ComboIndex(a, b)
    ensures c + d == a + b ==> F.Wx(q) == F.Wy(q)
  {
    hide F.ComboIndex;
    F.ValueIsWeighted(q.gains, a, b);
    F.ValueIsWeighted(q.gains, c, d);
    var x, y := -F.Wx(q), -F.Wy(q);
    assert x * (c - a) == y * (b - d);
    LevelSteps(x, y, c - a, b - d);
    if c < a { F.ComboIndexOrder(c, d, a, b); }
    if a < c { F.ComboIndexOrder(a, b, c, d); }
  }

  lemma LevelSteps(x: int, y: int, m: int, n: int)
    requires x > 0 && y > 0 && x * m == y * n
    ensures (m > 0 <==> n > 0) && (m < 0 <==> n < 0)
    ensures x == y ==> m == n
    ensures x > y && m > 0 ==> n > m
    ensures x > y && m < 0 ==> n < m
    ensures x < y && m > 0 ==> n < m
    ensures x < y && m < 0 ==> n > m
  {
    Signs(x, m);
    Signs(y, n);
    Signs(x - y, m);
    Signs(y, n - m);
    assert (x - y) * m == y * (n - m);
    if x < y { Signs(y - x, m); assert (y - x) * m == y * (m - n); Signs(y, m - n); }
  }

  lemma Signs(x: int, m: int)
    ensures x > 0 ==> (x * m > 0 <==> m > 0) && (x * m < 0 <==> m < 0) && (x * m == 0 <==> m == 0)
    ensures x == 0 ==> x * m == 0
  {
  }

  // ---- When the winner is listed.

  /** Masks hold bits of the song's head notes only, as the timeline writes them. */
  ghost predicate HeadOnly(q: F.Input, song: Song)
    requires F.ValidInput(q)
  {
    forall s, w, i: nat :: 0 <= s < |q.surfaces| && 0 <= w < 4 && Bit(q.surfaces[s].masks[w], i) ==> i < 32 && 32 * w + i < song.headLen
  }

  /** Every note of the song scores more in fever. */
  predicate FeverPays(song: Song, l: Line)
    requires song.headLen <= HEAD_NOTES <= |l.ramp|
  {
    (forall i :: 0 <= i < song.headLen ==> NotePays(l, l.ramp[i])) && (song.bodyTotal > 0 ==> NotePays(l, l.combo))
  }

  /** Where every note pays, a surface with no paying note more is the same. */
  lemma NothingAddedIsSame(q: F.Input, song: Song, l: Line, t: nat, s: nat)
    requires F.ValidInput(q) && HeadOnly(q, song) && s < |q.surfaces| && t < |q.surfaces| && F.Contains(q, t, s)
    requires song.headLen <= HEAD_NOTES <= |l.ramp| && FeverPays(song, l) && !Adds(q.surfaces[s], q.surfaces[t], l, song.headLen)
    requires forall u :: 0 <= u < |q.surfaces| ==> q.surfaces[u].body <= song.bodyTotal
    ensures t == s
  {
    hide Bit, NotePays, AddsHead, HeadBit;
    var x, y := q.surfaces[s], q.surfaces[t];
    forall w | 0 <= w < 4 ensures x.masks[w] == y.masks[w] {
      assert Within(x.masks[w], y.masks[w]);
      forall i: nat ensures Bit(x.masks[w], i) <==> Bit(y.masks[w], i) {
        if Bit(y.masks[w], i) && !Bit(x.masks[w], i) {
          AddedBit(song, l, x, y, w, i);
        }
      }
      BitsEqual(x.masks[w], y.masks[w]);
    }
    assert x.masks == y.masks;
  }

  lemma AddedBit(song: Song, l: Line, x: F.Surface, y: F.Surface, w: nat, i: nat)
    requires |x.masks| == 4 && |y.masks| == 4 && w < 4 && i < 32 && 32 * w + i < song.headLen <= HEAD_NOTES <= |l.ramp|
    requires Bit(y.masks[w], i) && !Bit(x.masks[w], i) && FeverPays(song, l)
    ensures AddsHead(x, y, l, song.headLen)
  {
    hide Bit, NotePays;
    PlaceOf(w, i);
    assert AddsAt(x, y, l, 32 * w + i);
  }

  lemma PlaceOf(w: nat, i: nat)
    requires i < 32
    ensures (32 * w + i) / 32 == w && (32 * w + i) % 32 == i
  {
  }

  lemma LinesFit(q: F.Input, song: Song, l: Loadout, k: SplitColors, kx: nat, ky: nat, s: nat, a: nat, b: nat, gems: Alloc)
    requires Case(q, song, l, k, kx, ky) && IsPlay(q, song, l, k, kx, ky, s, a, b, gems)
    ensures song.headLen <= HEAD_NOTES <= |LineOf(song, l, k, a, b, gems).ramp|
  {
    hide ValidSong, InSpace, AllocLine, F.Contains, F.Value, F.ValidInput, F.Cell, F.HasOption, ValidLine;
    HeadFits(song);
    ComboGroupIs(q, song, k, a, b);
    AllocLineValid(song, l, ComboGroup(k, a, b), gems);
    ValidRamp(LineOf(song, l, k, a, b, gems));
  }

  /** With FT gems worth less than FF gems the winner of the highest index is always listed; with equal worth, where every note
      pays. */
  lemma HighestIsListed(q: F.Input, song: Song, l: Loadout, k: SplitColors, kx: nat, ky: nat, s: nat, a: nat, b: nat, gems: Alloc)
    requires HighestWinner(q, song, l, k, kx, ky, s, a, b, gems)
    requires song.headLen <= HEAD_NOTES <= |LineOf(song, l, k, a, b, gems).ramp|
    requires q.gains.ft < q.gains.ff || (q.gains.ft == q.gains.ff && HeadOnly(q, song) && FeverPays(song, LineOf(song, l, k, a, b, gems)))
    ensures F.Kept(q, kx, ky, a, b)
  {
    hide BaseScore, InSpace, ValidSong, ComboGroup, LineOf, F.HasOption, F.Value, F.ComboIndex, F.Contains, Adds, F.Cell, HeadOnly, FeverPays,
         ValidLoadout;
    forall u: nat, t: nat, c: nat, d: nat | Wins(q, song, l, k, kx, ky, u, a, b, gems) && F.IsOption(q, kx, ky, t, c, d) && F.Beats(q, t, c, d, u, a, b)
      ensures c == a && d == b
    {
      BeaterWins(q, song, l, k, kx, ky, u, a, b, gems, t, c, d);
      if c != a || d != b {
        LevelOrder(q, a, b, c, d);
        if q.gains.ft == q.gains.ff && c + d == a + b {
          NothingAddedIsSame(q, song, LineOf(song, l, k, a, b, gems), t, u);
        }
      }
    }
    OnlyItselfKept(q, song, l, k, kx, ky, s, a, b, gems);
  }

  /** With FT gems worth more than FF gems the winner of the lowest index, which the GA takes, is always listed. */
  lemma LowestIsListed(q: F.Input, song: Song, l: Loadout, k: SplitColors, kx: nat, ky: nat, s: nat, a: nat, b: nat, gems: Alloc)
    requires LowestWinner(q, song, l, k, kx, ky, s, a, b, gems) && q.gains.ft > q.gains.ff
    ensures F.Kept(q, kx, ky, a, b)
  {
    hide BaseScore, InSpace, ValidSong, ComboGroup, LineOf, F.HasOption, F.Value, F.ComboIndex, F.Contains, Adds, F.Cell, ValidLoadout;
    forall u: nat, t: nat, c: nat, d: nat | Wins(q, song, l, k, kx, ky, u, a, b, gems) && F.IsOption(q, kx, ky, t, c, d) && F.Beats(q, t, c, d, u, a, b)
      ensures c == a && d == b
    {
      BeaterWins(q, song, l, k, kx, ky, u, a, b, gems, t, c, d);
      if c != a || d != b { LevelOrder(q, a, b, c, d); }
    }
    OnlyItselfKept(q, song, l, k, kx, ky, s, a, b, gems);
  }

  // ---- And when it is not: two combos of equal value, each on a cell of its own.

  /** Only the cells that (a, 0) and (0, b) reach from key (0, 0) have a frontier, of the first and the last surface. */
  function TwoCells(gains: F.Gains, a: nat, b: nat, surfaces: seq<F.Surface>): F.Input
    requires 0 < |surfaces|
  {
    F.Input(seq(F.SIDE * F.SIDE, c => if c == F.Cell(0, F.GAIN * b) then 1 else 0),
            seq(F.SIDE * F.SIDE, c => if c == F.Cell(0, F.GAIN * b) || c == F.Cell(F.GAIN * a, 0) then 1 else 0),
            [0, |surfaces| - 1], surfaces, seq(F.SIDE * F.SIDE, _ => true), gains)
  }

  /** A song of one body note without a combo bonus, and this fever multiplier. */
  function OneNote(flags: ColorFlags, fever: real): Song {
    Song(Curves(seq(MAX_STAT + 1, _ => 0.0), seq(MAX_STAT + 1, _ => 1.0), seq(MAX_STAT + 1, _ => seq(HEAD_NOTES, _ => 1.0)),
                seq(MAX_STAT + 1, _ => fever)),
         flags, SurfacePool([0], [1], [0], [[0, 0, 0, 0, 0, 0, 0, 0]], [GemBounds.HeadCounts(0, 0, 0, 0, 0, 0)], [BodyCounts(0, 0, 0)]), 0, 1)
  }

  /** Every stat at its cap: no PP, CM or FM gem can be spent. */
  const CAPPED := Loadout(MAX_STAT, MAX_STAT, MAX_STAT, 1, 1, 0)

  const NO_GEMS := Alloc(0, 0, 0)

  /** A one-color song names its color twice; a gem of FT or FF is worth less than one of the element. */
  ghost predicate ColorsFit(flags: ColorFlags, k: SplitColors) {
    && (flags.singleColor ==>
          && flags.ppPrimary == flags.ppSecondary && flags.cmPrimary == flags.cmSecondary && flags.fmPrimary == flags.fmSecondary
          && flags.elementPrimary == flags.elementSecondary && k.ftPrimary == k.ftSecondary && k.ffPrimary == k.ffSecondary)
    && AxisWorth(k.ftPrimary, k.ftSecondary) < WeightsOf(flags).element && AxisWorth(k.ffPrimary, k.ffSecondary) < WeightsOf(flags).element
  }

  function GainsOf(flags: ColorFlags, k: SplitColors): F.Gains {
    F.Gains(AxisWorth(k.ftPrimary, k.ftSecondary), AxisWorth(k.ffPrimary, k.ffSecondary), WeightsOf(flags).element)
  }

  /** How many FT gems, and how many FF gems, lose the same value against the element. */
  function FtGems(flags: ColorFlags, k: SplitColors): int { (WeightsOf(flags).element - AxisWorth(k.ffPrimary, k.ffSecondary)) / 3 }

  function FfGems(flags: ColorFlags, k: SplitColors): int { (WeightsOf(flags).element - AxisWorth(k.ftPrimary, k.ftSecondary)) / 3 }

  lemma GemsAre(flags: ColorFlags, k: SplitColors)
    requires ColorsFit(flags, k)
    ensures 1 <= FtGems(flags, k) <= 6 && 1 <= FfGems(flags, k) <= 6
    ensures F.Value(GainsOf(flags, k), FtGems(flags, k), 0) == F.Value(GainsOf(flags, k), 0, FfGems(flags, k))
    ensures GainsOf(flags, k).ft < GainsOf(flags, k).ff <==> FtGems(flags, k) < FfGems(flags, k)
    ensures GainsOf(flags, k).ft == GainsOf(flags, k).ff <==> FtGems(flags, k) == FfGems(flags, k)
  {
  }

  lemma OneNoteIsSong(flags: ColorFlags, fever: real)
    requires fever >= 1.0
    ensures ValidSong(OneNote(flags, fever))
  {
    var s := OneNote(flags, fever);
    assert s.pool.headCounts[0] == GemBounds.CountHead(PatternSurface(s.pool.patternWords[0]), 0);
    forall r | 0 <= r <= MAX_STAT ensures IsRamp(s.curves.ramp[r], s.curves.cm[r]) { }
  }

  predicate IsBodySurface(x: F.Surface) { x.masks == [0, 0, 0, 0] && x.body <= 1 }

  /** Surfaces without head notes, one body note at most in fever, distinct. */
  predicate BodySurfaces(surfaces: seq<F.Surface>) {
    && 1 <= |surfaces| <= 2 && (forall s :: 0 <= s < |surfaces| ==> IsBodySurface(surfaces[s]))
    && (|surfaces| == 2 ==> surfaces[0] != surfaces[1])
  }

  lemma TwoCellsIsInput(flags: ColorFlags, k: SplitColors, surfaces: seq<F.Surface>)
    requires ColorsFit(flags, k) && BodySurfaces(surfaces)
    ensures FtGems(flags, k) >= 0 && FfGems(flags, k) >= 0
    ensures F.ValidInput(TwoCells(GainsOf(flags, k), FtGems(flags, k), FfGems(flags, k), surfaces))
  {
    GemsAre(flags, k);
    ZeroIsWord();
    forall s, w | 0 <= s < |surfaces| && 0 <= w < 4 ensures IsWord(surfaces[s].masks[w]) {
      assert surfaces[s].masks[w] == 0;
    }
  }

  lemma ZeroIsWord()
    ensures IsWord(0)
  {
    Pow2Add(1, WORD_BITS - 1);
  }

  /** Key (0, 0) has two options. */
  lemma TwoOptions(flags: ColorFlags, k: SplitColors, surfaces: seq<F.Surface>, s: nat, c: nat, d: nat)
    requires ColorsFit(flags, k) && BodySurfaces(surfaces)
    ensures FtGems(flags, k) >= 0 && FfGems(flags, k) >= 0
    ensures F.ValidInput(TwoCells(GainsOf(flags, k), FtGems(flags, k), FfGems(flags, k), surfaces))
    ensures F.IsOption(TwoCells(GainsOf(flags, k), FtGems(flags, k), FfGems(flags, k), surfaces), 0, 0, s, c, d)
            <==> (s == 0 && c == FtGems(flags, k) && d == 0) || (s == |surfaces| - 1 && c == 0 && d == FfGems(flags, k))
  {
    GemsAre(flags, k);
    TwoCellsIsInput(flags, k, surfaces);
    var a, b := FtGems(flags, k), FfGems(flags, k);
    CellOption(GainsOf(flags, k), a, b, surfaces, s, F.GAIN * c, F.GAIN * d);
  }

  lemma CellOption(gains: F.Gains, a: nat, b: nat, surfaces: seq<F.Surface>, s: nat, x: nat, y: nat)
    requires 1 <= a <= 6 && 1 <= b <= 6 && |surfaces| > 0 && F.ValidInput(TwoCells(gains, a, b, surfaces))
    ensures F.HasOption(TwoCells(gains, a, b, surfaces), s, x, y)
            <==> (s == 0 && x == F.GAIN * a && y == 0) || (s == |surfaces| - 1 && x == 0 && y == F.GAIN * b)
  {
    var q := TwoCells(gains, a, b, surfaces);
    if x <= F.MAX_STAT && y <= F.MAX_STAT {
      ShortlistSweep.CellInGrid(x, y);
      var c := F.Cell(x, y);
      assert q.counts[c] == (if c == F.Cell(0, F.GAIN * b) || c == F.Cell(F.GAIN * a, 0) then 1 else 0);
      assert q.offsets[c] == (if c == F.Cell(0, F.GAIN * b) then 1 else 0);
      if c == F.Cell(0, F.GAIN * b) { ShortlistSweep.CellInjective(x, y, 0, F.GAIN * b); }
      if c == F.Cell(F.GAIN * a, 0) { ShortlistSweep.CellInjective(x, y, F.GAIN * a, 0); }
      if q.counts[c] == 1 {
        var r := q.offsets[c];
        assert q.surfaceOfRow[r] == s ==> F.HasOption(q, s, x, y);
      }
    }
  }

  const NO_FEVER := F.Surface([0, 0, 0, 0], 0)

  const ALL_FEVER := F.Surface([0, 0, 0, 0], 1)

  function PairInput(flags: ColorFlags, k: SplitColors, surfaces: seq<F.Surface>): F.Input
    requires |surfaces| > 0 && FtGems(flags, k) >= 0 && FfGems(flags, k) >= 0
  {
    TwoCells(GainsOf(flags, k), FtGems(flags, k), FfGems(flags, k), surfaces)
  }

  lemma SpaceIs(flags: ColorFlags, fever: real, k: SplitColors, c: nat, d: nat, gems: Alloc)
    requires fever >= 1.0 && c + d <= GEM_BUDGET
    ensures ValidSong(OneNote(flags, fever))
    ensures InSpace(OneNote(flags, fever), CAPPED, ComboGroup(k, c, d), gems) <==> gems == NO_GEMS
  {
    OneNoteIsSong(flags, fever);
  }

  lemma PairCase(flags: ColorFlags, fever: real, k: SplitColors, surfaces: seq<F.Surface>)
    requires ColorsFit(flags, k) && BodySurfaces(surfaces) && fever >= 1.0
    ensures FtGems(flags, k) >= 0 && FfGems(flags, k) >= 0
    ensures Case(PairInput(flags, k, surfaces), OneNote(flags, fever), CAPPED, k, 0, 0) && HeadOnly(PairInput(flags, k, surfaces), OneNote(flags, fever))
  {
    GemsAre(flags, k);
    TwoCellsIsInput(flags, k, surfaces);
    OneNoteIsSong(flags, fever);
    ShortlistSweep.CellInGrid(0, 0);
    forall s, w, i: nat | 0 <= s < |surfaces| && 0 <= w < 4 ensures !Bit(surfaces[s].masks[w], i) {
      assert surfaces[s].masks[w] == 0;
      BitZero(i);
    }
  }

  /** The one note's score, and what it pays in fever. */
  lemma NoteOf(flags: ColorFlags, fever: real, k: SplitColors, x: F.Surface, c: nat, d: nat)
    requires fever >= 1.0 && c + d <= GEM_BUDGET && IsBodySurface(x)
    ensures ValidSong(OneNote(flags, fever)) && InSpace(OneNote(flags, fever), CAPPED, ComboGroup(k, c, d), NO_GEMS)
    ensures var song, l := OneNote(flags, fever), LineOf(OneNote(flags, fever), CAPPED, k, c, d, NO_GEMS);
            && BaseScore(song, CAPPED, k, x, c, d, NO_GEMS) == Points(l.base, l.combo, l, x.body == 1)
            && l.combo == 1.0 && l.fever == fever && l.base >= 3.0 && song.headLen <= HEAD_NOTES <= |l.ramp|
  {
    hide PrimaryGain, SecondaryGain, GreatBase, ColorGain, Points;
    SpaceIs(flags, fever, k, c, d, NO_GEMS);
    var l := LineOf(OneNote(flags, fever), CAPPED, k, c, d, NO_GEMS);
    assert l.combo == 1.0 && l.fever == fever;
    assert HeadScore(BaseSurface(x), l, 0) == 0;
  }

  lemma Doubled(base: real, l: Line)
    requires base >= 1.0 && l.combo == 1.0
    ensures l.fever == 2.0 ==> Points(base, l.combo, l, true) > Points(base, l.combo, l, false)
    ensures l.fever == 1.0 ==> Points(base, l.combo, l, true) == Points(base, l.combo, l, false)
  {
  }

  /** Both combos score the same: on one surface, or where fever pays nothing. */
  lemma PairLevel(flags: ColorFlags, fever: real, k: SplitColors, x: F.Surface, y: F.Surface)
    requires ColorsFit(flags, k) && fever >= 1.0 && IsBodySurface(x) && IsBodySurface(y) && (x == y || fever == 1.0)
    ensures 0 <= FtGems(flags, k) <= GEM_BUDGET && 0 <= FfGems(flags, k) <= GEM_BUDGET && ValidSong(OneNote(flags, fever))
    ensures InSpace(OneNote(flags, fever), CAPPED, ComboGroup(k, FtGems(flags, k), 0), NO_GEMS)
    ensures InSpace(OneNote(flags, fever), CAPPED, ComboGroup(k, 0, FfGems(flags, k)), NO_GEMS)
    ensures BaseScore(OneNote(flags, fever), CAPPED, k, x, FtGems(flags, k), 0, NO_GEMS)
         == BaseScore(OneNote(flags, fever), CAPPED, k, y, 0, FfGems(flags, k), NO_GEMS)
  {
    hide LineOf, BaseScore, Points, InSpace, ValidSong, F.Value, FtGems, FfGems;
    GemsAre(flags, k);
    var a, b := FtGems(flags, k), FfGems(flags, k);
    NoteOf(flags, fever, k, x, a, 0);
    NoteOf(flags, fever, k, y, 0, b);
    PairCase(flags, fever, k, [x]);
    var song, q := OneNote(flags, fever), PairInput(flags, k, [x]);
    if a <= b {
      SameLine(q, song, CAPPED, k, a, 0, 0, b, NO_GEMS);
    } else {
      SameLine(q, song, CAPPED, k, 0, b, a, 0, NO_GEMS);
    }
    Doubled(LineOf(song, CAPPED, k, a, 0, NO_GEMS).base, LineOf(song, CAPPED, k, a, 0, NO_GEMS));
  }

  /** So both win, and nothing else does. */
  lemma PairWins(flags: ColorFlags, fever: real, k: SplitColors, surfaces: seq<F.Surface>)
    requires ColorsFit(flags, k) && fever >= 1.0 && BodySurfaces(surfaces) && (|surfaces| == 1 || fever == 1.0)
    ensures 0 <= FtGems(flags, k) && 0 <= FfGems(flags, k)
    ensures var q, song := PairInput(flags, k, surfaces), OneNote(flags, fever);
            && Case(q, song, CAPPED, k, 0, 0)
            && Wins(q, song, CAPPED, k, 0, 0, 0, FtGems(flags, k), 0, NO_GEMS)
            && Wins(q, song, CAPPED, k, 0, 0, |surfaces| - 1, 0, FfGems(flags, k), NO_GEMS)
            && forall t: nat, c: nat, d: nat, gems: Alloc :: Wins(q, song, CAPPED, k, 0, 0, t, c, d, gems) ==>
                 (c == FtGems(flags, k) && d == 0) || (c == 0 && d == FfGems(flags, k))
  {
    hide BaseScore, InSpace, ValidSong, F.Value, F.HasOption, FtGems, FfGems, ComboGroup, OneNote;
    GemsAre(flags, k);
    PairCase(flags, fever, k, surfaces);
    PairLevel(flags, fever, k, surfaces[0], surfaces[|surfaces| - 1]);
    var q, song := PairInput(flags, k, surfaces), OneNote(flags, fever);
    forall t: nat, c: nat, d: nat, gems: Alloc | IsPlay(q, song, CAPPED, k, 0, 0, t, c, d, gems)
      ensures gems == NO_GEMS && ((t == 0 && c == FtGems(flags, k) && d == 0) || (t == |surfaces| - 1 && c == 0 && d == FfGems(flags, k)))
    {
      TwoOptions(flags, k, surfaces, t, c, d);
      SpaceIs(flags, fever, k, c, d, gems);
    }
    TwoOptions(flags, k, surfaces, 0, FtGems(flags, k), 0);
    TwoOptions(flags, k, surfaces, |surfaces| - 1, 0, FfGems(flags, k));
    assert IsPlay(q, song, CAPPED, k, 0, 0, 0, FtGems(flags, k), 0, NO_GEMS);
    assert IsPlay(q, song, CAPPED, k, 0, 0, |surfaces| - 1, 0, FfGems(flags, k), NO_GEMS);
  }

  lemma PairIndices(flags: ColorFlags, k: SplitColors)
    requires ColorsFit(flags, k)
    ensures 1 <= FtGems(flags, k) <= 6 && 1 <= FfGems(flags, k) <= 6
    ensures F.ComboIndex(FtGems(flags, k), 0) > F.ComboIndex(0, FfGems(flags, k))
  {
    hide F.ComboIndex;
    GemsAre(flags, k);
    F.ComboIndexOrder(0, FfGems(flags, k), FtGems(flags, k), 0);
  }

  /** A combo all of whose options are beaten is not kept. */
  lemma PairNotKept(flags: ColorFlags, k: SplitColors, surfaces: seq<F.Surface>, s: nat, a: nat, b: nat, t: nat, c: nat, d: nat)
    requires ColorsFit(flags, k) && BodySurfaces(surfaces) && FtGems(flags, k) >= 0 && FfGems(flags, k) >= 0
    requires F.ValidInput(PairInput(flags, k, surfaces)) && s < |surfaces| && t < |surfaces|
    requires (a, b, c, d, s, t) in {(FtGems(flags, k), 0, 0, FfGems(flags, k), 0, |surfaces| - 1), (0, FfGems(flags, k), FtGems(flags, k), 0, |surfaces| - 1, 0)}
    requires a + b <= F.GEM_BUDGET && c + d <= F.GEM_BUDGET && F.Beats(PairInput(flags, k, surfaces), t, c, d, s, a, b)
    ensures !F.Kept(PairInput(flags, k, surfaces), 0, 0, a, b)
  {
    hide F.HasOption, F.Value, F.ComboIndex, F.Contains, FtGems, FfGems, TwoCells, F.Beats;
    var q := PairInput(flags, k, surfaces);
    PairIndices(flags, k);
    TwoOptions(flags, k, surfaces, t, c, d);
    forall u: nat | F.IsOption(q, 0, 0, u, a, b) ensures F.Beaten(q, 0, 0, u, a, b) {
      TwoOptions(flags, k, surfaces, u, a, b);
      assert u == s;
    }
  }

  /** The two combos' order of value and residual gems, as the sweep compares them. */
  lemma PairBeats(flags: ColorFlags, k: SplitColors, surfaces: seq<F.Surface>)
    requires ColorsFit(flags, k) && BodySurfaces(surfaces)
    ensures 1 <= FtGems(flags, k) <= 6 && 1 <= FfGems(flags, k) <= 6 && F.ValidInput(PairInput(flags, k, surfaces))
    ensures var q, a, b, g, n := PairInput(flags, k, surfaces), FtGems(flags, k), FfGems(flags, k), GainsOf(flags, k), |surfaces| - 1;
            && (n == 0 && g.ft > g.ff ==> F.Beats(q, 0, 0, b, 0, a, 0))
            && (n == 0 && g.ft <= g.ff ==> F.Beats(q, 0, a, 0, 0, 0, b))
            && (surfaces == [NO_FEVER, ALL_FEVER] && g.ft == g.ff ==> F.Beats(q, 1, 0, b, 0, a, 0))
  {
    hide F.ComboIndex, F.Value, FtGems, FfGems, Bit;
    PairIndices(flags, k);
    GemsAre(flags, k);
    TwoCellsIsInput(flags, k, surfaces);
    WithinItself(PairInput(flags, k, surfaces), 0);
  }

  /** A combo of the key's shortlist. */
  ghost predicate Listed(q: F.Input, kx: nat, ky: nat, a: nat, b: nat) {
    F.ValidInput(q) && kx <= F.MAX_STAT && ky <= F.MAX_STAT && F.Kept(q, kx, ky, a, b)
  }

  /** With FT gems worth more, the winner of the highest index may be lost though every note pays. */
  lemma HighestLost(flags: ColorFlags, k: SplitColors)
    requires ColorsFit(flags, k) && GainsOf(flags, k).ft > GainsOf(flags, k).ff
    ensures FtGems(flags, k) >= 0 && FfGems(flags, k) >= 0
    ensures var q, song := PairInput(flags, k, [NO_FEVER]), OneNote(flags, 2.0);
            && HighestWinner(q, song, CAPPED, k, 0, 0, 0, FtGems(flags, k), 0, NO_GEMS) && HeadOnly(q, song)
            && song.headLen <= HEAD_NOTES <= |LineOf(song, CAPPED, k, FtGems(flags, k), 0, NO_GEMS).ramp|
            && FeverPays(song, LineOf(song, CAPPED, k, FtGems(flags, k), 0, NO_GEMS))
            && !Listed(q, 0, 0, FtGems(flags, k), 0)
  {
    hide BaseScore, InSpace, ValidSong, F.Value, F.HasOption, FtGems, FfGems, ComboGroup, TwoCells, F.ComboIndex, F.Contains, LineOf, Points,
         FitsSong, HeadOnly;
    PairIndices(flags, k);
    PairCase(flags, 2.0, k, [NO_FEVER]);
    PairWins(flags, 2.0, k, [NO_FEVER]);
    PairBeats(flags, k, [NO_FEVER]);
    PairNotKept(flags, k, [NO_FEVER], 0, FtGems(flags, k), 0, 0, 0, FfGems(flags, k));
    NoteOf(flags, 2.0, k, NO_FEVER, FtGems(flags, k), 0);
    var l := LineOf(OneNote(flags, 2.0), CAPPED, k, FtGems(flags, k), 0, NO_GEMS);
    Doubled(l.base, l);
  }

  /** With equal worth it may be lost where fever pays nothing. */
  lemma HighestLostLevel(flags: ColorFlags, k: SplitColors)
    requires ColorsFit(flags, k) && GainsOf(flags, k).ft == GainsOf(flags, k).ff
    ensures FtGems(flags, k) >= 0 && FfGems(flags, k) >= 0
    ensures var q, song := PairInput(flags, k, [NO_FEVER, ALL_FEVER]), OneNote(flags, 1.0);
            HighestWinner(q, song, CAPPED, k, 0, 0, 0, FtGems(flags, k), 0, NO_GEMS) && !Listed(q, 0, 0, FtGems(flags, k), 0)
  {
    hide BaseScore, InSpace, ValidSong, F.Value, F.HasOption, FtGems, FfGems, ComboGroup, TwoCells, F.ComboIndex, F.Contains, LineOf, Points, FitsSong;
    PairIndices(flags, k);
    PairWins(flags, 1.0, k, [NO_FEVER, ALL_FEVER]);
    PairBeats(flags, k, [NO_FEVER, ALL_FEVER]);
    PairNotKept(flags, k, [NO_FEVER, ALL_FEVER], 0, FtGems(flags, k), 0, 1, 0, FfGems(flags, k));
  }

  /** With FT gems worth no more than FF gems the winner of the lowest index may be lost. */
  lemma LowestLost(flags: ColorFlags, k: SplitColors)
    requires ColorsFit(flags, k) && GainsOf(flags, k).ft <= GainsOf(flags, k).ff
    ensures FtGems(flags, k) >= 0 && FfGems(flags, k) >= 0
    ensures var q, song := PairInput(flags, k, [NO_FEVER]), OneNote(flags, 2.0);
            && LowestWinner(q, song, CAPPED, k, 0, 0, 0, 0, FfGems(flags, k), NO_GEMS) && HeadOnly(q, song)
            && song.headLen <= HEAD_NOTES <= |LineOf(song, CAPPED, k, 0, FfGems(flags, k), NO_GEMS).ramp|
            && FeverPays(song, LineOf(song, CAPPED, k, 0, FfGems(flags, k), NO_GEMS))
            && !Listed(q, 0, 0, 0, FfGems(flags, k))
  {
    hide BaseScore, InSpace, ValidSong, F.Value, F.HasOption, FtGems, FfGems, ComboGroup, TwoCells, F.ComboIndex, F.Contains, LineOf, Points,
         FitsSong, HeadOnly;
    PairIndices(flags, k);
    PairCase(flags, 2.0, k, [NO_FEVER]);
    PairWins(flags, 2.0, k, [NO_FEVER]);
    PairBeats(flags, k, [NO_FEVER]);
    PairNotKept(flags, k, [NO_FEVER], 0, 0, FfGems(flags, k), 0, FtGems(flags, k), 0);
    NoteOf(flags, 2.0, k, NO_FEVER, 0, FfGems(flags, k));
    var l := LineOf(OneNote(flags, 2.0), CAPPED, k, 0, FfGems(flags, k), NO_GEMS);
    Doubled(l.base, l);
  }

  // ---- Exactly when a tie-break's winner is always listed.

  /** The winner's masks are its song's and each of its notes pays. */
  ghost predicate EveryNotePays(q: F.Input, song: Song, l: Loadout, k: SplitColors, kx: nat, ky: nat, s: nat, a: nat, b: nat, gems: Alloc)
  {
    && Case(q, song, l, k, kx, ky) && Wins(q, song, l, k, kx, ky, s, a, b, gems)
    && (LinesFit(q, song, l, k, kx, ky, s, a, b, gems); HeadOnly(q, song) && FeverPays(song, LineOf(song, l, k, a, b, gems)))
  }

  /** Whatever the timeline, the song's curves, the loadout and its key: the winner of the highest index is on the shortlist. */
  ghost predicate HighestAlways(flags: ColorFlags, k: SplitColors) {
    forall q, song, l, kx: nat, ky: nat, s: nat, a: nat, b: nat, gems: Alloc ::
      HighestWinner(q, song, l, k, kx, ky, s, a, b, gems) && song.flags == flags ==> Listed(q, kx, ky, a, b)
  }

  ghost predicate HighestWherePays(flags: ColorFlags, k: SplitColors) {
    forall q, song, l, kx: nat, ky: nat, s: nat, a: nat, b: nat, gems: Alloc ::
      HighestWinner(q, song, l, k, kx, ky, s, a, b, gems) && song.flags == flags && EveryNotePays(q, song, l, k, kx, ky, s, a, b, gems) ==>
        Listed(q, kx, ky, a, b)
  }

  ghost predicate LowestAlways(flags: ColorFlags, k: SplitColors) {
    forall q, song, l, kx: nat, ky: nat, s: nat, a: nat, b: nat, gems: Alloc ::
      LowestWinner(q, song, l, k, kx, ky, s, a, b, gems) && song.flags == flags ==> Listed(q, kx, ky, a, b)
  }

  ghost predicate LowestWherePays(flags: ColorFlags, k: SplitColors) {
    forall q, song, l, kx: nat, ky: nat, s: nat, a: nat, b: nat, gems: Alloc ::
      LowestWinner(q, song, l, k, kx, ky, s, a, b, gems) && song.flags == flags && EveryNotePays(q, song, l, k, kx, ky, s, a, b, gems) ==>
        Listed(q, kx, ky, a, b)
  }

  lemma GainsOfCase(q: F.Input, song: Song, l: Loadout, k: SplitColors, kx: nat, ky: nat)
    requires Case(q, song, l, k, kx, ky)
    ensures q.gains == GainsOf(song.flags, k)
  {
    hide ValidSong, F.ValidInput;
  }

  lemma HighestExact(flags: ColorFlags, k: SplitColors)
    requires ColorsFit(flags, k)
    ensures HighestAlways(flags, k) <==> AxisWorth(k.ftPrimary, k.ftSecondary) < AxisWorth(k.ffPrimary, k.ffSecondary)
    ensures HighestWherePays(flags, k) <==> AxisWorth(k.ftPrimary, k.ftSecondary) <= AxisWorth(k.ffPrimary, k.ffSecondary)
  {
    hide AxisWorth, HighestWinner, Listed, EveryNotePays, HeadOnly, FeverPays, LineOf, FtGems, FfGems, TwoCells;
    if GainsOf(flags, k).ft > GainsOf(flags, k).ff {
      LostIsPaid(flags, k);
    } else if GainsOf(flags, k).ft == GainsOf(flags, k).ff {
      HighestLostLevel(flags, k);
    }
    forall q, song, l, kx: nat, ky: nat, s: nat, a: nat, b: nat, gems: Alloc | HighestWinner(q, song, l, k, kx, ky, s, a, b, gems) && song.flags == flags
      ensures GainsOf(flags, k).ft < GainsOf(flags, k).ff ==> Listed(q, kx, ky, a, b)
      ensures GainsOf(flags, k).ft == GainsOf(flags, k).ff && EveryNotePays(q, song, l, k, kx, ky, s, a, b, gems) ==> Listed(q, kx, ky, a, b)
    {
      HighestListed(q, song, l, k, kx, ky, s, a, b, gems);
    }
  }

  lemma HighestListed(q: F.Input, song: Song, l: Loadout, k: SplitColors, kx: nat, ky: nat, s: nat, a: nat, b: nat, gems: Alloc)
    requires HighestWinner(q, song, l, k, kx, ky, s, a, b, gems)
    ensures GainsOf(song.flags, k).ft < GainsOf(song.flags, k).ff ==> Listed(q, kx, ky, a, b)
    ensures GainsOf(song.flags, k).ft == GainsOf(song.flags, k).ff && EveryNotePays(q, song, l, k, kx, ky, s, a, b, gems) ==> Listed(q, kx, ky, a, b)
  {
    hide F.Kept, HeadOnly, FeverPays, LineOf, Wins, Case, GainsOf;
    GainsOfCase(q, song, l, k, kx, ky);
    WinsFit(q, song, l, k, kx, ky, s, a, b, gems);
    if q.gains.ft < q.gains.ff || (q.gains.ft == q.gains.ff && EveryNotePays(q, song, l, k, kx, ky, s, a, b, gems)) {
      HighestIsListed(q, song, l, k, kx, ky, s, a, b, gems);
    }
  }

  lemma WinsFit(q: F.Input, song: Song, l: Loadout, k: SplitColors, kx: nat, ky: nat, s: nat, a: nat, b: nat, gems: Alloc)
    requires Case(q, song, l, k, kx, ky) && Wins(q, song, l, k, kx, ky, s, a, b, gems)
    ensures F.ValidInput(q) && ValidSong(song) && kx <= F.MAX_STAT && ky <= F.MAX_STAT && a + b <= GEM_BUDGET
    ensures InSpace(song, l, ComboGroup(k, a, b), gems) && song.headLen <= HEAD_NOTES <= |LineOf(song, l, k, a, b, gems).ramp|
  {
    hide BaseScore, InSpace, ValidSong, F.ValidInput, F.HasOption, LineOf;
    LinesFit(q, song, l, k, kx, ky, s, a, b, gems);
  }

  lemma LostIsPaid(flags: ColorFlags, k: SplitColors)
    requires ColorsFit(flags, k) && GainsOf(flags, k).ft > GainsOf(flags, k).ff
    ensures FtGems(flags, k) >= 0 && FfGems(flags, k) >= 0
    ensures var q, song := PairInput(flags, k, [NO_FEVER]), OneNote(flags, 2.0);
            && HighestWinner(q, song, CAPPED, k, 0, 0, 0, FtGems(flags, k), 0, NO_GEMS)
            && EveryNotePays(q, song, CAPPED, k, 0, 0, 0, FtGems(flags, k), 0, NO_GEMS) && !Listed(q, 0, 0, FtGems(flags, k), 0)
  {
    hide HeadOnly, FeverPays, LineOf, FtGems, FfGems, TwoCells, Wins, Case, F.Kept;
    HighestLost(flags, k);
  }

  /** The lowest index, the GA's own tie-break: always listed exactly where FT gems are worth more than FF gems, whether or not
      every note pays. */
  lemma LowestExact(flags: ColorFlags, k: SplitColors)
    requires ColorsFit(flags, k)
    ensures LowestAlways(flags, k) <==> AxisWorth(k.ftPrimary, k.ftSecondary) > AxisWorth(k.ffPrimary, k.ffSecondary)
    ensures LowestWherePays(flags, k) <==> AxisWorth(k.ftPrimary, k.ftSecondary) > AxisWorth(k.ffPrimary, k.ffSecondary)
  {
    hide AxisWorth, LowestWinner, Listed, EveryNotePays, HeadOnly, FeverPays, LineOf, FtGems, FfGems, TwoCells;
    if GainsOf(flags, k).ft <= GainsOf(flags, k).ff {
      LowestLostIsPaid(flags, k);
    }
    forall q, song, l, kx: nat, ky: nat, s: nat, a: nat, b: nat, gems: Alloc | LowestWinner(q, song, l, k, kx, ky, s, a, b, gems) && song.flags == flags
      ensures GainsOf(flags, k).ft > GainsOf(flags, k).ff ==> Listed(q, kx, ky, a, b)
    {
      LowestListed(q, song, l, k, kx, ky, s, a, b, gems);
    }
  }

  lemma LowestListed(q: F.Input, song: Song, l: Loadout, k: SplitColors, kx: nat, ky: nat, s: nat, a: nat, b: nat, gems: Alloc)
    requires LowestWinner(q, song, l, k, kx, ky, s, a, b, gems)
    ensures GainsOf(song.flags, k).ft > GainsOf(song.flags, k).ff ==> Listed(q, kx, ky, a, b)
  {
    hide F.Kept, Wins, Case, GainsOf;
    GainsOfCase(q, song, l, k, kx, ky);
    WinsFit(q, song, l, k, kx, ky, s, a, b, gems);
    if q.gains.ft > q.gains.ff { LowestIsListed(q, song, l, k, kx, ky, s, a, b, gems); }
  }

  lemma LowestLostIsPaid(flags: ColorFlags, k: SplitColors)
    requires ColorsFit(flags, k) && GainsOf(flags, k).ft <= GainsOf(flags, k).ff
    ensures FtGems(flags, k) >= 0 && FfGems(flags, k) >= 0
    ensures var q, song := PairInput(flags, k, [NO_FEVER]), OneNote(flags, 2.0);
            && LowestWinner(q, song, CAPPED, k, 0, 0, 0, 0, FfGems(flags, k), NO_GEMS)
            && EveryNotePays(q, song, CAPPED, k, 0, 0, 0, 0, FfGems(flags, k), NO_GEMS) && !Listed(q, 0, 0, 0, FfGems(flags, k))
  {
    hide HeadOnly, FeverPays, LineOf, FtGems, FfGems, TwoCells, Wins, Case, F.Kept;
    LowestLost(flags, k);
  }
}
