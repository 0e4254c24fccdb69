/** The lossless pool pruning of one song (gear_optimizer/pipeline/pools.py): what it drops, no loadout needs. */
module Pools {

  datatype Stats = Stats(pp: int, cm: int, fm: int, ft: int, ff: int, colors: map<string, int>)

  /** A gear or mini row of the catalog. */
  datatype Row = Row(name: string, stats: Stats)

  /** The axes a song's score can see. */
  datatype Axes = Axes(pp: int, cm: int, fm: int, ft: int, ff: int, primary: int, secondary: int)

  function Color(stats: Stats, color: string): int {
    if color != "" && color in stats.colors then stats.colors[color] else 0
  }

  function Projection(row: Row, primary: string, secondary: string): Axes {
    var s := row.stats;
    Axes(s.pp, s.cm, s.fm, s.ft, s.ff, Color(s, primary), Color(s, secondary))
  }

  /** A song's two elements. */
  datatype Song = Song(primary: string, secondary: string)

  function Of(song: Song, row: Row): Axes { Projection(row, song.primary, song.secondary) }

  /** Equal fever timing, and no less on any other axis. */
  predicate AtLeast(x: Axes, y: Axes) {
    x.ft == y.ft && x.ff == y.ff && x.pp >= y.pp && x.cm >= y.cm && x.fm >= y.fm && x.primary >= y.primary && x.secondary >= y.secondary
  }

  predicate Dominates(x: Axes, y: Axes) { AtLeast(x, y) && x != y }

  function Sum(x: Axes): int { x.pp + x.cm + x.fm + x.primary + x.secondary }

  function Plus(x: Axes, y: Axes): Axes {
    Axes(x.pp + y.pp, x.cm + y.cm, x.fm + y.fm, x.ft + y.ft, x.ff + y.ff, x.primary + y.primary, x.secondary + y.secondary)
  }

  const NOTHING := Axes(0, 0, 0, 0, 0, 0, 0)

  /** A team's summed axes. */
  function Totals(song: Song, team: seq<Row>): Axes {
    if team == [] then NOTHING else Plus(Totals(song, team[..|team| - 1]), Of(song, team[|team| - 1]))
  }

  function SumOf(team: seq<Row>, stat: Row -> int): int {
    if team == [] then 0 else SumOf(team[..|team| - 1], stat) + stat(team[|team| - 1])
  }

  /** What an item gives of an element; a song without one sees none. */
  function Amount(row: Row, element: string): int {
    if element == "" || element !in row.stats.colors then 0 else row.stats.colors[element]
  }

  /** They are the items' summed stats and amounts of the song's elements. */
  lemma {:induction false} TotalsAre(song: Song, team: seq<Row>)
    ensures var t := Totals(song, team);
            && t.pp == SumOf(team, (r: Row) => r.stats.pp) && t.cm == SumOf(team, (r: Row) => r.stats.cm)
            && t.fm == SumOf(team, (r: Row) => r.stats.fm)
            && t.ft == SumOf(team, (r: Row) => r.stats.ft) && t.ff == SumOf(team, (r: Row) => r.stats.ff)
            && t.primary == SumOf(team, (r: Row) => Amount(r, song.primary)) && t.secondary == SumOf(team, (r: Row) => Amount(r, song.secondary))
  {
    if team != [] { TotalsAre(song, team[..|team| - 1]); }
  }

  /** Of two groups of items together the totals are added up. */
  lemma {:induction false} TotalsOfBoth(song: Song, a: seq<Row>, b: seq<Row>)
    ensures Totals(song, a + b) == Plus(Totals(song, a), Totals(song, b))
  {
    if b == [] {
      assert a + b == a;
    } else {
      assert (a + b)[..|a + b| - 1] == a + b[..|b| - 1];
      TotalsOfBoth(song, a, b[..|b| - 1]);
    }
  }

  /** A score that more on any axis, at the same timing, never lowers. */
  ghost predicate Monotone(score: Axes -> int) { forall x, y :: AtLeast(x, y) ==> score(x) >= score(y) }

  // ---- Teams of distinct rows.

  ghost predicate Distinct(rows: seq<Row>) { forall i, j :: 0 <= i < j < |rows| ==> rows[i] != rows[j] }

  ghost predicate IsTeam(pool: seq<Row>, team: seq<Row>) { Distinct(team) && forall r :: r in team ==> r in pool }

  ghost predicate TeamAtLeast(song: Song, x: seq<Row>, y: seq<Row>) {
    |x| == |y| && forall i :: 0 <= i < |x| ==> AtLeast(Of(song, x[i]), Of(song, y[i]))
  }

  /** Every team of up to three distinct rows has one in the smaller pool that matches it row for row. */
  ghost predicate Suffices(song: Song, pool: seq<Row>, smaller: seq<Row>) {
    forall team :: IsTeam(pool, team) && |team| <= 3 ==> HasMatch(song, smaller, team)
  }

  ghost predicate HasMatch(song: Song, pool: seq<Row>, team: seq<Row>) {
    exists match_ :: IsTeam(pool, match_) && TeamAtLeast(song, match_, team)
  }

  lemma SufficesItself(song: Song, pool: seq<Row>)
    ensures Suffices(song, pool, pool)
  {
    hide Of;
    forall team | IsTeam(pool, team) && |team| <= 3 ensures HasMatch(song, pool, team) {
      assert TeamAtLeast(song, team, team);
    }
  }

  lemma SufficesTransitive(song: Song, a: seq<Row>, b: seq<Row>, c: seq<Row>)
    requires Suffices(song, a, b) && Suffices(song, b, c)
    ensures Suffices(song, a, c)
  {
    hide Of, IsTeam;
    forall team | IsTeam(a, team) && |team| <= 3 ensures HasMatch(song, c, team) {
      assert HasMatch(song, b, team);
      var x :| IsTeam(b, x) && TeamAtLeast(song, x, team);
      assert HasMatch(song, c, x);
      var y :| IsTeam(c, y) && TeamAtLeast(song, y, x);
      assert TeamAtLeast(song, y, team);
    }
  }

  /** Three rows of a pool that each stand in for another. */
  ghost predicate HasStandIns(song: Song, pool: seq<Row>, r: Row) {
    exists i, j, k :: 0 <= i < j < k < |pool| && StandIn(song, pool[i], r) && StandIn(song, pool[j], r) && StandIn(song, pool[k], r)
  }

  predicate StandIn(song: Song, x: Row, r: Row) { x != r && AtLeast(Of(song, x), Of(song, r)) }

  function Without(team: seq<Row>, i: nat): (rest: seq<Row>)
    requires i < |team|
    ensures |rest| == |team| - 1
  {
    team[..i] + team[i + 1..]
  }

  function With(team: seq<Row>, i: nat, r: Row): (more: seq<Row>)
    requires i <= |team|
    ensures |more| == |team| + 1
  {
    team[..i] + [r] + team[i..]
  }

  /** A team with one more row put in at the same place. */
  lemma WithMatches(song: Song, pool: seq<Row>, team: seq<Row>, i: nat, u: seq<Row>, r: Row)
    requires i < |team| && IsTeam(pool, u) && TeamAtLeast(song, u, Without(team, i)) && r in pool && r !in u
    requires AtLeast(Of(song, r), Of(song, team[i]))
    ensures HasMatch(song, pool, team)
  {
    hide IsTeam, TeamAtLeast, Of, AtLeast;
    assert |u| == |team| - 1 by { SameLength(song, u, Without(team, i)); }
    WithIsTeam(pool, u, i, r);
    WithAtLeast(song, team, i, u, r);
  }

  lemma SameLength(song: Song, u: seq<Row>, team: seq<Row>)
    requires TeamAtLeast(song, u, team)
    ensures |u| == |team|
  {
  }

  lemma WithIsTeam(pool: seq<Row>, u: seq<Row>, i: nat, r: Row)
    requires i <= |u| && IsTeam(pool, u) && r in pool && r !in u
    ensures IsTeam(pool, With(u, i, r))
  {
    var more := With(u, i, r);
    forall k | 0 <= k < |more| ensures more[k] == if k < i then u[k] else if k == i then r else u[k - 1] { }
    forall k | 0 <= k < |u| ensures u[k] in u { }
    forall k, l | 0 <= k < l < |more| ensures more[k] != more[l] { }
  }

  lemma WithAtLeast(song: Song, team: seq<Row>, i: nat, u: seq<Row>, r: Row)
    requires i < |team| && TeamAtLeast(song, u, Without(team, i)) && AtLeast(Of(song, r), Of(song, team[i]))
    ensures |u| == |team| - 1 && TeamAtLeast(song, With(u, i, r), team)
  {
    hide Of, AtLeast;
    var more, rest := With(u, i, r), Without(team, i);
    forall k | 0 <= k < |more| ensures AtLeast(Of(song, more[k]), Of(song, team[k])) {
      if k < i { assert more[k] == u[k] && rest[k] == team[k]; }
      if k > i { assert more[k] == u[k - 1] && rest[k - 1] == team[k]; }
    }
  }

  lemma WithoutIsTeam(pool: seq<Row>, team: seq<Row>, i: nat, smaller: seq<Row>)
    requires IsTeam(pool, team) && i < |team| && forall r :: r in pool && r != team[i] ==> r in smaller
    ensures IsTeam(smaller, Without(team, i))
  {
    var rest := Without(team, i);
    forall k | 0 <= k < |rest| ensures rest[k] == team[if k < i then k else k + 1] { }
    assert forall k :: 0 <= k < |team| ==> team[k] in team;
  }

  /** Of three rows, one is not on a team of two. */
  lemma SpareStandIn(song: Song, pool: seq<Row>, r: Row, u: seq<Row>) returns (x: Row)
    requires Distinct(pool) && HasStandIns(song, pool, r) && |u| <= 2
    ensures x in pool && x !in u && AtLeast(Of(song, x), Of(song, r))
  {
    hide Of;
    var i, j, k :| 0 <= i < j < k < |pool| && StandIn(song, pool[i], r) && StandIn(song, pool[j], r) && StandIn(song, pool[k], r);
    assert pool[i] != pool[j] && pool[j] != pool[k] && pool[i] != pool[k];
    x := if pool[i] !in u then pool[i] else if pool[j] !in u then pool[j] else pool[k];
    if pool[i] in u && pool[j] in u && pool[k] in u {
      var a :| 0 <= a < |u| && u[a] == pool[i];
      var b :| 0 <= b < |u| && u[b] == pool[j];
      var c :| 0 <= c < |u| && u[c] == pool[k];
      assert false;
    }
  }

  lemma NotInTeam(pool: seq<Row>, team: seq<Row>, r: Row, smaller: seq<Row>)
    requires IsTeam(pool, team) && r !in team && forall x :: x in pool && x != r ==> x in smaller
    ensures IsTeam(smaller, team)
  {
  }

  /** Leaving out a row with three stand-ins loses no team. */
  lemma DropKeeps(song: Song, pool: seq<Row>, smaller: seq<Row>, r: Row)
    requires Distinct(smaller) && HasStandIns(song, smaller, r) && forall x :: x in pool && x != r ==> x in smaller
    ensures Suffices(song, pool, smaller)
  {
    hide Of, HasStandIns, IsTeam, Without, HasMatch;
    forall team | IsTeam(pool, team) && |team| <= 3 ensures HasMatch(song, smaller, team) {
      if r in team {
        var i :| 0 <= i < |team| && team[i] == r;
        WithoutIsTeam(pool, team, i, smaller);
        var x := SpareStandIn(song, smaller, r, Without(team, i));
        assert TeamAtLeast(song, Without(team, i), Without(team, i));
        WithMatches(song, smaller, team, i, Without(team, i), x);
      } else {
        NotInTeam(pool, team, r, smaller);
        SufficesItself(song, smaller);
      }
    }
  }

  /** A new row keeps its place on every team. */
  lemma AddKeeps(song: Song, pool: seq<Row>, smaller: seq<Row>, r: Row)
    requires Suffices(song, pool, smaller) && r !in smaller
    ensures Suffices(song, pool + [r], smaller + [r])
  {
    hide Of, IsTeam, Without, HasMatch, Suffices;
    forall team | IsTeam(pool + [r], team) && |team| <= 3 ensures HasMatch(song, smaller + [r], team) {
      if r in team {
        var i :| 0 <= i < |team| && team[i] == r;
        WithoutIsTeam(pool + [r], team, i, pool) by { Others(pool, r); }
        var u := Matched(song, pool, smaller, Without(team, i));
        WiderTeam(smaller, u, r);
        WithMatches(song, smaller + [r], team, i, u, r);
      } else {
        NotInTeam(pool + [r], team, r, pool) by { Others(pool, r); }
        var u := Matched(song, pool, smaller, team);
        WiderTeam(smaller, u, r);
        MatchedBy(song, smaller + [r], team, u);
      }
    }
    AllMatch(song, pool + [r], smaller + [r]);
  }

  lemma Others(pool: seq<Row>, r: Row)
    ensures forall x :: x in pool + [r] && x != r ==> x in pool
  {
  }

  lemma Matched(song: Song, pool: seq<Row>, smaller: seq<Row>, team: seq<Row>) returns (u: seq<Row>)
    requires Suffices(song, pool, smaller) && IsTeam(pool, team) && |team| <= 3
    ensures IsTeam(smaller, u) && TeamAtLeast(song, u, team)
  {
    hide IsTeam, TeamAtLeast;
    assert HasMatch(song, smaller, team);
    u :| IsTeam(smaller, u) && TeamAtLeast(song, u, team);
  }

  lemma MatchedBy(song: Song, pool: seq<Row>, team: seq<Row>, u: seq<Row>)
    requires IsTeam(pool, u) && TeamAtLeast(song, u, team)
    ensures HasMatch(song, pool, team)
  {
    hide IsTeam, TeamAtLeast;
  }

  lemma AllMatch(song: Song, pool: seq<Row>, smaller: seq<Row>)
    requires forall team :: IsTeam(pool, team) && |team| <= 3 ==> HasMatch(song, smaller, team)
    ensures Suffices(song, pool, smaller)
  {
    hide IsTeam, HasMatch;
  }

  lemma WiderTeam(pool: seq<Row>, u: seq<Row>, r: Row)
    requires IsTeam(pool, u)
    ensures IsTeam(pool + [r], u) && (r !in pool ==> r !in u)
  {
  }

  // ---- The mini pool.

  /** How many of the first n rows project to the same axes. */
  function Alike(song: Song, rows: seq<Row>, axes: Axes): nat {
    if rows == [] then 0
    else Alike(song, rows[..|rows| - 1], axes) + (if Of(song, rows[|rows| - 1]) == axes then 1 else 0)
  }

  lemma {:induction false} ThreeAlike(song: Song, rows: seq<Row>, axes: Axes, count: nat) returns (found: seq<nat>)
    requires Alike(song, rows, axes) >= count
    ensures |found| == count && forall i :: 0 <= i < count ==> found[i] < |rows| && Of(song, rows[found[i]]) == axes
    ensures forall i, j :: 0 <= i < j < count ==> found[i] < found[j]
  {
    hide Of;
    if count == 0 {
      found := [];
    } else {
      var last := |rows| - 1;
      if Of(song, rows[last]) == axes {
        found := ThreeAlike(song, rows[..last], axes, count - 1);
        found := found + [last];
      } else {
        found := ThreeAlike(song, rows[..last], axes, count);
      }
    }
  }

  lemma AlikeStandIns(song: Song, pool: seq<Row>, r: Row)
    requires Alike(song, pool, Of(song, r)) >= 3 && r !in pool
    ensures HasStandIns(song, pool, r)
  {
    hide Of;
    var f := ThreeAlike(song, pool, Of(song, r), 3);
    assert pool[f[0]] in pool && pool[f[1]] in pool && pool[f[2]] in pool;
    SameAxes(song, pool[f[0]], r);
    SameAxes(song, pool[f[1]], r);
    SameAxes(song, pool[f[2]], r);
  }

  lemma SameAxes(song: Song, x: Row, r: Row)
    requires Of(song, x) == Of(song, r) && x != r
    ensures StandIn(song, x, r)
  {
  }

  /** How many other rows of a pool dominate row i. */
  function Dominators(song: Song, pool: seq<Row>, i: nat, n: nat): nat
    requires i < |pool| && n <= |pool|
  {
    if n == 0 then 0
    else Dominators(song, pool, i, n - 1) + (if n - 1 != i && Dominates(Of(song, pool[n - 1]), Of(song, pool[i])) then 1 else 0)
  }

  lemma {:induction false} ThreeDominators(song: Song, pool: seq<Row>, i: nat, n: nat, count: nat) returns (found: seq<nat>)
    requires i < |pool| && n <= |pool| && Dominators(song, pool, i, n) >= count
    ensures |found| == count && forall k :: 0 <= k < count ==> found[k] < n && found[k] != i && Dominates(Of(song, pool[found[k]]), Of(song, pool[i]))
    ensures forall k, l :: 0 <= k < l < count ==> found[k] < found[l]
  {
    hide Of, Dominates;
    if count == 0 {
      found := [];
    } else if n - 1 != i && Dominates(Of(song, pool[n - 1]), Of(song, pool[i])) {
      found := ThreeDominators(song, pool, i, n - 1, count - 1);
      found := found + [n - 1];
    } else {
      found := ThreeDominators(song, pool, i, n - 1, count);
    }
  }

  /** At least three other rows dominate row i. */
  predicate Supported(song: Song, pool: seq<Row>, i: nat)
    requires i < |pool|
  {
    Dominators(song, pool, i, |pool|) >= 3
  }

  lemma SupportedStandIns(song: Song, pool: seq<Row>, i: nat)
    requires i < |pool| && Distinct(pool) && Supported(song, pool, i)
    ensures HasStandIns(song, Without(pool, i), pool[i])
  {
    hide Of;
    var f := ThreeDominators(song, pool, i, |pool|, 3);
    var rest := Without(pool, i);
    var a, b, c := Shifted(f[0], i), Shifted(f[1], i), Shifted(f[2], i);
    assert rest[a] == pool[f[0]] && rest[b] == pool[f[1]] && rest[c] == pool[f[2]];
    assert StandIn(song, rest[a], pool[i]) && StandIn(song, rest[b], pool[i]) && StandIn(song, rest[c], pool[i]);
  }

  function Shifted(k: nat, i: nat): nat
    requires k != i
  {
    if k < i then k else k - 1
  }

  /** The first three rows of each kind of axes, in order. */
  function Capped(song: Song, minis: seq<Row>): seq<Row> {
    if minis == [] then []
    else
      var before, last := Capped(song, minis[..|minis| - 1]), minis[|minis| - 1];
      if Alike(song, before, Of(song, last)) >= 3 then before else before + [last]
  }

  function AtMostThree(n: nat): nat { if n < 3 then n else 3 }

  /** Of each kind of axes as many rows are left as there were, up to three. */
  lemma {:induction false} CappedAlike(song: Song, minis: seq<Row>, axes: Axes)
    ensures Alike(song, Capped(song, minis), axes) == AtMostThree(Alike(song, minis, axes))
  {
    hide Of;
    if minis != [] {
      var front, last := minis[..|minis| - 1], minis[|minis| - 1];
      CappedAlike(song, front, axes);
      CappedAlike(song, front, Of(song, last));
      AlikeMore(song, Capped(song, front), last);
    }
  }

  /** At most three rows of equal axes, in order. */
  method CapAlike(song: Song, minis: seq<Row>) returns (capped: seq<Row>)
    requires Distinct(minis)
    ensures capped == Capped(song, minis) && forall axes :: Alike(song, capped, axes) == AtMostThree(Alike(song, minis, axes))
    ensures Distinct(capped) && (forall r :: r in capped ==> r in minis) && Suffices(song, minis, capped)
  {
    hide Of, Suffices, HasStandIns;
    capped := [];
    var multiplicities: map<Axes, nat> := map[];
    SufficesItself(song, []);
    for i := 0 to |minis|
      invariant Distinct(capped) && forall r :: r in capped ==> r in minis[..i]
      invariant Suffices(song, minis[..i], capped) && capped == Capped(song, minis[..i])
      invariant forall axes :: (if axes in multiplicities then multiplicities[axes] else 0) == Alike(song, capped, axes)
    {
      var row := minis[i];
      assert minis[..i + 1] == minis[..i] + [row] && minis[..i + 1][..i] == minis[..i];
      assert row !in minis[..i];
      var axes := Of(song, row);
      var seen := if axes in multiplicities then multiplicities[axes] else 0;
      if seen >= 3 {
        AlikeStandIns(song, capped, row);
        DropNew(song, minis[..i], capped, row);
      } else {
        multiplicities := multiplicities[axes := seen + 1];
        AlikeMore(song, capped, row);
        AddKeeps(song, minis[..i], capped, row);
        capped := capped + [row];
      }
    }
    assert minis[..|minis|] == minis;
    forall axes { CappedAlike(song, minis, axes); }
  }

  lemma AlikeMore(song: Song, rows: seq<Row>, r: Row)
    ensures forall axes :: Alike(song, rows + [r], axes) == Alike(song, rows, axes) + (if Of(song, r) == axes then 1 else 0)
  {
    hide Of;
    assert (rows + [r])[..|rows|] == rows;
  }

  lemma {:induction false} AlikeWithout(song: Song, rows: seq<Row>, i: nat, axes: Axes)
    requires i < |rows|
    ensures Alike(song, Without(rows, i), axes) <= Alike(song, rows, axes)
  {
    hide Of;
    var front, last := rows[..|rows| - 1], rows[|rows| - 1];
    if i == |rows| - 1 {
      assert Without(rows, i) == front;
    } else {
      AlikeWithout(song, front, i, axes);
      AlikeMore(song, Without(front, i), last);
      assert Without(rows, i) == Without(front, i) + [last];
    }
  }

  ghost predicate FewAlike(song: Song, rows: seq<Row>) { forall axes :: Alike(song, rows, axes) <= 3 }

  lemma StillFew(song: Song, rows: seq<Row>, i: nat)
    requires i < |rows| && FewAlike(song, rows)
    ensures FewAlike(song, Without(rows, i))
  {
    forall axes ensures Alike(song, Without(rows, i), axes) <= 3 { AlikeWithout(song, rows, i, axes); }
  }

  lemma CappedFew(song: Song, minis: seq<Row>, capped: seq<Row>)
    requires capped == Capped(song, minis)
    ensures FewAlike(song, capped)
  {
    forall axes ensures Alike(song, capped, axes) <= 3 { CappedAlike(song, minis, axes); }
  }

  lemma LoneFew(song: Song, rows: seq<Row>)
    requires |rows| <= 1
    ensures FewAlike(song, rows)
  {
    if rows != [] { assert rows[..0] == []; }
  }

  lemma DropNew(song: Song, pool: seq<Row>, smaller: seq<Row>, r: Row)
    requires Suffices(song, pool, smaller) && Distinct(smaller) && HasStandIns(song, smaller, r) && r !in smaller
    ensures Suffices(song, pool + [r], smaller)
  {
    hide Of, Suffices, HasStandIns;
    AddKeeps(song, pool, smaller, r);
    DropKeeps(song, smaller + [r], smaller, r);
    SufficesTransitive(song, pool + [r], smaller + [r], smaller);
  }

  /** Whether three other rows of the current pool dominate row i. */
  method IsSupported(song: Song, pool: seq<Row>, i: nat) returns (supported: bool)
    requires i < |pool|
    ensures supported == Supported(song, pool, i)
  {
    hide Of, Dominates;
    var dominators := 0;
    for k := 0 to |pool|
      invariant dominators == Dominators(song, pool, i, k) < 3
    {
      if k != i && Dominates(Of(song, pool[k]), Of(song, pool[i])) {
        dominators := dominators + 1;
        if dominators >= 3 {
          DominatorsGrow(song, pool, i, k + 1, |pool|);
          return true;
        }
      }
    }
    supported := false;
  }

  lemma {:induction false} DominatorsGrow(song: Song, pool: seq<Row>, i: nat, n: nat, m: nat)
    requires i < |pool| && n <= m <= |pool|
    ensures Dominators(song, pool, i, n) <= Dominators(song, pool, i, m)
    decreases m
  {
    if n < m { DominatorsGrow(song, pool, i, n, m - 1); }
  }

  /** The survivors still hold a match for every team of up to three minis, and while more than three are left none has
      three dominators. */
  method PruneMinis(song: Song, minis: seq<Row>) returns (survivors: seq<Row>)
    requires Distinct(minis)
    ensures Distinct(survivors) && (forall r :: r in survivors ==> r in minis)
    ensures Suffices(song, minis, survivors)
    ensures |minis| > 1 ==> |survivors| <= 3 || forall i :: 0 <= i < |survivors| ==> !Supported(song, survivors, i)
    ensures FewAlike(song, survivors)
  {
    hide Of, Suffices, Supported, Distinct, FewAlike;
    if |minis| <= 1 {
      SufficesItself(song, minis);
      LoneFew(song, minis);
      return minis;
    }
    survivors := CapAlike(song, minis);
    assert FewAlike(song, survivors) by { CappedFew(song, minis, survivors); }
    while |survivors| > 3
      invariant Distinct(survivors) && (forall r :: r in survivors ==> r in minis) && Suffices(song, minis, survivors)
      invariant FewAlike(song, survivors)
      decreases |survivors|
    {
      var removed := false;
      for i := 0 to |survivors|
        invariant forall k :: 0 <= k < i ==> !Supported(song, survivors, k)
        invariant !removed
      {
        var supported := IsSupported(song, survivors, i);
        if supported {
          Removal(song, minis, survivors, i);
          StillFew(song, survivors, i);
          survivors := Without(survivors, i);
          removed := true;
          break;
        }
      }
      if !removed { return; }
    }
  }

  lemma Removal(song: Song, minis: seq<Row>, pool: seq<Row>, i: nat)
    requires Suffices(song, minis, pool) && Distinct(pool) && i < |pool| && Supported(song, pool, i)
    ensures Suffices(song, minis, Without(pool, i)) && Distinct(Without(pool, i)) && forall r :: r in Without(pool, i) ==> r in pool
  {
    hide Of, Suffices, Supported, HasStandIns;
    var rest := Without(pool, i);
    SupportedStandIns(song, pool, i);
    forall k | 0 <= k < |rest| ensures rest[k] == pool[if k < i then k else k + 1] { }
    forall x | x in pool && x != pool[i] ensures x in rest {
      var k :| 0 <= k < |pool| && pool[k] == x;
      assert rest[Shifted(k, i)] == x;
    }
    DropKeeps(song, pool, rest, pool[i]);
    SufficesTransitive(song, minis, pool, rest);
  }

  /** A matching team's totals are no worse, so no score monotone in the axes falls. */
  lemma {:induction false} MatchTotals(song: Song, x: seq<Row>, y: seq<Row>)
    requires TeamAtLeast(song, x, y)
    ensures AtLeast(Totals(song, x), Totals(song, y))
  {
    hide Of;
    if x != [] {
      MatchTotals(song, x[..|x| - 1], y[..|y| - 1]);
    }
  }

  /** For every team of three distinct minis the pool keeps one with equal timing and no less elsewhere: the best score of
      any monotone kind survives. */
  lemma MinisSurvive(song: Song, minis: seq<Row>, survivors: seq<Row>, team: seq<Row>, score: Axes -> int) returns (kept: seq<Row>)
    requires Suffices(song, minis, survivors) && IsTeam(minis, team) && |team| == 3 && Monotone(score)
    ensures IsTeam(survivors, kept) && |kept| == 3
    ensures AtLeast(Totals(song, kept), Totals(song, team)) && score(Totals(song, kept)) >= score(Totals(song, team))
  {
    hide Of, Suffices;
    kept := Matched(song, minis, survivors, team);
    MatchTotals(song, kept, team);
  }

  // ---- The gear pool of a slot.

  predicate Seen(song: Song, rows: seq<Row>, axes: Axes) { exists i :: 0 <= i < |rows| && Of(song, rows[i]) == axes }

  /** The first row of each kind of axes. */
  function FirstWitnesses(song: Song, rows: seq<Row>): seq<Row> {
    if rows == [] then []
    else
      var before, last := FirstWitnesses(song, rows[..|rows| - 1]), rows[|rows| - 1];
      if Seen(song, before, Of(song, last)) then before else before + [last]
  }

  lemma {:induction false} WitnessesAre(song: Song, rows: seq<Row>)
    ensures forall x :: x in FirstWitnesses(song, rows) ==> x in rows
    ensures forall x :: x in rows ==> Seen(song, FirstWitnesses(song, rows), Of(song, x))
  {
    hide Of, Seen;
    if rows != [] {
      var front, last := rows[..|rows| - 1], rows[|rows| - 1];
      WitnessesAre(song, front);
      assert rows == front + [last];
      forall axes { SeenMore(song, FirstWitnesses(song, front), last, axes); }
    }
  }

  lemma SeenMore(song: Song, rows: seq<Row>, r: Row, axes: Axes)
    ensures Seen(song, rows + [r], axes) <==> Seen(song, rows, axes) || Of(song, r) == axes
  {
    hide Of;
    var more := rows + [r];
    assert more[|rows|] == r;
    if Seen(song, rows, axes) {
      var i :| 0 <= i < |rows| && Of(song, rows[i]) == axes;
      assert more[i] == rows[i];
    }
  }

  ghost predicate IsDominated(song: Song, rows: seq<Row>, r: Row) {
    exists i :: 0 <= i < |rows| && Dominates(Of(song, rows[i]), Of(song, r))
  }

  ghost function Undominated(song: Song, rows: seq<Row>, n: nat): (r: seq<Row>)
    requires n <= |rows|
    ensures forall x :: x in r <==> x in rows[..n] && !IsDominated(song, rows, x)
  {
    if n == 0 then []
    else
      assert rows[..n] == rows[..n - 1] + [rows[n - 1]];
      Undominated(song, rows, n - 1) + (if IsDominated(song, rows, rows[n - 1]) then [] else [rows[n - 1]])
  }

  /** The first witnesses no row of the slot dominates, in order; a lone row stays. */
  ghost predicate IsPruned(song: Song, gear: seq<Row>, pruned: seq<Row>) {
    if |gear| <= 1 then pruned == gear else var unique := FirstWitnesses(song, gear); pruned == Undominated(song, unique, |unique|)
  }

  method PruneGear(song: Song, gear: seq<Row>) returns (pruned: seq<Row>)
    ensures IsPruned(song, gear, pruned)
  {
    hide IsDominated, FirstWitnesses;
    if |gear| <= 1 { return gear; }
    var unique := UniqueRows(song, gear);
    pruned := [];
    for i := 0 to |unique|
      invariant pruned == Undominated(song, unique, i)
    {
      var dominated := SomeDominates(song, unique, i);
      if !dominated { pruned := pruned + [unique[i]]; }
    }
  }

  method SomeDominates(song: Song, rows: seq<Row>, i: nat) returns (dominated: bool)
    requires i < |rows|
    ensures dominated <==> IsDominated(song, rows, rows[i])
  {
    hide Of;
    for k := 0 to |rows|
      invariant forall l :: 0 <= l < k ==> !Dominates(Of(song, rows[l]), Of(song, rows[i]))
    {
      if k != i && Dominates(Of(song, rows[k]), Of(song, rows[i])) { return true; }
    }
    dominated := false;
  }

  method UniqueRows(song: Song, gear: seq<Row>) returns (unique: seq<Row>)
    ensures unique == FirstWitnesses(song, gear)
  {
    hide Of, Seen;
    unique := [];
    var seen: set<Axes> := {};
    NoneSeen(song);
    for i := 0 to |gear|
      invariant unique == FirstWitnesses(song, gear[..i])
      invariant forall axes :: axes in seen <==> Seen(song, unique, axes)
    {
      assert gear[..i + 1][..i] == gear[..i] && gear[..i + 1][i] == gear[i];
      var axes := Of(song, gear[i]);
      if axes !in seen {
        forall a { SeenMore(song, unique, gear[i], a); }
        seen := seen + {axes};
        unique := unique + [gear[i]];
      }
    }
    assert gear[..|gear|] == gear;
  }

  lemma NoneSeen(song: Song)
    ensures forall axes :: !Seen(song, [], axes)
  {
  }

  function LargestSum(song: Song, rows: seq<Row>): (m: int)
    ensures forall i :: 0 <= i < |rows| ==> Sum(Of(song, rows[i])) <= m
  {
    if rows == [] then 0
    else
      var before, last := LargestSum(song, rows[..|rows| - 1]), Sum(Of(song, rows[|rows| - 1]));
      if before >= last then before else last
  }

  /** Every row has an undominated one no worse: dominators have larger sums. */
  lemma {:induction false} UndominatedAbove(song: Song, rows: seq<Row>, r: Row) returns (x: Row)
    requires r in rows
    ensures x in Undominated(song, rows, |rows|) && AtLeast(Of(song, x), Of(song, r))
    decreases LargestSum(song, rows) - Sum(Of(song, r))
  {
    hide Of, LargestSum;
    assert rows[..|rows|] == rows;
    if IsDominated(song, rows, r) {
      var i :| 0 <= i < |rows| && Dominates(Of(song, rows[i]), Of(song, r));
      x := UndominatedAbove(song, rows, rows[i]);
    } else {
      x := r;
    }
  }

  /** For every gear of the slot a kept one has equal timing and no less elsewhere. */
  lemma GearSurvives(song: Song, gear: seq<Row>, pruned: seq<Row>, r: Row, score: Axes -> int) returns (kept: Row)
    requires r in gear && Monotone(score)
    requires IsPruned(song, gear, pruned)
    ensures kept in pruned && kept in gear && AtLeast(Of(song, kept), Of(song, r)) && score(Of(song, kept)) >= score(Of(song, r))
  {
    hide Of, Undominated, FirstWitnesses;
    if |gear| <= 1 {
      kept := r;
    } else {
      var unique := FirstWitnesses(song, gear);
      WitnessesAre(song, gear);
      assert Seen(song, unique, Of(song, r));
      var i :| 0 <= i < |unique| && Of(song, unique[i]) == Of(song, r);
      kept := UndominatedAbove(song, unique, unique[i]);
      assert unique[..|unique|] == unique;
    }
  }

  // ---- Whole loadouts.

  /** One gear of each slot's pool. */
  ghost predicate IsGear(pools: seq<seq<Row>>, gear: seq<Row>) {
    |gear| == |pools| && forall slot :: 0 <= slot < |pools| ==> gear[slot] in pools[slot]
  }

  ghost predicate AllPruned(song: Song, pools: seq<seq<Row>>, pruned: seq<seq<Row>>) {
    |pruned| == |pools| && forall slot :: 0 <= slot < |pools| ==> IsPruned(song, pools[slot], pruned[slot])
  }

  /** A kept gear in place of each slot's. */
  lemma {:induction false} Regeared(song: Song, pools: seq<seq<Row>>, pruned: seq<seq<Row>>, gear: seq<Row>) returns (kept: seq<Row>)
    requires IsGear(pools, gear) && AllPruned(song, pools, pruned)
    ensures IsGear(pruned, kept) && TeamAtLeast(song, kept, gear)
  {
    hide Of, IsPruned, AtLeast;
    kept := [];
    if pools != [] {
      var last := |pools| - 1;
      var before := Regeared(song, pools[..last], pruned[..last], gear[..last]);
      var best := GearSurvives(song, pools[last], pruned[last], gear[last], _ => 0);
      kept := before + [best];
      forall slot | 0 <= slot <= last ensures kept[slot] in pruned[slot] && AtLeast(Of(song, kept[slot]), Of(song, gear[slot])) {
        if slot < last { assert pruned[..last][slot] == pruned[slot] && kept[slot] == before[slot] && gear[..last][slot] == gear[slot]; }
      }
    }
  }

  /** Whatever loadout the whole catalog allows, a gear of each slot and three distinct minis, the pruned pools allow one of
      equal fever timing that scores as much under every score its stats never lower. */
  lemma LoadoutSurvives(song: Song, pools: seq<seq<Row>>, pruned: seq<seq<Row>>, minis: seq<Row>, survivors: seq<Row>,
                        gear: seq<Row>, team: seq<Row>, score: Axes -> int)
    returns (keptGear: seq<Row>, keptTeam: seq<Row>)
    requires AllPruned(song, pools, pruned) && Suffices(song, minis, survivors)
    requires IsGear(pools, gear) && IsTeam(minis, team) && |team| == 3 && Monotone(score)
    ensures IsGear(pruned, keptGear) && IsTeam(survivors, keptTeam) && |keptTeam| == 3
    ensures AtLeast(Plus(Totals(song, keptGear), Totals(song, keptTeam)), Plus(Totals(song, gear), Totals(song, team)))
    ensures score(Plus(Totals(song, keptGear), Totals(song, keptTeam))) >= score(Plus(Totals(song, gear), Totals(song, team)))
  {
    hide Of, Suffices, IsTeam, IsGear, AllPruned, Totals;
    keptGear := Regeared(song, pools, pruned, gear);
    MatchTotals(song, keptGear, gear);
    keptTeam := MinisSurvive(song, minis, survivors, team, score);
  }
}
