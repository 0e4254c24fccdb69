/** The FT/FF shortlist (gear_optimizer/solver/ftff_combos.py): per reachable pre-gem (FT, FF) key, the gem combos that
    can hold the key's Base winner, by a sweep over bit columns instead of comparing options pairwise. */
module Shortlist {
  import opened Arithmetic
  import opened Words

  const MAX_STAT: nat := 160
  const GEM_BUDGET: nat := 90
  const GAIN: nat := 3          // STAT_GEM_GAIN_FEVER
  const SIDE: nat := 161        // MAX_STAT + 1
  const COMBOS: nat := 4186     // splits of the budget: (GEM_BUDGET + 1) x (GEM_BUDGET + 2) / 2

  /** A timing surface: its head fever words and its body fever count. */
  datatype Surface = Surface(masks: seq<nat>, body: nat)

  /** What an FT, an FF and an element gem add to the Perfect base. */
  datatype Gains = Gains(ft: int, ff: int, element: int)

  /** A song's timing frontiers by (FT, FF) cell, its distinct surfaces, the reachable keys and the gains. */
  datatype Input = Input(offsets: seq<nat>, counts: seq<nat>, surfaceOfRow: seq<nat>, surfaces: seq<Surface>,
                         reach: seq<bool>, gains: Gains)

  function Wx(q: Input): int { q.gains.ft - q.gains.element }

  function Wy(q: Input): int { q.gains.ff - q.gains.element }

  function Cell(x: nat, y: nat): nat { x * SIDE + y }

  ghost predicate ValidInput(q: Input) {
    && |q.offsets| == SIDE * SIDE && |q.counts| == SIDE * SIDE && |q.reach| == SIDE * SIDE
    && Wx(q) < 0 && Wy(q) < 0
    && (forall c :: 0 <= c < SIDE * SIDE ==> q.offsets[c] + q.counts[c] <= |q.surfaceOfRow|)
    && (forall r :: 0 <= r < |q.surfaceOfRow| ==> q.surfaceOfRow[r] < |q.surfaces|)
    && (forall s :: 0 <= s < |q.surfaces| ==> |q.surfaces[s].masks| == 4 && forall w :: 0 <= w < 4 ==> IsWord(q.surfaces[s].masks[w]))
    && (forall s, t :: 0 <= s < t < |q.surfaces| ==> q.surfaces[s] != q.surfaces[t])
  }

  // ---- The pairwise definition.

  /** Surface s is an option of cell (x, y). */
  ghost predicate HasOption(q: Input, s: nat, x: nat, y: nat)
    requires ValidInput(q)
  {
    x <= MAX_STAT && y <= MAX_STAT
    && exists r :: q.offsets[Cell(x, y)] <= r < q.offsets[Cell(x, y)] + q.counts[Cell(x, y)] && q.surfaceOfRow[r] == s
  }

  /** Every fever note of t is one of s. */
  ghost predicate Contains(q: Input, s: nat, t: nat)
    requires ValidInput(q) && s < |q.surfaces| && t < |q.surfaces|
  {
    q.surfaces[s].body >= q.surfaces[t].body
    && forall w :: 0 <= w < 4 ==> Within(q.surfaces[t].masks[w], q.surfaces[s].masks[w])
  }

  /** Combo (a, b)'s place in the table of splits: ft ascending, then ff. */
  function ComboIndex(a: nat, b: nat): nat
    requires a + b <= GEM_BUDGET
  {
    a * (GEM_BUDGET + 1) - a * (a - 1) / 2 + b
  }

  function Value(g: Gains, a: nat, b: nat): int {
    g.ft * a + g.ff * b + g.element * (GEM_BUDGET - a - b)
  }

  /** An option at a key: a combo within the budget and a surface of the cell it reaches. */
  ghost predicate IsOption(q: Input, kx: nat, ky: nat, s: nat, a: nat, b: nat)
    requires ValidInput(q)
  {
    a + b <= GEM_BUDGET && s < |q.surfaces| && HasOption(q, s, kx + GAIN * a, ky + GAIN * b)
  }

  /** Option (s', a', b') beats (s, a, b): it contains its fever notes with as many residual gems and as much value;
      of identical options only the highest combo index is not beaten. */
  ghost predicate Beats(q: Input, s': nat, a': nat, b': nat, s: nat, a: nat, b: nat)
    requires ValidInput(q) && s < |q.surfaces| && s' < |q.surfaces| && a + b <= GEM_BUDGET && a' + b' <= GEM_BUDGET
  {
    && Contains(q, s', s) && a' + b' <= a + b && Value(q.gains, a', b') >= Value(q.gains, a, b)
    && (s' == s && a' + b' == a + b && Value(q.gains, a', b') == Value(q.gains, a, b) ==> ComboIndex(a', b') > ComboIndex(a, b))
  }

  ghost predicate Beaten(q: Input, kx: nat, ky: nat, s: nat, a: nat, b: nat)
    requires ValidInput(q) && s < |q.surfaces| && a + b <= GEM_BUDGET
  {
    exists s': nat, a': nat, b': nat :: IsOption(q, kx, ky, s', a', b') && Beats(q, s', a', b', s, a, b)
  }

  /** A key keeps a combo exactly when the key is reachable and one of the combo's options is beaten by none. */
  ghost predicate Kept(q: Input, kx: nat, ky: nat, a: nat, b: nat)
    requires ValidInput(q) && kx <= MAX_STAT && ky <= MAX_STAT
  {
    a + b <= GEM_BUDGET && q.reach[Cell(kx, ky)]
    && exists s: nat :: IsOption(q, kx, ky, s, a, b) && !Beaten(q, kx, ky, s, a, b)
  }

  // ---- The wedge: which option beats which does not depend on the key.

  /** In lattice units, the cells whose options have at least as many residual gems and as much value. */
  predicate InWedge(q: Input, X: int, Y: int, xo: int, yo: int) {
    X + Y <= xo + yo && Wx(q) * X + Wy(q) * Y >= Wx(q) * xo + Wy(q) * yo
  }

  /** The wedge's height above yo in the column d to the right of xo. */
  function Rise(q: Input, d: int): int
    requires Wy(q) < 0
  {
    Min(-d, (Wx(q) * d) / -Wy(q))
  }

  lemma FloorDivides(n: int, k: int, m: int)
    requires m > 0
    ensures k <= n / m <==> k * m <= n
  {
    var f := n / m;
    assert f * m <= n < (f + 1) * m;
    if k <= f { MulMono(k, f, m); } else { MulMono(f + 1, k, m); }
  }

  lemma WedgeIsBelowRise(q: Input, X: int, Y: int, xo: int, yo: int)
    requires Wy(q) < 0
    ensures InWedge(q, X, Y, xo, yo) <==> Y <= yo + Rise(q, X - xo)
  {
    var wx, wy, d := Wx(q), Wy(q), X - xo;
    FloorDivides(wx * d, Y - yo, -wy);
    assert wx * X - wx * xo == wx * d;
    assert wy * Y - wy * yo == -((Y - yo) * -wy);
  }

  /** Left of an option the wedge rises, so its columns there are never empty. */
  lemma RiseLeft(q: Input, d: int)
    requires Wx(q) < 0 && Wy(q) < 0 && d <= 0
    ensures 0 <= Rise(q, d) <= -d
  {
    assert Wx(q) * d >= 0;
    FloorDivides(Wx(q) * d, 0, -Wy(q));
  }

  /** The last column the wedge reaches above zero. */
  function LastColumn(q: Input, xo: nat, yo: nat): int
    requires Wx(q) < 0 && Wy(q) < 0
  {
    xo + Min(yo, (yo * -Wy(q)) / -Wx(q))
  }

  lemma LastColumnIs(q: Input, X: int, xo: nat, yo: nat)
    requires Wx(q) < 0 && Wy(q) < 0 && X >= xo
    ensures X <= LastColumn(q, xo, yo) <==> yo + Rise(q, X - xo) >= 0
  {
    var wx, wy, d := Wx(q), Wy(q), X - xo;
    FloorDivides(yo * -wy, d, -wx);
    FloorDivides(wx * d, 0 - yo, -wy);
    assert d * -wx == -(wx * d);
    assert (0 - yo) * -wy == -(yo * -wy);
  }

  // ---- Values along the lattice.

  lemma ValueIsWeighted(g: Gains, a: nat, b: nat)
    ensures Value(g, a, b) == g.element * GEM_BUDGET + (g.ft - g.element) * a + (g.ff - g.element) * b
  {
  }

  lemma {:induction false} Triangle(a: nat)
    ensures a * (a - 1) / 2 + a == (a + 1) * a / 2
  {
    assert (a + 1) * a == a * (a - 1) + 2 * a;
  }

  lemma {:induction false} ComboIndexOrder(a: nat, b: nat, a': nat, b': nat)
    requires a + b <= GEM_BUDGET && a' + b' <= GEM_BUDGET && a < a'
    ensures ComboIndex(a, b) < ComboIndex(a', b')
    decreases a' - a
  {
    if a' == a + 1 {
      Triangle(a);
      assert a' * (a' - 1) == (a + 1) * a;
      assert a' * (GEM_BUDGET + 1) == a * (GEM_BUDGET + 1) + GEM_BUDGET + 1;
    } else {
      ComboIndexOrder(a, b, a' - 1, 0);
      ComboIndexOrder(a' - 1, 0, a', b');
    }
  }

  lemma ComboIndexBound(a: nat, b: nat)
    requires a + b <= GEM_BUDGET
    ensures ComboIndex(a, b) < COMBOS
  {
    if a < GEM_BUDGET { ComboIndexOrder(a, b, GEM_BUDGET, 0); }
  }

  lemma ComboIndexInjective(a: nat, b: nat, a': nat, b': nat)
    requires a + b <= GEM_BUDGET && a' + b' <= GEM_BUDGET && ComboIndex(a, b) == ComboIndex(a', b')
    ensures a == a' && b == b'
  {
    if a < a' { ComboIndexOrder(a, b, a', b'); }
    if a' < a { ComboIndexOrder(a', b', a, b); }
  }

  /** An option's beaters at a key are its wedge's options at or past the key: for another surface the whole wedge, for
      its own all but the option itself and, with equal weights, the diagonal to its left. */
  predicate OwnTop(q: Input, X: int, xo: int) {
    X == xo || (X < xo && Wx(q) == Wy(q))
  }

  function Top(q: Input, own: bool, X: int, xo: int, yo: int): int
    requires Wy(q) < 0
  {
    yo + Rise(q, X - xo) - (if own && OwnTop(q, X, xo) then 1 else 0)
  }

  lemma BeatsIsBelowTop(q: Input, s': nat, s: nat, kX: nat, kY: nat, X: nat, Y: nat, xo: nat, yo: nat)
    requires ValidInput(q) && s < |q.surfaces| && s' < |q.surfaces| && Contains(q, s', s)
    requires kX <= X && kY <= Y && kX <= xo && kY <= yo && xo - kX + yo - kY <= GEM_BUDGET
    ensures X - kX + Y - kY <= GEM_BUDGET && Beats(q, s', X - kX, Y - kY, s, xo - kX, yo - kY) <==> Y <= Top(q, s' == s, X, xo, yo)
  {
    hide Value, ComboIndex, Rise, Contains, InWedge, OwnTop;
    var a, b, a', b' := xo - kX, yo - kY, X - kX, Y - kY;
    WedgeIsBelowRise(q, X, Y, xo, yo);
    WedgeAtKey(q, a, b, a', b', xo, yo, X, Y);
    if s' == s {
      if InWedge(q, X, Y, xo, yo) { IdenticalBelow(q, X, Y, xo, yo); }
      if a' + b' == a + b {
        if a' < a { ComboIndexOrder(a', b', a, b); }
        if a < a' { ComboIndexOrder(a, b, a', b'); }
      }
    }
  }

  /** Residuals and values at a key are the wedge's. */
  lemma WedgeAtKey(q: Input, a: nat, b: nat, a': nat, b': nat, xo: int, yo: int, X: int, Y: int)
    requires X - xo == a' - a && Y - yo == b' - b
    ensures InWedge(q, X, Y, xo, yo) <==> a' + b' <= a + b && Value(q.gains, a', b') >= Value(q.gains, a, b)
    ensures Value(q.gains, a', b') == Value(q.gains, a, b) <==> Wx(q) * X + Wy(q) * Y == Wx(q) * xo + Wy(q) * yo
  {
    hide Value;
    ValueIsWeighted(q.gains, a, b);
    ValueIsWeighted(q.gains, a', b');
    ValueGap(Wx(q), Wy(q), a, b, a', b');
    ValueGap(Wx(q), Wy(q), xo, yo, X, Y);
  }

  lemma ValueGap(wx: int, wy: int, x: int, y: int, x': int, y': int)
    ensures (wx * x' + wy * y') - (wx * x + wy * y) == wx * (x' - x) + wy * (y' - y)
  {
  }

  /** In the wedge, the same residual and value with no higher combo index: exactly the top cell of the columns left out. */
  lemma IdenticalBelow(q: Input, X: int, Y: int, xo: int, yo: int)
    requires Wx(q) < 0 && Wy(q) < 0 && InWedge(q, X, Y, xo, yo)
    ensures (X + Y == xo + yo && Wx(q) * X + Wy(q) * Y == Wx(q) * xo + Wy(q) * yo && X <= xo)
            <==> OwnTop(q, X, xo) && Y == yo + Rise(q, X - xo)
  {
    var wx, wy, d := Wx(q), Wy(q), X - xo;
    ValueGap(wx, wy, xo, yo, X, Y);
    WedgeIsBelowRise(q, X, Y, xo, yo);
    WedgeIsBelowRise(q, X, Y + 1, xo, yo);
    if wx == wy {
      assert wx * d + wy * (Y - yo) == wx * (d + Y - yo);
      EqualWeights(wx, d);
    } else if X + Y == xo + yo {
      assert wx * d + wy * (Y - yo) == (wx - wy) * d by { assert Y - yo == -d; }
    }
  }

  lemma EqualWeights(w: int, d: int)
    requires w < 0
    ensures (w * d) / -w == -d
  {
    FloorDivides(w * d, -d, -w);
    FloorDivides(w * d, -d + 1, -w);
    assert (-d) * -w == w * d;
    assert (-d + 1) * -w == w * d - w;
  }
}
