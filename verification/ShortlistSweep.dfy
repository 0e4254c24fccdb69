/** The bit-column sweep of the FT/FF shortlist (gear_optimizer/solver/ftff_combos.py, _shortlist_keep): it keeps
    exactly the combos of the pairwise definition. */
module ShortlistSweep {
  import opened Arithmetic
  import opened Words
  import opened Shortlist

  /** An option's cell. Its column word is x * GAIN + y % GAIN, its bit y / GAIN. */
  datatype Opt = Opt(x: nat, y: nat)

  // ---- Blockers: an option's beaters in lattice coordinates.

  /** Options of the surfaces containing s (its own apart) at a cell. */
  ghost predicate Held(q: Input, s: nat, own: bool, x: nat, y: nat)
    requires ValidInput(q) && s < |q.surfaces|
  {
    if own then HasOption(q, s, x, y)
    else exists t: nat :: t < |q.surfaces| && t != s && Contains(q, t, s) && HasOption(q, t, x, y)
  }

  ghost predicate Blocker(q: Input, s: nat, o: Opt, X: nat, Y: nat)
    requires ValidInput(q) && s < |q.surfaces|
  {
    var i, j, xo, yo := o.x % GAIN, o.y % GAIN, o.x / GAIN, o.y / GAIN;
    (Held(q, s, false, i + GAIN * X, j + GAIN * Y) && Y <= Top(q, false, X, xo, yo))
    || (Held(q, s, true, i + GAIN * X, j + GAIN * Y) && Y <= Top(q, true, X, xo, yo))
  }

  ghost predicate BlockedFrom(q: Input, s: nat, o: Opt, X: nat, Y: nat)
    requires ValidInput(q) && s < |q.surfaces|
  {
    exists X': nat, Y': nat :: X <= X' && Y <= Y' && Blocker(q, s, o, X', Y')
  }

  lemma SelfContains(q: Input, s: nat)
    requires ValidInput(q) && s < |q.surfaces|
    ensures Contains(q, s, s)
  {
  }

  /** An option is beaten at a key exactly when it has a blocker at or past the key. */
  lemma BeatenIsBlocked(q: Input, s: nat, o: Opt, kX: nat, kY: nat)
    requires ValidInput(q) && s < |q.surfaces|
    requires kX <= o.x / GAIN && kY <= o.y / GAIN && o.x / GAIN - kX + o.y / GAIN - kY <= GEM_BUDGET
    ensures Beaten(q, o.x % GAIN + GAIN * kX, o.y % GAIN + GAIN * kY, s, o.x / GAIN - kX, o.y / GAIN - kY)
            <==> BlockedFrom(q, s, o, kX, kY)
  {
    hide Contains, HasOption, Value, ComboIndex, Top;
    var i, j, xo, yo := o.x % GAIN, o.y % GAIN, o.x / GAIN, o.y / GAIN;
    var kx, ky, a, b := i + GAIN * kX, j + GAIN * kY, xo - kX, yo - kY;
    SelfContains(q, s);
    if Beaten(q, kx, ky, s, a, b) {
      var s': nat, a': nat, b': nat :| IsOption(q, kx, ky, s', a', b') && Beats(q, s', a', b', s, a, b);
      BeatsIsBelowTop(q, s', s, kX, kY, kX + a', kY + b', xo, yo);
      OptionCell(q, kx, ky, s', a', b', i, j, kX, kY);
      assert Blocker(q, s, o, kX + a', kY + b');
    }
    if BlockedFrom(q, s, o, kX, kY) {
      var X: nat, Y: nat :| kX <= X && kY <= Y && Blocker(q, s, o, X, Y);
      var s': nat := if Held(q, s, true, i + GAIN * X, j + GAIN * Y) && Y <= Top(q, true, X, xo, yo) then s else
        var t: nat :| t < |q.surfaces| && t != s && Contains(q, t, s) && HasOption(q, t, i + GAIN * X, j + GAIN * Y); t;
      BeatsIsBelowTop(q, s', s, kX, kY, X, Y, xo, yo);
      OptionCell(q, kx, ky, s', X - kX, Y - kY, i, j, kX, kY);
      assert IsOption(q, kx, ky, s', X - kX, Y - kY);
    }
  }

  lemma OptionCell(q: Input, kx: nat, ky: nat, s: nat, a: nat, b: nat, i: nat, j: nat, kX: nat, kY: nat)
    requires ValidInput(q) && kx == i + GAIN * kX && ky == j + GAIN * kY
    ensures IsOption(q, kx, ky, s, a, b)
            <==> a + b <= GEM_BUDGET && s < |q.surfaces| && HasOption(q, s, i + GAIN * (kX + a), j + GAIN * (kY + b))
  {
    assert kx + GAIN * a == i + GAIN * (kX + a) && ky + GAIN * b == j + GAIN * (kY + b);
  }

  // ---- Bits in arrays of words.

  method SetBit(a: array<nat>, w: nat, b: nat)
    requires w < a.Length && b < WORD_BITS && forall k :: 0 <= k < a.Length ==> IsWord(a[k])
    modifies a
    ensures forall k :: 0 <= k < a.Length ==> IsWord(a[k])
    ensures forall k, n: nat :: 0 <= k < a.Length ==> (Bit(a[k], n) <==> old(Bit(a[k], n)) || (k == w && n == b))
  {
    hide Bit, Or, Pow2;
    Pow2Below(b);
    OrWord(a[w], Pow2(b), WORD_BITS);
    forall n: nat ensures Bit(Or(a[w], Pow2(b)), n) <==> Bit(a[w], n) || n == b {
      BitOr(a[w], Pow2(b), n);
      BitOne(b, n);
    }
    a[w] := Or(a[w], Pow2(b));
  }

  lemma Pow2Below(b: nat)
    requires b < WORD_BITS
    ensures Pow2(b) < Pow2(WORD_BITS)
  {
    Pow2Mono(b + 1, WORD_BITS);
  }

  // ---- Each surface's options, by diagonal.

  /** The options listed so far: the rows of cells up to a diagonal and column. */
  ghost predicate Before(x: nat, y: nat, diagonal: nat, column: nat) {
    x + y < diagonal || (x + y == diagonal && x < column)
  }

  ghost predicate Lists(q: Input, lists: array<seq<Opt>>, diagonal: nat, column: nat)
    requires ValidInput(q) && lists.Length == |q.surfaces|
    reads lists
  {
    forall s: nat :: s < |q.surfaces| ==> ListOf(q, lists[s], s, diagonal, column)
  }

  ghost predicate ListOf(q: Input, list: seq<Opt>, s: nat, diagonal: nat, column: nat)
    requires ValidInput(q)
  {
    && (forall n :: 0 <= n < |list| ==> HasOption(q, s, list[n].x, list[n].y) && Before(list[n].x, list[n].y, diagonal, column))
    && (forall n, m :: 0 <= n < m < |list| ==> list[n].x + list[n].y <= list[m].x + list[m].y)
    && (forall x: nat, y: nat :: HasOption(q, s, x, y) && Before(x, y, diagonal, column) ==> Opt(x, y) in list)
  }

  method BuildOptions(q: Input) returns (lists: array<seq<Opt>>)
    requires ValidInput(q)
    ensures fresh(lists) && lists.Length == |q.surfaces| && Lists(q, lists, 2 * SIDE - 1, 0)
  {
    hide HasOption, ValidInput;
    lists := new seq<Opt>[|q.surfaces|](_ => []);
    for diagonal := 0 to 2 * SIDE - 1
      invariant Lists(q, lists, diagonal, 0)
    {
      var low, high := Max(0, diagonal - SIDE + 1), Min(SIDE, diagonal + 1);
      assert Lists(q, lists, diagonal, low) by { NothingOutside(q, lists, diagonal, 0, low); }
      for x := low to high
        invariant Lists(q, lists, diagonal, x)
      {
        AddCell(q, lists, diagonal, x);
      }
      assert Lists(q, lists, diagonal + 1, 0) by { NothingOutside(q, lists, diagonal, high, diagonal + 1); }
    }
  }

  ghost predicate OffGrid(diagonal: nat, x: nat) {
    x > diagonal || x > MAX_STAT || diagonal - x > MAX_STAT
  }

  /** The columns a diagonal skips are outside the grid. */
  lemma NothingOutside(q: Input, lists: array<seq<Opt>>, diagonal: nat, from: nat, to: nat)
    requires ValidInput(q) && lists.Length == |q.surfaces| && Lists(q, lists, diagonal, from) && from <= to
    requires forall x: nat :: from <= x < to ==> OffGrid(diagonal, x)
    ensures Lists(q, lists, diagonal, to)
    ensures to == diagonal + 1 ==> Lists(q, lists, diagonal + 1, 0)
  {
    forall s: nat | s < |q.surfaces| ensures ListOf(q, lists[s], s, diagonal, to) && (to == diagonal + 1 ==> ListOf(q, lists[s], s, diagonal + 1, 0)) {
      assert ListOf(q, lists[s], s, diagonal, from);
      forall x: nat, y: nat | HasOption(q, s, x, y) && Before(x, y, diagonal, to) ensures Opt(x, y) in lists[s] {
        assert from <= x < to ==> OffGrid(diagonal, x);
      }
    }
  }

  method AddCell(q: Input, lists: array<seq<Opt>>, diagonal: nat, x: nat)
    requires ValidInput(q) && lists.Length == |q.surfaces| && Lists(q, lists, diagonal, x)
    requires x <= MAX_STAT && x <= diagonal && diagonal - x <= MAX_STAT
    modifies lists
    ensures Lists(q, lists, diagonal, x + 1)
  {
    hide HasOption;
    var y := diagonal - x;
    var cell := Cell(x, y);
    CellInGrid(x, y);
    ghost var was := lists[..];
    for row := q.offsets[cell] to q.offsets[cell] + q.counts[cell]
      invariant forall s :: 0 <= s < |q.surfaces| ==> Grown(was[s], lists[s], Opt(x, y))
      invariant forall s :: 0 <= s < |q.surfaces| ==>
                  (Opt(x, y) in lists[s][|was[s]|..] <==> exists r :: q.offsets[cell] <= r < row && q.surfaceOfRow[r] == s)
    {
      var s := q.surfaceOfRow[row];
      label before:
      lists[s] := lists[s] + [Opt(x, y)];
      assert lists[s][|was[s]|..] == old@before(lists[s])[|was[s]|..] + [Opt(x, y)];
    }
    forall s: nat | s < |q.surfaces| ensures ListOf(q, lists[s], s, diagonal, x + 1) {
      OptionIsRow(q, s, x, y);
      assert ListOf(q, was[s], s, diagonal, x);
      CellAdded(q, was[s], lists[s], s, diagonal, x);
    }
  }

  ghost predicate Grown(was: seq<Opt>, list: seq<Opt>, o: Opt) {
    was <= list && forall n :: |was| <= n < |list| ==> list[n] == o
  }

  lemma CellInGrid(x: nat, y: nat)
    requires x <= MAX_STAT && y <= MAX_STAT
    ensures Cell(x, y) < SIDE * SIDE
  {
  }

  lemma OptionIsRow(q: Input, s: nat, x: nat, y: nat)
    requires ValidInput(q) && x <= MAX_STAT && y <= MAX_STAT
    ensures HasOption(q, s, x, y) <==> exists r ::
              q.offsets[Cell(x, y)] <= r < q.offsets[Cell(x, y)] + q.counts[Cell(x, y)] && q.surfaceOfRow[r] == s
  {
  }

  lemma CellAdded(q: Input, was: seq<Opt>, list: seq<Opt>, s: nat, diagonal: nat, x: nat)
    requires ValidInput(q) && x <= diagonal && ListOf(q, was, s, diagonal, x) && Grown(was, list, Opt(x, diagonal - x))
    requires Opt(x, diagonal - x) in list[|was|..] <==> HasOption(q, s, x, diagonal - x)
    ensures ListOf(q, list, s, diagonal, x + 1)
  {
    hide HasOption;
    var o := Opt(x, diagonal - x);
    if |was| < |list| { assert list[|was|..][0] == o; }
    forall x': nat, y: nat | HasOption(q, s, x', y) && Before(x', y, diagonal, x + 1) ensures Opt(x', y) in list {
      if Before(x', y, diagonal, x) {
        assert Opt(x', y) in was;
      } else {
        assert Opt(x', y) == o && o in list[|was|..];
      }
    }
  }

  // ---- The columns of a surface: one word per lattice column, at most 54 cells high.

  const COLUMNS: nat := SIDE * GAIN

  function Word(x: nat, y: nat): nat { x * GAIN + y % GAIN }

  ghost predicate WordsOf(a: array<nat>)
    reads a
  {
    a.Length == COLUMNS && forall k :: 0 <= k < a.Length ==> IsWord(a[k])
  }

  /** The columns mark exactly these cells. */
  ghost predicate Marks(a: array<nat>, cells: iset<(nat, nat)>)
    requires a.Length == COLUMNS
    reads a
  {
    forall x: nat, y: nat :: x <= MAX_STAT ==> (Bit(a[Word(x, y)], y / GAIN) <==> (x, y) in cells)
  }

  lemma WordBitIsCell(x: nat, y: nat, x': nat, y': nat)
    requires Word(x, y) == Word(x', y') && y / GAIN == y' / GAIN
    ensures x == x' && y == y'
  {
  }

  method MarkCell(a: array<nat>, o: Opt, ghost cells: iset<(nat, nat)>)
    requires WordsOf(a) && Marks(a, cells) && o.x <= MAX_STAT && o.y <= MAX_STAT
    modifies a
    ensures WordsOf(a) && Marks(a, cells + iset{(o.x, o.y)})
  {
    hide Bit, IsWord;
    SetBit(a, Word(o.x, o.y), o.y / GAIN);
    forall x: nat, y: nat | x <= MAX_STAT
      ensures Bit(a[Word(x, y)], y / GAIN) <==> (x, y) in cells + iset{(o.x, o.y)}
    {
      if Word(x, y) == Word(o.x, o.y) && y / GAIN == o.y / GAIN { WordBitIsCell(x, y, o.x, o.y); }
    }
  }

  /** Marks a list's options up to a diagonal. */
  method MarkList(a: array<nat>, list: seq<Opt>, highest: nat, ghost cells: iset<(nat, nat)>)
    requires WordsOf(a) && Marks(a, cells)
    requires forall n :: 0 <= n < |list| ==> list[n].x <= MAX_STAT && list[n].y <= MAX_STAT
    requires forall n, m :: 0 <= n < m < |list| ==> list[n].x + list[n].y <= list[m].x + list[m].y
    modifies a
    ensures WordsOf(a) && Marks(a, cells + ListCells(list, highest))
  {
    hide Marks, IsWord, ListCells, FirstCells;
    var o := 0;
    NoFirstCells(list, cells);
    while o < |list| && list[o].x + list[o].y <= highest
      invariant 0 <= o <= |list|
      invariant forall n :: 0 <= n < o ==> list[n].x + list[n].y <= highest
      invariant WordsOf(a) && Marks(a, cells + FirstCells(list, o))
    {
      MarkCell(a, list[o], cells + FirstCells(list, o));
      FirstCellsStep(list, o, cells);
      o := o + 1;
    }
    FirstCellsAreAll(list, o, highest);
  }

  lemma FirstCellsAreAll(list: seq<Opt>, o: nat, highest: nat)
    requires o <= |list| && forall n, m :: 0 <= n < m < |list| ==> list[n].x + list[n].y <= list[m].x + list[m].y
    requires forall n :: 0 <= n < o ==> list[n].x + list[n].y <= highest
    requires o < |list| ==> list[o].x + list[o].y > highest
    ensures FirstCells(list, o) == ListCells(list, highest)
  {
    forall x: nat, y: nat ensures (x, y) in FirstCells(list, o) <==> (x, y) in ListCells(list, highest) {
      if Opt(x, y) in list && x + y <= highest {
        var n :| 0 <= n < |list| && list[n] == Opt(x, y);
        assert list[..o][n] == Opt(x, y);
      }
    }
  }

  lemma NoFirstCells(list: seq<Opt>, cells: iset<(nat, nat)>)
    ensures cells + FirstCells(list, 0) == cells
  {
  }

  lemma FirstCellsStep(list: seq<Opt>, o: nat, cells: iset<(nat, nat)>)
    requires o < |list|
    ensures cells + FirstCells(list, o + 1) == cells + FirstCells(list, o) + iset{(list[o].x, list[o].y)}
  {
    assert list[..o + 1] == list[..o] + [list[o]];
  }

  ghost function FirstCells(list: seq<Opt>, o: nat): iset<(nat, nat)>
    requires o <= |list|
  {
    iset x: nat, y: nat | Opt(x, y) in list[..o] :: (x, y)
  }

  ghost function ListCells(list: seq<Opt>, highest: nat): iset<(nat, nat)> {
    iset x: nat, y: nat | Opt(x, y) in list && x + y <= highest :: (x, y)
  }

  /** The cells whose options, of surface s or of those containing it, lie at most at a diagonal. */
  ghost function HeldCells(q: Input, s: nat, own: bool, highest: nat): iset<(nat, nat)>
    requires ValidInput(q) && s < |q.surfaces|
  {
    iset x: nat, y: nat | Held(q, s, own, x, y) && x + y <= highest :: (x, y)
  }

  /** The surfaces among the first t other ones that contain s. */
  ghost function HeldBefore(q: Input, s: nat, highest: nat, t: nat): iset<(nat, nat)>
    requires ValidInput(q) && s < |q.surfaces| && t <= |q.surfaces|
  {
    iset x: nat, y: nat | (exists u: nat :: u < t && u != s && Contains(q, u, s) && HasOption(q, u, x, y)) && x + y <= highest :: (x, y)
  }

  method ContainsMasks(q: Input, other: nat, s: nat) returns (r: bool)
    requires ValidInput(q) && s < |q.surfaces| && other < |q.surfaces|
    ensures r <==> Contains(q, other, s)
  {
    hide And, Not, Within, IsWord;
    var big, small := q.surfaces[other], q.surfaces[s];
    r := big.body >= small.body;
    for w := 0 to 4
      invariant r <==> big.body >= small.body && forall v :: 0 <= v < w ==> Within(small.masks[v], big.masks[v])
    {
      var missing := And(small.masks[w], Not(big.masks[w]));
      MissingBits(small.masks[w], big.masks[w]);
      r := r && missing == 0;
    }
  }

  method MarkSurface(q: Input, lists: array<seq<Opt>>, s: nat, highest: nat, beaters: array<nat>, own: array<nat>)
    requires ValidInput(q) && s < |q.surfaces| && lists.Length == |q.surfaces| && Lists(q, lists, 2 * SIDE - 1, 0)
    requires beaters != own && beaters.Length == COLUMNS && own.Length == COLUMNS
    requires forall n :: 0 <= n < |lists[s]| ==> lists[s][n].x + lists[s][n].y <= highest
    modifies beaters, own
    ensures WordsOf(beaters) && Marks(beaters, HeldCells(q, s, false, highest))
    ensures WordsOf(own) && Marks(own, HeldCells(q, s, true, highest))
  {
    hide Bit, IsWord, Contains, HasOption, Word;
    ClearColumns(beaters);
    ClearColumns(own);
    assert HeldBefore(q, s, highest, 0) == iset{};
    for other := 0 to |q.surfaces|
      invariant WordsOf(beaters) && Marks(beaters, HeldBefore(q, s, highest, other))
      invariant WordsOf(own) && Marks(own, iset{})
    {
      ListInGrid(q, lists, other);
      var contains := ContainsMasks(q, other, s);
      if other != s && contains {
        MarkList(beaters, lists[other], highest, HeldBefore(q, s, highest, other));
        assert HeldBefore(q, s, highest, other + 1) == HeldBefore(q, s, highest, other) + ListCells(lists[other], highest) by {
          ListCellsAre(q, lists, other, highest);
        }
      } else {
        assert HeldBefore(q, s, highest, other + 1) == HeldBefore(q, s, highest, other);
      }
    }
    assert HeldBefore(q, s, highest, |q.surfaces|) == HeldCells(q, s, false, highest);
    ListInGrid(q, lists, s);
    MarkList(own, lists[s], highest, iset{});
    assert iset{} + ListCells(lists[s], highest) == HeldCells(q, s, true, highest) by { ListCellsAre(q, lists, s, highest); }
  }

  method ClearColumns(a: array<nat>)
    requires a.Length == COLUMNS
    modifies a
    ensures WordsOf(a) && Marks(a, iset{})
  {
    for k := 0 to a.Length
      invariant forall i :: 0 <= i < k ==> a[i] == 0
    {
      a[k] := 0;
    }
    ZeroHasNoBit();
  }

  lemma ListInGrid(q: Input, lists: array<seq<Opt>>, s: nat)
    requires ValidInput(q) && s < |q.surfaces| && lists.Length == |q.surfaces| && Lists(q, lists, 2 * SIDE - 1, 0)
    ensures forall n :: 0 <= n < |lists[s]| ==> lists[s][n].x <= MAX_STAT && lists[s][n].y <= MAX_STAT
    ensures forall n, m :: 0 <= n < m < |lists[s]| ==> lists[s][n].x + lists[s][n].y <= lists[s][m].x + lists[s][m].y
  {
    assert ListOf(q, lists[s], s, 2 * SIDE - 1, 0);
  }

  lemma ListCellsAre(q: Input, lists: array<seq<Opt>>, s: nat, highest: nat)
    requires ValidInput(q) && s < |q.surfaces| && lists.Length == |q.surfaces| && Lists(q, lists, 2 * SIDE - 1, 0)
    ensures forall x: nat, y: nat :: (x, y) in ListCells(lists[s], highest) <==> HasOption(q, s, x, y) && x + y <= highest
  {
    assert ListOf(q, lists[s], s, 2 * SIDE - 1, 0);
    forall x: nat, y: nat ensures Opt(x, y) in lists[s] <==> HasOption(q, s, x, y) {
      if HasOption(q, s, x, y) { assert Before(x, y, 2 * SIDE - 1, 0); }
    }
  }

  // ---- The keep bits.

  const KEEP_WORDS: nat := 66

  /** The keep bits mark exactly these (key, combo index) pairs. */
  ghost predicate Keeps(keep: array2<nat>, kept: iset<(nat, nat)>)
    reads keep
  {
    && keep.Length0 == SIDE * SIDE && keep.Length1 == KEEP_WORDS
    && (forall key, w :: 0 <= key < SIDE * SIDE && 0 <= w < KEEP_WORDS ==> IsWord(keep[key, w]))
    && (forall key: nat, c: nat :: key < SIDE * SIDE && c < COMBOS ==>
          (Bit(keep[key, c / WORD_BITS], c % WORD_BITS) <==> (key, c) in kept))
    && (forall key: nat, c: nat :: key < SIDE * SIDE && COMBOS <= c < KEEP_WORDS * WORD_BITS ==>
          !Bit(keep[key, c / WORD_BITS], c % WORD_BITS))
  }

  method SetKeep(keep: array2<nat>, key: nat, c: nat, ghost kept: iset<(nat, nat)>)
    requires Keeps(keep, kept) && key < SIDE * SIDE && c < COMBOS
    modifies keep
    ensures Keeps(keep, kept + iset{(key, c)})
  {
    hide Bit, Or, Pow2;
    var w, b := c / WORD_BITS, c % WORD_BITS;
    Pow2Below(b);
    OrWord(keep[key, w], Pow2(b), WORD_BITS);
    forall n: nat ensures Bit(Or(keep[key, w], Pow2(b)), n) <==> Bit(keep[key, w], n) || n == b {
      BitOr(keep[key, w], Pow2(b), n);
      BitOne(b, n);
    }
    keep[key, w] := Or(keep[key, w], Pow2(b));
  }

  /** An option keeps its combo for the key a FT and b FF gems below it. */
  ghost predicate KeepsFor(q: Input, s: nat, o: Opt, a: nat, b: nat)
    requires ValidInput(q) && s < |q.surfaces| && o.x <= MAX_STAT && o.y <= MAX_STAT
  {
    a + b <= GEM_BUDGET && GAIN * a <= o.x && GAIN * b <= o.y && KeyReached(q, o, a, b)
    && !Beaten(q, o.x - GAIN * a, o.y - GAIN * b, s, a, b)
  }

  predicate KeyReached(q: Input, o: Opt, a: nat, b: nat)
    requires |q.reach| == SIDE * SIDE && o.x <= MAX_STAT && o.y <= MAX_STAT && GAIN * a <= o.x && GAIN * b <= o.y
  {
    q.reach[Cell(o.x - GAIN * a, o.y - GAIN * b)]
  }

  /** The (key, combo) pairs an option keeps with fewer than `columns` FT gems, and in one column with fewer than
      `rows` FF gems. */
  ghost function KeptBy(q: Input, s: nat, o: Opt, columns: int): iset<(nat, nat)>
    requires ValidInput(q) && s < |q.surfaces| && o.x <= MAX_STAT && o.y <= MAX_STAT
  {
    iset a: nat, b: nat | a < columns && KeepsFor(q, s, o, a, b) :: (Cell(o.x - GAIN * a, o.y - GAIN * b), ComboIndex(a, b))
  }

  ghost function KeptInColumn(q: Input, s: nat, o: Opt, a: nat, rows: nat): iset<(nat, nat)>
    requires ValidInput(q) && s < |q.surfaces| && o.x <= MAX_STAT && o.y <= MAX_STAT
  {
    iset b: nat | b < rows && KeepsFor(q, s, o, a, b) :: (Cell(o.x - GAIN * a, o.y - GAIN * b), ComboIndex(a, b))
  }

  lemma KeptByStep(q: Input, s: nat, o: Opt, a: nat)
    requires ValidInput(q) && s < |q.surfaces| && o.x <= MAX_STAT && o.y <= MAX_STAT
    ensures KeptBy(q, s, o, a + 1) == KeptBy(q, s, o, a) + KeptInColumn(q, s, o, a, GEM_BUDGET + 1)
  {
    hide Cell, ComboIndex, ValidInput, Beaten;
    var all, left, column := KeptBy(q, s, o, a + 1), KeptBy(q, s, o, a), KeptInColumn(q, s, o, a, GEM_BUDGET + 1);
    forall p | p in all ensures p in left + column {
      var a': nat, b: nat :| a' < a + 1 && KeepsFor(q, s, o, a', b) && p == (Cell(o.x - GAIN * a', o.y - GAIN * b), ComboIndex(a', b));
      assert a' < a ==> p in left;
      assert a' == a ==> p in column;
    }
    forall p | p in column ensures p in all {
      var b: nat :| b < GEM_BUDGET + 1 && KeepsFor(q, s, o, a, b) && p == (Cell(o.x - GAIN * a, o.y - GAIN * b), ComboIndex(a, b));
    }
  }

  // ---- One option's sweep.

  /** Reading the columns from the right, the keys' rows beaten so far are those up to `beaten`. */
  ghost predicate BeatenTo(q: Input, s: nat, o: Opt, X: int, beaten: int)
    requires ValidInput(q) && s < |q.surfaces| && X >= 0
  {
    -1 <= beaten <= o.y / GAIN
    && forall Y: nat :: Y <= o.y / GAIN ==> (Y <= beaten <==> BlockedFrom(q, s, o, X, Y))
  }

  /** Past the last column of the wedge or of the lattice there is no blocker. */
  lemma NothingRight(q: Input, s: nat, o: Opt, first: int)
    requires ValidInput(q) && s < |q.surfaces| && o.x <= MAX_STAT && o.y <= MAX_STAT
    requires first == Min((MAX_STAT - o.x % GAIN) / GAIN, LastColumn(q, o.x / GAIN, o.y / GAIN))
    ensures o.x / GAIN <= first && BeatenTo(q, s, o, first + 1, -1)
  {
    hide HasOption, Contains, Rise;
    var xo, yo := o.x / GAIN, o.y / GAIN;
    RiseLeft(q, 0);
    LastColumnIs(q, xo, xo, yo);
    var next: nat := first + 1;
    forall Y: nat | Y <= yo ensures !BlockedFrom(q, s, o, next, Y) {
      forall X': nat, Y': nat | next <= X' ensures !Blocker(q, s, o, X', Y') {
        LastColumnIs(q, X', xo, yo);
        HeldInGrid(q, s, o.x % GAIN + GAIN * X', o.y % GAIN + GAIN * Y');
      }
    }
  }

  lemma HeldInGrid(q: Input, s: nat, x: nat, y: nat)
    requires ValidInput(q) && s < |q.surfaces|
    ensures Held(q, s, true, x, y) || Held(q, s, false, x, y) ==> x <= MAX_STAT && y <= MAX_STAT
  {
  }

  /** What one column's words show: its blockers. */
  lemma ColumnBlockers(q: Input, s: nat, o: Opt, X: nat, highest: nat, beaters: array<nat>, own: array<nat>, found: nat)
    requires ValidInput(q) && s < |q.surfaces| && o.x <= MAX_STAT && o.y <= MAX_STAT && o.x + o.y <= highest
    requires WordsOf(beaters) && Marks(beaters, HeldCells(q, s, false, highest))
    requires WordsOf(own) && Marks(own, HeldCells(q, s, true, highest))
    requires o.x % GAIN + GAIN * X <= MAX_STAT
    requires var w := (o.x % GAIN + GAIN * X) * GAIN + o.y % GAIN;
             var top, ownTop := Top(q, false, X, o.x / GAIN, o.y / GAIN), Top(q, true, X, o.x / GAIN, o.y / GAIN);
             top >= 0 && ownTop >= -1 && found == Or(And(beaters[w], LowBits(top + 1)), And(own[w], LowBits(ownTop + 1)))
    ensures forall Y: nat :: Bit(found, Y) <==> Blocker(q, s, o, X, Y)
  {
    hide Bit, IsWord, HasOption, Contains, Top, Or, And, LowBits, Held;
    var i, j, xo, yo := o.x % GAIN, o.y % GAIN, o.x / GAIN, o.y / GAIN;
    var x, top, ownTop := i + GAIN * X, Top(q, false, X, xo, yo), Top(q, true, X, xo, yo);
    var w := x * GAIN + j;
    forall Y: nat ensures Bit(found, Y) <==> Blocker(q, s, o, X, Y) {
      var y := j + GAIN * Y;
      assert Word(x, y) == w && y / GAIN == Y;
      BitOr(And(beaters[w], LowBits(top + 1)), And(own[w], LowBits(ownTop + 1)), Y);
      LowBit(beaters[w], top + 1, Y);
      LowBit(own[w], ownTop + 1, Y);
      UnderDiagonal(q, X, Y, xo, yo);
      assert Bit(beaters[w], Y) <==> (x, y) in HeldCells(q, s, false, highest);
      assert Bit(own[w], Y) <==> (x, y) in HeldCells(q, s, true, highest);
    }
  }

  lemma UnderDiagonal(q: Input, X: nat, Y: nat, xo: nat, yo: nat)
    requires Wy(q) < 0
    ensures Y <= Top(q, false, X, xo, yo) ==> X + Y <= xo + yo
    ensures Y <= Top(q, true, X, xo, yo) ==> X + Y <= xo + yo
  {
  }

  /** The k lowest bits of a word, all of them from 64 on. */
  function LowBits(k: nat): nat {
    Pow2(Min(k, WORD_BITS)) - 1
  }

  lemma LowBit(w: nat, k: nat, b: nat)
    requires IsWord(w)
    ensures Bit(And(w, LowBits(k)), b) <==> Bit(w, b) && b < k
  {
    var n := Min(k, WORD_BITS);
    AndLowMask(w, n);
    BitMod(w, n, b);
    if b >= WORD_BITS { BitHigh(w, WORD_BITS, b); }
  }

  /** One more column: its highest blocker raises what is beaten. */
  lemma BeatenStep(q: Input, s: nat, o: Opt, X: nat, found: nat, beaten: int, beaten': int)
    requires ValidInput(q) && s < |q.surfaces| && BeatenTo(q, s, o, X + 1, beaten)
    requires forall Y: nat :: Bit(found, Y) <==> Blocker(q, s, o, X, Y)
    requires beaten' == if found == 0 then beaten else Max(beaten, Min(HighestBit(found), o.y / GAIN))
    ensures BeatenTo(q, s, o, X, beaten')
  {
    hide Bit, HighestBit, Blocker;
    if found == 0 { ZeroHasNoBit(); } else { HighestBitIs(found); }
    forall Y: nat | Y <= o.y / GAIN ensures Y <= beaten' <==> BlockedFrom(q, s, o, X, Y) {
      if BlockedFrom(q, s, o, X, Y) {
        var X': nat, Y': nat :| X <= X' && Y <= Y' && Blocker(q, s, o, X', Y');
        if X' > X { assert BlockedFrom(q, s, o, X + 1, Y); }
      }
      if BlockedFrom(q, s, o, X + 1, Y) {
        var X': nat, Y': nat :| X + 1 <= X' && Y <= Y' && Blocker(q, s, o, X', Y');
        assert BlockedFrom(q, s, o, X, Y);
      }
      if found != 0 && Y <= HighestBit(found) { assert Blocker(q, s, o, X, HighestBit(found)); }
    }
  }

  /** One column's unbeaten keys, from the option's row down. */
  method EmitColumn(q: Input, s: nat, o: Opt, X: nat, beaten: int, keep: array2<nat>, ghost kept: iset<(nat, nat)>)
    requires ValidInput(q) && s < |q.surfaces| && o.x <= MAX_STAT && o.y <= MAX_STAT && X <= o.x / GAIN
    requires BeatenTo(q, s, o, X, beaten) && Keeps(keep, kept)
    modifies keep
    ensures Keeps(keep, kept + KeptInColumn(q, s, o, o.x / GAIN - X, GEM_BUDGET + 1))
  {
    hide Bit, Beaten, ComboIndex, Cell, BlockedFrom, IsWord;
    var i, j, xo, yo := o.x % GAIN, o.y % GAIN, o.x / GAIN, o.y / GAIN;
    var a := xo - X;
    var low := Max(beaten + 1, Max(yo - (GEM_BUDGET - a), 0));
    assert kept + KeptInColumn(q, s, o, a, 0) == kept;
    var Y := yo;
    while Y >= low
      invariant low - 1 <= Y <= yo || (Y == yo && yo < low)
      invariant Keeps(keep, kept + KeptInColumn(q, s, o, a, yo - Y))
    {
      var b := yo - Y;
      ColumnKey(q, s, o, X, Y, beaten);
      CellInGrid(i + GAIN * X, j + GAIN * Y);
      if q.reach[Cell(i + GAIN * X, j + GAIN * Y)] {
        ComboIndexBound(a, b);
        SetKeep(keep, Cell(i + GAIN * X, j + GAIN * Y), ComboIndex(a, b), kept + KeptInColumn(q, s, o, a, b));
        assert KeepsFor(q, s, o, a, b);
      }
      KeptRowStep(q, s, o, a, b, kept);
      Y := Y - 1;
    }
    RestBeaten(q, s, o, X, beaten, yo - Y, kept);
  }

  /** A key of the column is beaten exactly up to `beaten`. */
  lemma ColumnKey(q: Input, s: nat, o: Opt, X: nat, Y: nat, beaten: int)
    requires ValidInput(q) && s < |q.surfaces| && o.x <= MAX_STAT && o.y <= MAX_STAT && X <= o.x / GAIN && Y <= o.y / GAIN
    requires BeatenTo(q, s, o, X, beaten) && o.x / GAIN - X + o.y / GAIN - Y <= GEM_BUDGET
    ensures var a, b := o.x / GAIN - X, o.y / GAIN - Y;
            && o.x - GAIN * a == o.x % GAIN + GAIN * X && o.y - GAIN * b == o.y % GAIN + GAIN * Y
            && (KeepsFor(q, s, o, a, b) <==> q.reach[Cell(o.x % GAIN + GAIN * X, o.y % GAIN + GAIN * Y)] && beaten < Y)
  {
    hide Beaten, BlockedFrom, ComboIndex;
    BeatenIsBlocked(q, s, o, X, Y);
  }

  lemma KeptRowStep(q: Input, s: nat, o: Opt, a: nat, b: nat, kept: iset<(nat, nat)>)
    requires ValidInput(q) && s < |q.surfaces| && o.x <= MAX_STAT && o.y <= MAX_STAT
    ensures kept + KeptInColumn(q, s, o, a, b + 1)
         == kept + KeptInColumn(q, s, o, a, b)
          + (if KeepsFor(q, s, o, a, b) then iset{(Cell(o.x - GAIN * a, o.y - GAIN * b), ComboIndex(a, b))} else iset{})
  {
    hide Cell, ComboIndex, ValidInput, Beaten;
    forall p | p in KeptInColumn(q, s, o, a, b + 1)
      ensures p in KeptInColumn(q, s, o, a, b) || (KeepsFor(q, s, o, a, b) && p == (Cell(o.x - GAIN * a, o.y - GAIN * b), ComboIndex(a, b)))
    {
      var b': nat :| b' < b + 1 && KeepsFor(q, s, o, a, b') && p == (Cell(o.x - GAIN * a, o.y - GAIN * b'), ComboIndex(a, b'));
    }
  }

  lemma RestBeaten(q: Input, s: nat, o: Opt, X: nat, beaten: int, rows: nat, kept: iset<(nat, nat)>)
    requires ValidInput(q) && s < |q.surfaces| && o.x <= MAX_STAT && o.y <= MAX_STAT && X <= o.x / GAIN
    requires BeatenTo(q, s, o, X, beaten)
    requires o.y / GAIN - rows < Max(beaten + 1, Max(o.y / GAIN - (GEM_BUDGET - (o.x / GAIN - X)), 0))
    ensures var a := o.x / GAIN - X;
            rows <= GEM_BUDGET + 1 ==> kept + KeptInColumn(q, s, o, a, rows) == kept + KeptInColumn(q, s, o, a, GEM_BUDGET + 1)
  {
    hide Cell, ComboIndex, ValidInput, Beaten, BlockedFrom;
    var a := o.x / GAIN - X;
    forall b: nat | rows <= b ensures !KeepsFor(q, s, o, a, b) {
      if KeepsFor(q, s, o, a, b) { ColumnKey(q, s, o, X, o.y / GAIN - b, beaten); }
    }
  }

  /** One option: its columns from the right, until every key left is beaten. */
  method SweepOption(q: Input, s: nat, o: Opt, highest: nat, beaters: array<nat>, own: array<nat>, keep: array2<nat>,
                     ghost kept: iset<(nat, nat)>)
    requires ValidInput(q) && s < |q.surfaces| && o.x <= MAX_STAT && o.y <= MAX_STAT && o.x + o.y <= highest
    requires WordsOf(beaters) && Marks(beaters, HeldCells(q, s, false, highest))
    requires WordsOf(own) && Marks(own, HeldCells(q, s, true, highest))
    requires Keeps(keep, kept)
    modifies keep
    ensures Keeps(keep, kept + KeptBy(q, s, o, GEM_BUDGET + 1))
  {
    hide Bit, Beaten, ComboIndex, Cell, BlockedFrom, IsWord, Marks, HighestBit, And, Or, LowBits, Held, Blocker, BeatenTo, KeptBy,
         KeptInColumn, Rise, LastColumn, Keeps, ValidInput;
    GainsNegative(q);
    var i, j, xo, yo := o.x % GAIN, o.y % GAIN, o.x / GAIN, o.y / GAIN;
    var beaten := -1;
    var first := Min((MAX_STAT - i) / GAIN, LastColumn(q, xo, yo));
    NothingRight(q, s, o, first);
    NoColumns(q, s, o, xo - first, kept);
    var X := first;
    while X >= 0
      invariant -1 <= X <= first && beaten < yo && BeatenTo(q, s, o, X + 1, beaten)
      invariant Keeps(keep, kept + KeptBy(q, s, o, xo - X))
    {
      var top, word := yo + Rise(q, X - xo), (i + GAIN * X) * GAIN + j;
      var ownTop := top - (if X == xo || (X < xo && Wx(q) == Wy(q)) then 1 else 0);
      TopsFit(q, X, xo, yo, first, i);
      var found := Or(And(beaters[word], LowBits(top + 1)), And(own[word], LowBits(ownTop + 1)));
      ColumnBlockers(q, s, o, X, highest, beaters, own, found);
      ghost var was := beaten;
      if found != 0 {
        beaten := Max(beaten, Min(HighestBit(found), yo));
      }
      BeatenStep(q, s, o, X, found, was, beaten);
      if beaten == yo {
        AllBeaten(q, s, o, X, beaten, kept);
        return;
      }
      assert beaten < yo by { BeatenRange(q, s, o, X, beaten); }
      if X <= xo {
        EmitColumn(q, s, o, X, beaten, keep, kept + KeptBy(q, s, o, xo - X));
        KeptByStep(q, s, o, xo - X);
        assert kept + KeptBy(q, s, o, xo - X) + KeptInColumn(q, s, o, xo - X, GEM_BUDGET + 1) == kept + KeptBy(q, s, o, xo - X + 1);
      } else {
        NoColumns(q, s, o, xo - X, kept);
        NoColumns(q, s, o, xo - (X - 1), kept);
      }
      X := X - 1;
    }
    AllColumns(q, s, o, kept);
  }

  lemma GainsNegative(q: Input)
    requires ValidInput(q)
    ensures Wx(q) < 0 && Wy(q) < 0
  {
  }

  lemma BeatenRange(q: Input, s: nat, o: Opt, X: int, beaten: int)
    requires ValidInput(q) && s < |q.surfaces| && X >= 0 && BeatenTo(q, s, o, X, beaten)
    ensures beaten <= o.y / GAIN
  {
  }

  lemma NoColumns(q: Input, s: nat, o: Opt, columns: int, kept: iset<(nat, nat)>)
    requires ValidInput(q) && s < |q.surfaces| && o.x <= MAX_STAT && o.y <= MAX_STAT && columns <= 0
    ensures kept + KeptBy(q, s, o, columns) == kept
  {
  }

  lemma TopsFit(q: Input, X: nat, xo: nat, yo: nat, first: int, i: nat)
    requires Wx(q) < 0 && Wy(q) < 0 && X <= first && xo <= first && i < GAIN
    requires first == Min((MAX_STAT - i) / GAIN, LastColumn(q, xo, yo))
    ensures Top(q, false, X, xo, yo) >= 0 && Top(q, true, X, xo, yo) >= -1
    ensures Top(q, false, X, xo, yo) == yo + Rise(q, X - xo)
    ensures Top(q, true, X, xo, yo) == yo + Rise(q, X - xo) - (if X == xo || (X < xo && Wx(q) == Wy(q)) then 1 else 0)
    ensures i + GAIN * X <= MAX_STAT
  {
    hide Rise, LastColumn;
    if X >= xo { LastColumnIs(q, X, xo, yo); } else { RiseLeft(q, X - xo); }
  }

  /** Once every row is beaten, no column further left keeps anything. */
  lemma AllBeaten(q: Input, s: nat, o: Opt, X: nat, beaten: int, kept: iset<(nat, nat)>)
    requires ValidInput(q) && s < |q.surfaces| && o.x <= MAX_STAT && o.y <= MAX_STAT
    requires BeatenTo(q, s, o, X, beaten) && beaten == o.y / GAIN
    ensures kept + KeptBy(q, s, o, o.x / GAIN - X) == kept + KeptBy(q, s, o, GEM_BUDGET + 1)
  {
    hide Cell, ComboIndex, ValidInput, Beaten, Blocker;
    var xo, yo := o.x / GAIN, o.y / GAIN;
    forall a: nat, b: nat | xo - X <= a && a + b <= GEM_BUDGET && GAIN * a <= o.x && GAIN * b <= o.y
      ensures !KeepsFor(q, s, o, a, b)
    {
      assert BlockedFrom(q, s, o, X, yo - b);
      var X': nat, Y': nat :| X <= X' && yo - b <= Y' && Blocker(q, s, o, X', Y');
      assert BlockedFrom(q, s, o, xo - a, yo - b);
      BeatenIsBlocked(q, s, o, xo - a, yo - b);
    }
  }

  lemma AllColumns(q: Input, s: nat, o: Opt, kept: iset<(nat, nat)>)
    requires ValidInput(q) && s < |q.surfaces| && o.x <= MAX_STAT && o.y <= MAX_STAT
    ensures kept + KeptBy(q, s, o, o.x / GAIN + 1) == kept + KeptBy(q, s, o, GEM_BUDGET + 1)
  {
    hide Cell, ComboIndex, ValidInput, Beaten;
    assert forall a: nat, b: nat :: KeepsFor(q, s, o, a, b) ==> a < o.x / GAIN + 1 && a < GEM_BUDGET + 1;
  }

  // ---- All surfaces, and the pairwise definition.

  /** What the options of a surface keep. */
  ghost function SurfaceKeeps(q: Input, s: nat): iset<(nat, nat)>
    requires ValidInput(q) && s < |q.surfaces|
  {
    iset p: (nat, nat) | KeptSomewhere(q, s, p)
  }

  ghost predicate KeptSomewhere(q: Input, s: nat, p: (nat, nat))
    requires ValidInput(q) && s < |q.surfaces|
  {
    exists x: nat, y: nat :: KeptAt(q, s, x, y, p)
  }

  ghost predicate KeptAt(q: Input, s: nat, x: nat, y: nat, p: (nat, nat))
    requires ValidInput(q) && s < |q.surfaces|
  {
    HasOption(q, s, x, y) && x <= MAX_STAT && y <= MAX_STAT && p in KeptBy(q, s, Opt(x, y), GEM_BUDGET + 1)
  }

  ghost function SurfacesKeep(q: Input, n: nat): iset<(nat, nat)>
    requires ValidInput(q) && n <= |q.surfaces|
  {
    if n == 0 then iset{} else SurfacesKeep(q, n - 1) + SurfaceKeeps(q, n - 1)
  }

  ghost function ListKeeps(q: Input, s: nat, list: seq<Opt>): iset<(nat, nat)>
    requires ValidInput(q) && s < |q.surfaces| && forall n :: 0 <= n < |list| ==> list[n].x <= MAX_STAT && list[n].y <= MAX_STAT
  {
    if list == [] then iset{} else ListKeeps(q, s, list[..|list| - 1]) + KeptBy(q, s, list[|list| - 1], GEM_BUDGET + 1)
  }

  /** Set keep's bits for every reachable key's kept combos. */
  method ShortlistKeep(q: Input, keep: array2<nat>)
    requires ValidInput(q) && Keeps(keep, iset{})
    modifies keep
    ensures Keeps(keep, SurfacesKeep(q, |q.surfaces|))
  {
    hide Keeps, ValidInput, SurfaceKeeps, Marks, KeptBy, Lists, HasOption;
    var lists := BuildOptions(q);
    var beaters, own := new nat[COLUMNS](_ => 0), new nat[COLUMNS](_ => 0);
    for s := 0 to |q.surfaces|
      invariant Keeps(keep, SurfacesKeep(q, s)) && Lists(q, lists, 2 * SIDE - 1, 0)
    {
      ListInGrid(q, lists, s);
      var list := lists[s];
      if |list| > 0 {
        var highest := list[|list| - 1].x + list[|list| - 1].y;
        MarkSurface(q, lists, s, highest, beaters, own);
        SweepSurface(q, s, list, highest, beaters, own, keep, SurfacesKeep(q, s));
      } else {
        assert SurfacesKeep(q, s) + ListKeeps(q, s, list) == SurfacesKeep(q, s);
      }
      ListKeepsAll(q, lists, s);
    }
  }

  method SweepSurface(q: Input, s: nat, list: seq<Opt>, highest: nat, beaters: array<nat>, own: array<nat>, keep: array2<nat>,
                      ghost kept: iset<(nat, nat)>)
    requires ValidInput(q) && s < |q.surfaces|
    requires forall n :: 0 <= n < |list| ==> list[n].x <= MAX_STAT && list[n].y <= MAX_STAT && list[n].x + list[n].y <= highest
    requires WordsOf(beaters) && Marks(beaters, HeldCells(q, s, false, highest))
    requires WordsOf(own) && Marks(own, HeldCells(q, s, true, highest))
    requires Keeps(keep, kept)
    modifies keep
    ensures Keeps(keep, kept + ListKeeps(q, s, list))
  {
    hide Keeps, ValidInput, Marks, KeptBy, HasOption, IsWord;
    assert kept + ListKeeps(q, s, list[..0]) == kept;
    for o := 0 to |list|
      invariant Keeps(keep, kept + ListKeeps(q, s, list[..o]))
    {
      SweepOption(q, s, list[o], highest, beaters, own, keep, kept + ListKeeps(q, s, list[..o]));
      assert list[..o + 1][..o] == list[..o];
      assert kept + ListKeeps(q, s, list[..o]) + KeptBy(q, s, list[o], GEM_BUDGET + 1) == kept + ListKeeps(q, s, list[..o + 1]);
    }
    assert list[..|list|] == list;
  }

  lemma {:induction false} InListKeeps(q: Input, s: nat, list: seq<Opt>, p: (nat, nat))
    requires ValidInput(q) && s < |q.surfaces| && forall n :: 0 <= n < |list| ==> list[n].x <= MAX_STAT && list[n].y <= MAX_STAT
    ensures p in ListKeeps(q, s, list) <==> exists n :: 0 <= n < |list| && p in KeptBy(q, s, list[n], GEM_BUDGET + 1)
  {
    hide KeptBy, ValidInput;
    if list != [] {
      InListKeeps(q, s, list[..|list| - 1], p);
    }
  }

  lemma ListKeepsAll(q: Input, lists: array<seq<Opt>>, s: nat)
    requires ValidInput(q) && s < |q.surfaces| && lists.Length == |q.surfaces| && Lists(q, lists, 2 * SIDE - 1, 0)
    requires forall n :: 0 <= n < |lists[s]| ==> lists[s][n].x <= MAX_STAT && lists[s][n].y <= MAX_STAT
    ensures SurfacesKeep(q, s) + ListKeeps(q, s, lists[s]) == SurfacesKeep(q, s + 1)
  {
    hide KeptBy, ValidInput;
    assert ListOf(q, lists[s], s, 2 * SIDE - 1, 0);
    forall p ensures p in ListKeeps(q, s, lists[s]) <==> p in SurfaceKeeps(q, s) {
      InListKeeps(q, s, lists[s], p);
      if p in SurfaceKeeps(q, s) {
        var x: nat, y: nat :| KeptAt(q, s, x, y, p);
        assert Before(x, y, 2 * SIDE - 1, 0);
        var n :| 0 <= n < |lists[s]| && lists[s][n] == Opt(x, y);
      }
      if n :| 0 <= n < |lists[s]| && p in KeptBy(q, s, lists[s][n], GEM_BUDGET + 1) {
        assert KeptAt(q, s, lists[s][n].x, lists[s][n].y, p);
      }
    }
  }

  lemma {:induction false} InSurfacesKeep(q: Input, n: nat, p: (nat, nat))
    requires ValidInput(q) && n <= |q.surfaces|
    ensures p in SurfacesKeep(q, n) <==> exists s: nat :: s < n && p in SurfaceKeeps(q, s)
  {
    hide SurfaceKeeps;
    if n > 0 { InSurfacesKeep(q, n - 1, p); }
  }

  lemma KeptBySweep(q: Input, kx: nat, ky: nat, a: nat, b: nat, s: nat)
    requires ValidInput(q) && kx <= MAX_STAT && ky <= MAX_STAT && a + b <= GEM_BUDGET
    requires IsOption(q, kx, ky, s, a, b) && !Beaten(q, kx, ky, s, a, b) && q.reach[Cell(kx, ky)]
    ensures KeptSomewhere(q, s, (Cell(kx, ky), ComboIndex(a, b)))
  {
    hide Beaten, ValidInput, HasOption, ComboIndex;
    var o := Opt(kx + GAIN * a, ky + GAIN * b);
    OptionInGrid(q, s, o.x, o.y);
    assert o.x - GAIN * a == kx && o.y - GAIN * b == ky;
    assert KeepsFor(q, s, o, a, b);
    assert KeptAt(q, s, o.x, o.y, (Cell(kx, ky), ComboIndex(a, b)));
  }

  lemma SweptIsKept(q: Input, kx: nat, ky: nat, a: nat, b: nat, s: nat)
    requires ValidInput(q) && kx <= MAX_STAT && ky <= MAX_STAT && a + b <= GEM_BUDGET && s < |q.surfaces|
    requires KeptSomewhere(q, s, (Cell(kx, ky), ComboIndex(a, b)))
    ensures IsOption(q, kx, ky, s, a, b) && !Beaten(q, kx, ky, s, a, b) && q.reach[Cell(kx, ky)]
  {
    hide Beaten, ValidInput, HasOption, ComboIndex;
    var p := (Cell(kx, ky), ComboIndex(a, b));
    var x: nat, y: nat :| KeptAt(q, s, x, y, p);
    var a': nat, b': nat :| a' < GEM_BUDGET + 1 && KeepsFor(q, s, Opt(x, y), a', b')
                            && p == (Cell(x - GAIN * a', y - GAIN * b'), ComboIndex(a', b'));
    ComboIndexInjective(a, b, a', b');
    CellInjective(kx, ky, x - GAIN * a, y - GAIN * b);
  }

  /** The sweep keeps a combo for a key exactly when the pairwise definition does. */
  lemma SweepIsPairwise(q: Input, kx: nat, ky: nat, a: nat, b: nat)
    requires ValidInput(q) && kx <= MAX_STAT && ky <= MAX_STAT && a + b <= GEM_BUDGET
    ensures (Cell(kx, ky), ComboIndex(a, b)) in SurfacesKeep(q, |q.surfaces|) <==> Kept(q, kx, ky, a, b)
  {
    hide Beaten, ValidInput, HasOption, ComboIndex, Cell, KeptSomewhere;
    var p := (Cell(kx, ky), ComboIndex(a, b));
    InSurfacesKeep(q, |q.surfaces|, p);
    if p in SurfacesKeep(q, |q.surfaces|) {
      var s: nat :| s < |q.surfaces| && p in SurfaceKeeps(q, s);
      SweptIsKept(q, kx, ky, a, b, s);
    }
    if Kept(q, kx, ky, a, b) {
      var s: nat :| IsOption(q, kx, ky, s, a, b) && !Beaten(q, kx, ky, s, a, b);
      KeptBySweep(q, kx, ky, a, b, s);
      assert p in SurfaceKeeps(q, s);
    }
  }

  lemma OptionInGrid(q: Input, s: nat, x: nat, y: nat)
    requires ValidInput(q) && HasOption(q, s, x, y)
    ensures x <= MAX_STAT && y <= MAX_STAT
  {
  }

  lemma CellInjective(x: nat, y: nat, x': nat, y': nat)
    requires Cell(x, y) == Cell(x', y') && y <= MAX_STAT && y' <= MAX_STAT
    ensures x == x' && y == y'
  {
  }

  // ---- Reading the kept combos back.

  function LowestBit(w: nat): nat
    requires w > 0
  {
    if w % 2 == 1 then 0 else 1 + LowestBit(w / 2)
  }

  lemma {:induction false} LowestBitIs(w: nat)
    requires w > 0
    ensures Bit(w, LowestBit(w)) && forall i: nat :: Bit(w, i) ==> LowestBit(w) <= i
  {
    if w % 2 == 0 {
      LowestBitIs(w / 2);
      forall i: nat | Bit(w, i) ensures LowestBit(w) <= i {
        assert i > 0 && Bit(w / 2, i - 1);
      }
    }
  }

  /** x & (x - 1) clears the lowest set bit. */
  lemma {:induction false} ClearLowest(w: nat, i: nat)
    requires w > 0
    ensures Bit(And(w, w - 1), i) <==> Bit(w, i) && i != LowestBit(w)
    decreases w
  {
    BitAnd(w, w - 1, i);
    LowestBitIs(w);
    if Bit(w, i) { PredecessorBits(w, i); }
  }

  lemma {:induction false} PredecessorBits(w: nat, i: nat)
    requires w > 0 && Bit(w, i)
    ensures Bit(w - 1, i) <==> i != LowestBit(w)
    decreases w
  {
    if w % 2 == 1 {
      if i > 0 { assert (w - 1) / 2 == w / 2; }
    } else {
      assert (w - 1) / 2 == w / 2 - 1;
      PredecessorBits(w / 2, i - 1);
    }
  }

  ghost predicate Ascending(s: seq<nat>) {
    forall i, j :: 0 <= i < j < |s| ==> s[i] < s[j]
  }

  /** The set bits of one word, ascending, by clearing the lowest one. */
  method DecodeWord(x: nat, w: nat) returns (combos: seq<nat>)
    requires IsWord(x)
    ensures Ascending(combos) && forall i :: 0 <= i < |combos| ==> w * WORD_BITS <= combos[i] < (w + 1) * WORD_BITS
    ensures forall b: nat :: b < WORD_BITS ==> (w * WORD_BITS + b in combos <==> Bit(x, b))
  {
    hide Bit, And, LowestBit, IsWord;
    combos := [];
    var left := x;
    WordBits(x);
    while left != 0
      invariant forall b: nat :: Bit(left, b) ==> b < WORD_BITS
      invariant Ascending(combos) && forall i :: 0 <= i < |combos| ==> w * WORD_BITS <= combos[i] < (w + 1) * WORD_BITS
      invariant forall i, b: nat :: 0 <= i < |combos| && Bit(left, b) ==> combos[i] < w * WORD_BITS + b
      invariant forall b: nat :: b < WORD_BITS ==> (w * WORD_BITS + b in combos || Bit(left, b) <==> Bit(x, b))
      decreases left
    {
      LowestBitIs(left);
      ghost var was := left;
      combos := combos + [w * WORD_BITS + LowestBit(left)];
      left := And(left, left - 1);
      forall b: nat ensures Bit(left, b) <==> Bit(was, b) && b != LowestBit(was) { ClearLowest(was, b); }
      AndSmaller(was, was - 1);
    }
    ZeroHasNoBit();
  }

  lemma {:induction false} AndSmaller(x: nat, y: nat)
    ensures And(x, y) <= y
    decreases x
  {
    if x != 0 { AndSmaller(x / 2, y / 2); }
  }

  /** The combos of each key, ascending: key k owns combos[starts[k]..starts[k + 1]]. */
  method DecodeKeep(keep: array2<nat>, ghost kept: iset<(nat, nat)>) returns (starts: seq<nat>, combos: seq<nat>)
    requires Keeps(keep, kept)
    ensures |starts| == SIDE * SIDE + 1 && starts[0] == 0
    ensures forall key: nat :: key < SIDE * SIDE ==> Decoded(starts, combos, kept, key)
  {
    hide Keeps;
    starts, combos := [0], [];
    for key := 0 to SIDE * SIDE
      invariant |starts| == key + 1 && starts[0] == 0 && starts[key] == |combos|
      invariant forall k: nat :: k < key ==> Decoded(starts, combos, kept, k)
    {
      var row := DecodeRow(keep, key, kept);
      ghost var wasStarts, wasCombos := starts, combos;
      combos := combos + row;
      starts := starts + [|combos|];
      assert combos[starts[key]..starts[key + 1]] == row;
      forall k: nat | k < key ensures Decoded(starts, combos, kept, k) {
        assert Decoded(wasStarts, wasCombos, kept, k);
        assert combos[starts[k]..starts[k + 1]] == wasCombos[wasStarts[k]..wasStarts[k + 1]];
      }
    }
  }

  ghost predicate Decoded(starts: seq<nat>, combos: seq<nat>, kept: iset<(nat, nat)>, key: nat) {
    && key + 1 < |starts| && starts[key] <= starts[key + 1] <= |combos|
    && RowDecoded(combos[starts[key]..starts[key + 1]], kept, key)
  }

  ghost predicate RowDecoded(row: seq<nat>, kept: iset<(nat, nat)>, key: nat) {
    Ascending(row) && forall c: nat :: c in row <==> c < COMBOS && (key, c) in kept
  }

  method DecodeRow(keep: array2<nat>, key: nat, ghost kept: iset<(nat, nat)>) returns (row: seq<nat>)
    requires Keeps(keep, kept) && key < SIDE * SIDE
    ensures RowDecoded(row, kept, key)
  {
    hide Bit;
    row := [];
    for w := 0 to KEEP_WORDS
      invariant Ascending(row) && forall i :: 0 <= i < |row| ==> row[i] < w * WORD_BITS
      invariant forall c: nat :: c < w * WORD_BITS ==> (c in row <==> c < COMBOS && (key, c) in kept)
    {
      var found := DecodeWord(keep[key, w], w);
      forall c: nat | c < (w + 1) * WORD_BITS ensures c in row + found <==> c < COMBOS && (key, c) in kept {
        if c >= w * WORD_BITS {
          assert c / WORD_BITS == w && c == w * WORD_BITS + c % WORD_BITS;
        }
      }
      row := row + found;
    }
  }

  /** The whole shortlist: per key, ascending, exactly the combos of the pairwise definition. */
  method FtffShortlist(q: Input) returns (starts: seq<nat>, combos: seq<nat>)
    requires ValidInput(q)
    ensures |starts| == SIDE * SIDE + 1
    ensures forall kx: nat, ky: nat :: kx <= MAX_STAT && ky <= MAX_STAT ==> KeyShortlist(q, starts, combos, kx, ky)
  {
    hide Keeps, ValidInput, SurfacesKeep, RowDecoded, Kept;
    var keep := new nat[SIDE * SIDE, KEEP_WORDS]((_, _) => 0);
    assert Keeps(keep, iset{}) by { NothingKept(keep); }
    ShortlistKeep(q, keep);
    starts, combos := DecodeKeep(keep, SurfacesKeep(q, |q.surfaces|));
    forall kx: nat, ky: nat | kx <= MAX_STAT && ky <= MAX_STAT ensures KeyShortlist(q, starts, combos, kx, ky) {
      CellInGrid(kx, ky);
      assert Decoded(starts, combos, SurfacesKeep(q, |q.surfaces|), Cell(kx, ky));
      RowIsPairwise(q, combos[starts[Cell(kx, ky)]..starts[Cell(kx, ky) + 1]], kx, ky);
    }
  }

  ghost predicate KeyShortlist(q: Input, starts: seq<nat>, combos: seq<nat>, kx: nat, ky: nat)
    requires ValidInput(q) && kx <= MAX_STAT && ky <= MAX_STAT
  {
    var key := Cell(kx, ky);
    key + 1 < |starts| && starts[key] <= starts[key + 1] <= |combos| && PairwiseRow(q, combos[starts[key]..starts[key + 1]], kx, ky)
  }

  ghost predicate PairwiseRow(q: Input, row: seq<nat>, kx: nat, ky: nat)
    requires ValidInput(q) && kx <= MAX_STAT && ky <= MAX_STAT
  {
    && Ascending(row)
    && (forall a: nat, b: nat :: a + b <= GEM_BUDGET ==> (ComboIndex(a, b) in row <==> Kept(q, kx, ky, a, b)))
    && forall c: nat :: c in row ==> IsCombo(c)
  }

  /** The index of some allocation of FT and FF gems. */
  ghost predicate IsCombo(c: nat) { exists a: nat, b: nat :: a + b <= GEM_BUDGET && c == ComboIndex(a, b) }

  lemma NothingKept(keep: array2<nat>)
    requires keep.Length0 == SIDE * SIDE && keep.Length1 == KEEP_WORDS
    requires forall key, w :: 0 <= key < SIDE * SIDE && 0 <= w < KEEP_WORDS ==> keep[key, w] == 0
    ensures Keeps(keep, iset{})
  {
    ZeroHasNoBit();
  }

  lemma RowIsPairwise(q: Input, row: seq<nat>, kx: nat, ky: nat)
    requires ValidInput(q) && kx <= MAX_STAT && ky <= MAX_STAT
    requires RowDecoded(row, SurfacesKeep(q, |q.surfaces|), Cell(kx, ky))
    ensures PairwiseRow(q, row, kx, ky)
  {
    hide ValidInput, SurfacesKeep, Kept, ComboIndex;
    forall a: nat, b: nat | a + b <= GEM_BUDGET ensures ComboIndex(a, b) in row <==> Kept(q, kx, ky, a, b) {
      ComboIndexBound(a, b);
      SweepIsPairwise(q, kx, ky, a, b);
    }
    forall c: nat | c in row ensures IsCombo(c) { SweptCombo(q, Cell(kx, ky), c); }
  }

  lemma SweptCombo(q: Input, key: nat, c: nat)
    requires ValidInput(q) && (key, c) in SurfacesKeep(q, |q.surfaces|)
    ensures IsCombo(c)
  {
    hide ValidInput, HasOption, ComboIndex, Cell, Beaten;
    var p := (key, c);
    InSurfacesKeep(q, |q.surfaces|, p);
    var s: nat :| s < |q.surfaces| && p in SurfaceKeeps(q, s);
    var x: nat, y: nat :| KeptAt(q, s, x, y, p);
    var a: nat, b: nat :| a < GEM_BUDGET + 1 && KeepsFor(q, s, Opt(x, y), a, b)
                          && p == (Cell(x - GAIN * a, y - GAIN * b), ComboIndex(a, b));
  }
}
