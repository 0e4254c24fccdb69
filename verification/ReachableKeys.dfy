/** The pre-gem (FT, FF) keys of the loadouts that take one item per slot (gear_optimizer/solver/ftff_combos.py,
    reachable_ftff_keys): a grid of capped sums, rebuilt slot by slot. */
module ReachableKeys {
  const MAX_STAT: nat := 160

  /** An item's (FT, FF). */
  datatype Item = Item(ft: nat, ff: nat)

  function Cap(x: nat): (r: nat)
    ensures r <= MAX_STAT
  {
    if x <= MAX_STAT then x else MAX_STAT
  }

  /** One item of each slot. */
  ghost predicate IsChoice(slots: seq<seq<Item>>, pick: seq<nat>) {
    |pick| == |slots| && forall i :: 0 <= i < |slots| ==> pick[i] < |slots[i]|
  }

  /** The stats of a loadout: the fixed stats and its items'. */
  ghost function Total(fixed: Item, slots: seq<seq<Item>>, pick: seq<nat>): Item
    requires IsChoice(slots, pick)
  {
    if slots == [] then fixed
    else
      var n := |slots| - 1;
      var rest := Total(fixed, slots[..n], pick[..n]);
      Item(rest.ft + slots[n][pick[n]].ft, rest.ff + slots[n][pick[n]].ff)
  }

  /** Some loadout has these stats, each capped. */
  ghost predicate IsKey(fixed: Item, slots: seq<seq<Item>>, ft: nat, ff: nat) {
    exists pick :: IsChoice(slots, pick) && Cap(Total(fixed, slots, pick).ft) == ft && Cap(Total(fixed, slots, pick).ff) == ff
  }

  /** Item i of a slot leads from one key to another. */
  predicate Leads(from: Item, items: seq<Item>, i: nat, ft: nat, ff: nat) {
    i < |items| && Cap(from.ft + items[i].ft) == ft && Cap(from.ff + items[i].ff) == ff
  }

  /** Capping the sum so far loses nothing: the keys with one more slot are those an item of it leads to from a key. */
  lemma OneMoreSlot(fixed: Item, slots: seq<seq<Item>>, items: seq<Item>, ft: nat, ff: nat)
    ensures IsKey(fixed, slots + [items], ft, ff)
       <==> exists from: Item, i: nat :: Leads(from, items, i, ft, ff) && IsKey(fixed, slots, from.ft, from.ff)
  {
    var more := slots + [items];
    assert more[..|slots|] == slots;
    if pick :| IsChoice(more, pick) && Cap(Total(fixed, more, pick).ft) == ft && Cap(Total(fixed, more, pick).ff) == ff {
      var rest := Total(fixed, slots, pick[..|slots|]);
      var from := Item(Cap(rest.ft), Cap(rest.ff));
      assert IsKey(fixed, slots, from.ft, from.ff) && Leads(from, items, pick[|slots|], ft, ff);
    }
    if from: Item, i: nat :| Leads(from, items, i, ft, ff) && IsKey(fixed, slots, from.ft, from.ff) {
      var some :| IsChoice(slots, some) && Cap(Total(fixed, slots, some).ft) == from.ft && Cap(Total(fixed, slots, some).ff) == from.ff;
      var pick := some + [i];
      assert pick[..|slots|] == some;
      assert IsChoice(more, pick);
    }
  }

  // ---- The grid.

  ghost predicate Sized(grid: array2<bool>) { grid.Length0 == MAX_STAT + 1 && grid.Length1 == MAX_STAT + 1 }

  /** The grid marks exactly the keys of the slots. */
  ghost predicate Marks(grid: array2<bool>, fixed: Item, slots: seq<seq<Item>>)
    requires Sized(grid)
    reads grid
  {
    forall ft: nat, ff: nat :: ft <= MAX_STAT && ff <= MAX_STAT ==> (grid[ft, ff] <==> IsKey(fixed, slots, ft, ff))
  }

  /** The marked cells. */
  method Nonzero(grid: array2<bool>) returns (cells: seq<Item>)
    requires Sized(grid)
    ensures forall c :: c in cells <==> c.ft <= MAX_STAT && c.ff <= MAX_STAT && grid[c.ft, c.ff]
  {
    cells := [];
    for ft := 0 to MAX_STAT + 1
      invariant forall c :: c in cells <==> c.ft < ft && c.ff <= MAX_STAT && grid[c.ft, c.ff]
    {
      for ff := 0 to MAX_STAT + 1
        invariant forall c :: c in cells <==> (c.ft < ft && c.ff <= MAX_STAT && grid[c.ft, c.ff]) || (c.ft == ft && c.ff < ff && grid[c.ft, c.ff])
      {
        if grid[ft, ff] { cells := cells + [Item(ft, ff)]; }
      }
    }
  }

  /** What the first n cells and item i mark. */
  ghost predicate Marked(cells: seq<Item>, n: nat, items: seq<Item>, i: nat, ft: nat, ff: nat)
    requires n <= |cells|
  {
    exists m :: 0 <= m < n && Leads(cells[m], items, i, ft, ff)
  }

  /** What the cells and the first k items mark. */
  ghost predicate MarkedBy(cells: seq<Item>, items: seq<Item>, k: nat, ft: nat, ff: nat) {
    exists i: nat :: i < k && Marked(cells, |cells|, items, i, ft, ff)
  }

  /** The keys one item of the slot leads to. */
  method NextSlot(grid: array2<bool>, items: seq<Item>) returns (next: array2<bool>, ghost cells: seq<Item>)
    requires Sized(grid)
    ensures fresh(next) && Sized(next)
    ensures forall c :: c in cells <==> c.ft <= MAX_STAT && c.ff <= MAX_STAT && grid[c.ft, c.ff]
    ensures forall ft: nat, ff: nat :: ft <= MAX_STAT && ff <= MAX_STAT ==> (next[ft, ff] <==> MarkedBy(cells, items, |items|, ft, ff))
  {
    hide Leads;
    var marked := Nonzero(grid);
    cells := marked;
    next := new bool[MAX_STAT + 1, MAX_STAT + 1]((i, j) => false);
    for k := 0 to |items|
      invariant forall ft: nat, ff: nat :: ft <= MAX_STAT && ff <= MAX_STAT ==> (next[ft, ff] <==> MarkedBy(cells, items, k, ft, ff))
    {
      MarkItem(next, cells, marked, items, k);
    }
  }

  method MarkItem(next: array2<bool>, ghost cells: seq<Item>, marked: seq<Item>, items: seq<Item>, k: nat)
    requires Sized(next) && k < |items| && marked == cells
    requires forall ft: nat, ff: nat :: ft <= MAX_STAT && ff <= MAX_STAT ==> (next[ft, ff] <==> MarkedBy(cells, items, k, ft, ff))
    modifies next
    ensures forall ft: nat, ff: nat :: ft <= MAX_STAT && ff <= MAX_STAT ==> (next[ft, ff] <==> MarkedBy(cells, items, k + 1, ft, ff))
  {
    hide MarkedBy;
    for n := 0 to |marked|
      invariant forall ft: nat, ff: nat :: ft <= MAX_STAT && ff <= MAX_STAT ==>
                  (next[ft, ff] <==> MarkedBy(cells, items, k, ft, ff) || Marked(cells, n, items, k, ft, ff))
    {
      next[Cap(marked[n].ft + items[k].ft), Cap(marked[n].ff + items[k].ff)] := true;
      forall ft: nat, ff: nat | ft <= MAX_STAT && ff <= MAX_STAT
        ensures Marked(cells, n + 1, items, k, ft, ff) <==> Marked(cells, n, items, k, ft, ff) || Leads(cells[n], items, k, ft, ff) {
      }
    }
    forall ft: nat, ff: nat ensures MarkedBy(cells, items, k + 1, ft, ff) <==> MarkedBy(cells, items, k, ft, ff) || Marked(cells, |cells|, items, k, ft, ff) {
      MarkedByNext(cells, items, k, ft, ff);
    }
  }

  lemma MarkedByNext(cells: seq<Item>, items: seq<Item>, k: nat, ft: nat, ff: nat)
    ensures MarkedBy(cells, items, k + 1, ft, ff) <==> MarkedBy(cells, items, k, ft, ff) || Marked(cells, |cells|, items, k, ft, ff)
  {
    hide Marked;
  }

  lemma MarkedAreKeys(fixed: Item, slots: seq<seq<Item>>, items: seq<Item>, cells: seq<Item>, ft: nat, ff: nat)
    requires forall c :: c in cells <==> c.ft <= MAX_STAT && c.ff <= MAX_STAT && IsKey(fixed, slots, c.ft, c.ff)
    ensures MarkedBy(cells, items, |items|, ft, ff) <==> IsKey(fixed, slots + [items], ft, ff)
  {
    OneMoreSlot(fixed, slots, items, ft, ff);
    if MarkedBy(cells, items, |items|, ft, ff) {
      var i: nat :| i < |items| && Marked(cells, |cells|, items, i, ft, ff);
      var m :| 0 <= m < |cells| && Leads(cells[m], items, i, ft, ff);
      assert cells[m] in cells;
    }
    if IsKey(fixed, slots + [items], ft, ff) {
      var from: Item, i: nat :| Leads(from, items, i, ft, ff) && IsKey(fixed, slots, from.ft, from.ff);
      assert from in cells;
      var m :| 0 <= m < |cells| && cells[m] == from;
      assert Marked(cells, |cells|, items, i, ft, ff);
    }
  }

  /** The capped (FT, FF) of every loadout that takes one item per slot, and no other. */
  method ReachableFtffKeys(fixed: Item, slots: seq<seq<Item>>) returns (reach: array2<bool>)
    ensures fresh(reach) && Sized(reach) && Marks(reach, fixed, slots)
  {
    hide IsKey, MarkedBy;
    reach := new bool[MAX_STAT + 1, MAX_STAT + 1]((i, j) => false);
    reach[Cap(fixed.ft), Cap(fixed.ff)] := true;
    forall ft: nat, ff: nat ensures IsKey(fixed, slots[..0], ft, ff) <==> Cap(fixed.ft) == ft && Cap(fixed.ff) == ff {
      NoSlots(fixed, slots[..0], ft, ff);
    }
    for s := 0 to |slots|
      invariant fresh(reach) && Sized(reach) && Marks(reach, fixed, slots[..s])
    {
      var next, cells := NextSlot(reach, slots[s]);
      forall ft: nat, ff: nat | ft <= MAX_STAT && ff <= MAX_STAT
        ensures next[ft, ff] <==> IsKey(fixed, slots[..s] + [slots[s]], ft, ff)
      {
        MarkedKeysOf(reach, fixed, slots[..s], slots[s], cells, ft, ff);
      }
      assert slots[..s + 1] == slots[..s] + [slots[s]];
      reach := next;
    }
    assert slots[..|slots|] == slots;
  }

  lemma MarkedKeysOf(grid: array2<bool>, fixed: Item, slots: seq<seq<Item>>, items: seq<Item>, cells: seq<Item>, ft: nat, ff: nat)
    requires Sized(grid) && Marks(grid, fixed, slots)
    requires forall c :: c in cells <==> c.ft <= MAX_STAT && c.ff <= MAX_STAT && grid[c.ft, c.ff]
    ensures MarkedBy(cells, items, |items|, ft, ff) <==> IsKey(fixed, slots + [items], ft, ff)
  {
    hide IsKey, MarkedBy;
    MarkedAreKeys(fixed, slots, items, cells, ft, ff);
  }

  lemma NoSlots(fixed: Item, slots: seq<seq<Item>>, ft: nat, ff: nat)
    requires slots == []
    ensures IsKey(fixed, slots, ft, ff) <==> Cap(fixed.ft) == ft && Cap(fixed.ff) == ff
  {
    assert IsChoice(slots, []);
  }
}
