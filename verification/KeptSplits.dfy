/** The gem search's FT/FF splits of each pre-gem (FT, FF) key (gear_optimizer/solver/gem_search.py, _kept_splits):
    per frontier a linked list of the splits that reach it, then the splits no other of the list beats. */
module KeptSplits {
  import opened Scoring
  import opened Wrappers
  import opened GemProblem
  import opened SplitOrder
  import opened SplitCaps

  const END: int := -1

  /** No split raises a color: the one with the most residual gems settles its frontier. */
  predicate Constant(t: Table) {
    (forall p :: 0 <= p < |t.primary| ==> t.primary[p] == 0) && (forall p :: 0 <= p < |t.secondary| ==> t.secondary[p] == 0)
  }

  // ---- One frontier's list.

  /** The split at an index of a list; END past it. */
  function At(q: seq<nat>, i: nat): int { if i < |q| then q[i] else END }

  /** The most residual gems of the list, the earliest such split. */
  ghost predicate IsBest(t: Table, q: seq<nat>, b: nat) {
    && b in q && b < |t.residual| && (forall p :: p in q ==> p < |t.residual|)
    && forall p :: p in q ==> t.residual[p] < t.residual[b] || (t.residual[p] == t.residual[b] && b <= p)
  }

  ghost predicate Links(q: seq<nat>, next: seq<int>) {
    forall i :: 0 <= i < |q| ==> q[i] < |next| && next[q[i]] == At(q, i + 1)
  }

  /** A frontier's cells hold the list q: stamped by key c when there is one. */
  ghost predicate Held(t: Table, q: seq<nat>, c: int, stamp: int, head: nat, tail: nat, best: nat, next: seq<int>) {
    && stamp <= c && (stamp == c <==> q != [])
    && (q != [] ==>
          && head == q[0] && IsBest(t, q, best)
          && if Constant(t) then head < |next| && next[head] == END else tail == q[|q| - 1] && Links(q, next))
  }

  lemma HeldElsewhere(t: Table, q: seq<nat>, c: int, stamp: int, head: nat, tail: nat, best: nat, next: seq<int>, next': seq<int>)
    requires Held(t, q, c, stamp, head, tail, best, next) && |next'| == |next|
    requires forall p :: p in q && p < |next| ==> next'[p] == next[p]
    ensures Held(t, q, c, stamp, head, tail, best, next')
  {
    hide Constant, IsBest;
  }

  lemma HeldFirst(t: Table, c: int, p: nat, next: seq<int>)
    requires p < |t.residual| && p < |next| && next[p] == END
    ensures Held(t, [p], c, c, p, p, p, next)
  {
  }

  lemma HeldMore(t: Table, q: seq<nat>, c: int, head: nat, tail: nat, best: nat, next: seq<int>, p: nat,
                 tail': nat, best': nat, next': seq<int>)
    requires q != [] && Held(t, q, c, c, head, tail, best, next) && |next| == |next'| == |t.residual| && p < |t.residual|
    requires Rising(q) && forall x :: x in q ==> x < p
    requires best' == if t.residual[p] > t.residual[best] then p else best
    requires if Constant(t) then next' == next else tail' == p && next' == next[tail := p][p := END]
    ensures Held(t, q + [p], c, c, head, tail', best', next')
  {
    hide Constant, IsBest;
    var more := q + [p];
    BestMore(t, q, best, p);
    if !Constant(t) { LinksMore(q, next, p, next'); }
  }

  lemma BestMore(t: Table, q: seq<nat>, best: nat, p: nat)
    requires IsBest(t, q, best) && p < |t.residual| && forall x :: x in q ==> x < p
    ensures IsBest(t, q + [p], if t.residual[p] > t.residual[best] then p else best)
  {
    assert forall x :: x in q + [p] <==> x in q || x == p;
  }

  lemma LinksMore(q: seq<nat>, next: seq<int>, p: nat, next': seq<int>)
    requires q != [] && Links(q, next) && Rising(q) && (forall x :: x in q ==> x < p) && p < |next|
    requires q[|q| - 1] < |next| && next' == next[q[|q| - 1] := p][p := END]
    ensures Links(q + [p], next')
  {
    var more := q + [p];
    forall i | 0 <= i < |more| ensures more[i] < |next'| && next'[more[i]] == At(more, i + 1) {
      if i < |q| {
        assert q[i] in q && next[q[i]] == At(q, i + 1);
        assert i < |q| - 1 ==> q[i] < q[|q| - 1];
      }
    }
  }

  /** The list's next split. */
  lemma Follow(q: seq<nat>, next: seq<int>, k: nat)
    requires Links(q, next)
    ensures if k < |q| then At(q, k) == q[k] && q[k] in q && q[k] < |next| && next[q[k]] == At(q, k + 1)
            else At(q, k) == END && At(q, k + 1) == END
  {
  }

  lemma HeadIs(t: Table, q: seq<nat>, head: nat, best: nat)
    requires q != [] && head == q[0] && IsBest(t, q, best)
    ensures At(q, 0) == head && best in q
  {
  }

  lemma BeatsIs(t: Table, o: nat, p: nat)
    requires Shaped(t) && o < |t.residual| && p < |t.residual|
    ensures Beats(t, o, p) <==> o != p && t.residual[o] >= t.residual[p] && (Value(t, o) > Value(t, p) || Matches(t, o, p))
  {
    hide Value, Matches;
  }

  /** None of the list's first n splits beats p. */
  ghost predicate NoneBeats(t: Table, q: seq<nat>, n: int, p: nat)
    requires Shaped(t) && p < |t.residual|
  {
    forall i :: 0 <= i < n && i < |q| ==> q[i] < |t.residual| && !Beats(t, q[i], p)
  }

  lemma BeatenOnList(t: Table, front: seq<int>, vis: seq<nat>, f: int, p: nat)
    requires Listed(t, front, vis) && p in OnFrontier(front, vis, f)
    ensures Beaten(t, front, vis, p) <==> exists o :: o in OnFrontier(front, vis, f) && Beats(t, o, p)
  {
    hide Beats;
    assert InFront(front, p, f);
    assert forall o :: o in OnFrontier(front, vis, f) <==> o in vis && InFront(front, o, f);
  }

  lemma UncoloredBeats(t: Table, o: nat, p: nat)
    requires Shaped(t) && Constant(t) && o < |t.residual| && p < |t.residual|
    ensures Beats(t, o, p) <==> t.residual[o] > t.residual[p] || (t.residual[o] == t.residual[p] && o < p)
  {
    if t.residual[p] <= t.residual[o] { ElementOrder(t.element, t.residual[p], t.residual[o]); }
  }

  /** Without colors the split of most residual gems beats every other of its list. */
  lemma ConstantBest(t: Table, front: seq<int>, vis: seq<nat>, f: int, q: seq<nat>, b: nat)
    requires Listed(t, front, vis) && Constant(t) && q == OnFrontier(front, vis, f) && IsBest(t, q, b)
    ensures forall p :: p in q ==> (Beaten(t, front, vis, p) <==> p != b)
  {
    hide Beats, Constant, OnFrontier;
    forall p | p in q ensures Beaten(t, front, vis, p) <==> p != b {
      BeatenOnList(t, front, vis, f, p);
      UncoloredBeats(t, b, p);
      forall o | o in q ensures !Beats(t, o, b) { UncoloredBeats(t, o, b); }
    }
  }

  lemma OnFrontierNext(front: seq<int>, vis: seq<nat>, p: nat, f: int)
    requires p < |front|
    ensures OnFrontier(front, vis + [p], f) == if front[p] == f then OnFrontier(front, vis, f) + [p] else OnFrontier(front, vis, f)
  {
    assert (vis + [p])[..|vis|] == vis;
  }

  lemma {:induction false} OnFrontierRises(front: seq<int>, vis: seq<nat>, f: int)
    requires Rising(vis)
    ensures Rising(OnFrontier(front, vis, f))
  {
    if vis != [] {
      LastIsMost(vis);
      OnFrontierRises(front, vis[..|vis| - 1], f);
      var rest := OnFrontier(front, vis[..|vis| - 1], f);
      assert forall i :: 0 <= i < |rest| ==> rest[i] in rest;
    }
  }

  lemma ReachedNext(front: seq<int>, vis: seq<nat>, p: nat)
    requires p < |front| && forall x :: x in vis ==> x < |front|
    ensures forall x :: x in vis + [p] ==> x < |front|
    ensures Reached(front, vis + [p])
         == if front[p] in Reached(front, vis) then Reached(front, vis) else Reached(front, vis) + [front[p]]
  {
    assert (vis + [p])[..|vis|] == vis;
  }

  lemma NotReached(front: seq<int>, vis: seq<nat>, f: int)
    requires forall x :: x in vis ==> x < |front|
    ensures f in Reached(front, vis) <==> OnFrontier(front, vis, f) != []
  {
    var q := OnFrontier(front, vis, f);
    if q != [] { assert q[0] in q && InFront(front, q[0], f); }
  }

  lemma {:induction false} ReachedAtMost(front: seq<int>, vis: seq<nat>, n: nat)
    requires Rising(vis) && (forall x :: x in vis ==> x < n) && n <= |front|
    ensures forall x :: x in vis ==> x < |front|
    ensures |Reached(front, vis)| <= n
    decreases n
  {
    if vis != [] {
      LastIsMost(vis);
      ReachedAtMost(front, vis[..|vis| - 1], n - 1);
      assert vis == vis[..|vis| - 1] + [vis[|vis| - 1]];
    }
  }

  // ---- Every frontier's list.

  datatype Cells = Cells(stamp: seq<int>, head: seq<nat>, tail: seq<nat>, best: seq<nat>, next: seq<int>)

  ghost predicate SameSize(t: Table, x: Cells) {
    && |x.head| == |x.stamp| && |x.tail| == |x.stamp| && |x.best| == |x.stamp| && |x.next| == |t.residual|
  }

  ghost predicate HeldAt(t: Table, front: seq<int>, vis: seq<nat>, c: int, x: Cells, f: nat)
    requires SameSize(t, x) && f < |x.stamp|
  {
    Held(t, OnFrontier(front, vis, f), c, x.stamp[f], x.head[f], x.tail[f], x.best[f], x.next)
  }

  ghost predicate AllHeld(t: Table, front: seq<int>, vis: seq<nat>, c: int, x: Cells) {
    SameSize(t, x) && forall f: nat :: f < |x.stamp| ==> HeldAt(t, front, vis, c, x, f)
  }

  ghost function CellsFirst(x: Cells, c: int, pos: nat, fid: nat): Cells
    requires fid < |x.stamp| && |x.head| == |x.stamp| && |x.tail| == |x.stamp| && |x.best| == |x.stamp| && pos < |x.next|
  {
    Cells(x.stamp[fid := c], x.head[fid := pos], x.tail[fid := pos], x.best[fid := pos], x.next[pos := END])
  }

  ghost function CellsMore(t: Table, x: Cells, pos: nat, fid: nat): Cells
    requires Shaped(t) && SameSize(t, x) && fid < |x.stamp| && pos < |x.next| && x.best[fid] < |x.next|
    requires x.tail[fid] < |x.next| || Constant(t)
  {
    var best := if t.residual[pos] > t.residual[x.best[fid]] then x.best[fid := pos] else x.best;
    if Constant(t) then x.(best := best)
    else x.(best := best, tail := x.tail[fid := pos], next := x.next[x.tail[fid] := pos][pos := END])
  }

  lemma CellHeld(t: Table, front: seq<int>, vis: seq<nat>, c: int, x: Cells, f: nat)
    requires AllHeld(t, front, vis, c, x) && Shaped(t) && f < |x.stamp|
    ensures SameSize(t, x) && HeldAt(t, front, vis, c, x, f)
    ensures x.stamp[f] <= c && (x.stamp[f] == c <==> OnFrontier(front, vis, f) != [])
    ensures x.stamp[f] == c ==> x.best[f] < |x.next| && (Constant(t) || x.tail[f] < |x.next|)
  {
    hide Constant;
    assert HeldAt(t, front, vis, c, x, f);
  }

  /** What a reached frontier's cells say of its list. */
  lemma ListOf(t: Table, front: seq<int>, vis: seq<nat>, c: int, x: Cells, f: nat)
    requires AllHeld(t, front, vis, c, x) && Listed(t, front, vis) && f < |x.stamp| && x.stamp[f] == c
    ensures SameSize(t, x)
    ensures var q := OnFrontier(front, vis, f);
            && q != [] && x.head[f] == q[0] && IsBest(t, q, x.best[f]) && (!Constant(t) ==> Links(q, x.next))
            && forall p :: p in q ==> p < |t.residual|
  {
    hide Constant;
    assert HeldAt(t, front, vis, c, x, f);
  }

  lemma AllHeldFirst(t: Table, front: seq<int>, vis: seq<nat>, c: int, x: Cells, pos: nat, fid: nat)
    requires AllHeld(t, front, vis, c, x) && Shaped(t) && pos < |t.residual| == |front| && fid < |x.stamp| && front[pos] == fid
    requires forall p :: p in vis ==> p < pos
    requires x.stamp[fid] != c
    ensures AllHeld(t, front, vis + [pos], c, CellsFirst(x, c, pos, fid))
  {
    hide Held, Constant;
    CellHeld(t, front, vis, c, x, fid);
    var y := CellsFirst(x, c, pos, fid);
    forall f: nat | f < |y.stamp| ensures HeldAt(t, front, vis + [pos], c, y, f) {
      OnFrontierNext(front, vis, pos, f);
      if f == fid {
        assert [] + [pos] == [pos];
        HeldFirst(t, c, pos, y.next);
      } else {
        assert HeldAt(t, front, vis, c, x, f);
        HeldElsewhere(t, OnFrontier(front, vis, f), c, x.stamp[f], x.head[f], x.tail[f], x.best[f], x.next, y.next);
      }
    }
  }

  lemma AllHeldMore(t: Table, front: seq<int>, vis: seq<nat>, c: int, x: Cells, pos: nat, fid: nat)
    requires AllHeld(t, front, vis, c, x) && Shaped(t) && pos < |t.residual| == |front| && fid < |x.stamp| && front[pos] == fid
    requires Rising(vis) && forall p :: p in vis ==> p < pos
    requires x.stamp[fid] == c
    ensures x.best[fid] < |x.next| && (Constant(t) || x.tail[fid] < |x.next|)
    ensures AllHeld(t, front, vis + [pos], c, CellsMore(t, x, pos, fid))
  {
    hide Held, Constant;
    CellHeld(t, front, vis, c, x, fid);
    var y, q := CellsMore(t, x, pos, fid), OnFrontier(front, vis, fid);
    HeldStamp(t, q, c, x.stamp[fid], x.head[fid], x.tail[fid], x.best[fid], x.next);
    OnFrontierRises(front, vis, fid);
    forall f: nat | f < |y.stamp| ensures HeldAt(t, front, vis + [pos], c, y, f) {
      OnFrontierNext(front, vis, pos, f);
      if f == fid {
        HeldMore(t, q, c, x.head[f], x.tail[f], x.best[f], x.next, pos, y.tail[f], y.best[f], y.next);
      } else {
        assert HeldAt(t, front, vis, c, x, f);
        HeldElsewhere(t, OnFrontier(front, vis, f), c, x.stamp[f], x.head[f], x.tail[f], x.best[f], x.next, y.next);
      }
    }
  }

  // ---- The rows written.

  /** A kept split: its residual gems, its primary and secondary gain, its frontier, its position. */
  datatype SplitRow = SplitRow(residual: nat, primary: nat, secondary: nat, frontier: int, split: nat)

  function RowAt(t: Table, front: seq<int>, p: nat): SplitRow
    requires Shaped(t) && p < |t.residual| == |front|
  {
    SplitRow(t.residual[p], t.primary[p], t.secondary[p], front[p], p)
  }

  predicate Within(ps: seq<nat>, n: nat) { forall i :: 0 <= i < |ps| ==> ps[i] < n }

  lemma AllWithin(ps: seq<nat>, n: nat)
    ensures Within(ps, n) <==> forall p :: p in ps ==> p < n
  {
    assert forall i :: 0 <= i < |ps| ==> ps[i] in ps;
  }

  ghost function RowsOf(t: Table, front: seq<int>, ps: seq<nat>): (r: seq<SplitRow>)
    requires Shaped(t) && |front| == |t.residual| && Within(ps, |front|)
    ensures |r| == |ps| && forall i :: 0 <= i < |ps| ==> r[i] == RowAt(t, front, ps[i])
  {
    seq(|ps|, i requires 0 <= i < |ps| => RowAt(t, front, ps[i]))
  }

  lemma RowsOfMore(t: Table, front: seq<int>, ps: seq<nat>, p: nat)
    requires Shaped(t) && p < |t.residual| == |front| && Within(ps, |front|)
    ensures Within(ps + [p], |front|)
    ensures RowsOf(t, front, ps + [p]) == RowsOf(t, front, ps) + [SplitRow(t.residual[p], t.primary[p], t.secondary[p], front[p], p)]
  {
  }

  lemma RowsOfBoth(t: Table, front: seq<int>, ps: seq<nat>, qs: seq<nat>)
    requires Shaped(t) && |front| == |t.residual| && Within(ps, |front|) && Within(qs, |front|)
    ensures Within(ps + qs, |front|)
    ensures RowsOf(t, front, ps + qs) == RowsOf(t, front, ps) + RowsOf(t, front, qs)
  {
  }

  lemma InList(t: Table, front: seq<int>, vis: seq<nat>, f: int, p: nat)
    requires Listed(t, front, vis) && p in OnFrontier(front, vis, f)
    ensures p < |t.residual| && front[p] == f
  {
    assert InFront(front, p, f);
  }

  /** The unbeaten of a list's first k splits. */
  ghost function UnbeatenTo(t: Table, front: seq<int>, vis: seq<nat>, q: seq<nat>, k: nat): (r: seq<nat>)
    requires Listed(t, front, vis) && k <= |q| && Within(q, |front|)
    ensures Within(r, |front|)
  {
    AllWithin(q[..k], |front|);
    AllWithin(Unbeaten(t, front, vis, q[..k]), |front|);
    Unbeaten(t, front, vis, q[..k])
  }

  lemma UnbeatenAll(t: Table, front: seq<int>, vis: seq<nat>, q: seq<nat>)
    requires Listed(t, front, vis) && Within(q, |front|)
    ensures UnbeatenTo(t, front, vis, q, 0) == []
    ensures (forall p :: p in q ==> p < |front|) && UnbeatenTo(t, front, vis, q, |q|) == Unbeaten(t, front, vis, q)
    ensures Within(Unbeaten(t, front, vis, q), |front|)
  {
    AllWithin(q, |front|);
    assert q[..|q|] == q;
  }

  lemma UnbeatenNext(t: Table, front: seq<int>, vis: seq<nat>, q: seq<nat>, k: nat)
    requires Listed(t, front, vis) && k < |q| && Within(q, |front|)
    ensures UnbeatenTo(t, front, vis, q, k + 1)
         == if Beaten(t, front, vis, q[k]) then UnbeatenTo(t, front, vis, q, k) else UnbeatenTo(t, front, vis, q, k) + [q[k]]
  {
    hide Beaten;
    assert q[..k + 1][..k] == q[..k];
  }

  lemma {:induction false} UnbeatenRises(t: Table, front: seq<int>, vis: seq<nat>, some: seq<nat>)
    requires Listed(t, front, vis) && Rising(some) && forall p :: p in some ==> p < |front|
    ensures Rising(Unbeaten(t, front, vis, some))
  {
    hide Beaten;
    if some != [] {
      LastIsMost(some);
      UnbeatenRises(t, front, vis, some[..|some| - 1]);
      var rest := Unbeaten(t, front, vis, some[..|some| - 1]);
      assert forall i :: 0 <= i < |rest| ==> rest[i] in rest;
    }
  }

  lemma OnlyBest(t: Table, front: seq<int>, vis: seq<nat>, f: int, q: seq<nat>, b: nat)
    requires Listed(t, front, vis) && Constant(t) && q == OnFrontier(front, vis, f) && IsBest(t, q, b)
    requires forall p :: p in q ==> p < |front|
    ensures Unbeaten(t, front, vis, q) == [b]
  {
    hide Beaten, Unbeaten, OnFrontier, Constant;
    ConstantBest(t, front, vis, f, q, b);
    OnFrontierRises(front, vis, f);
    UnbeatenRises(t, front, vis, q);
    RisingAreSame(Unbeaten(t, front, vis, q), [b]);
  }

  // ---- The lists.

  /** Per frontier, when its stamp is the key's: the first and last split of its list, and the split with the most
      residual gems; per split the next one of its list; the frontiers reached, in order. */
  class Lists {
    const stamp: array<int>
    const head: array<nat>
    const tail: array<nat>
    const best: array<nat>
    const next: array<int>
    const reached: array<nat>
    var count: nat

    constructor (frontiers: nat, splits: nat)
      ensures fresh(stamp) && fresh(head) && fresh(tail) && fresh(best) && fresh(next) && fresh(reached)
      ensures Sized() && stamp.Length == frontiers && next.Length == splits && count == 0
      ensures forall f :: 0 <= f < frontiers ==> stamp[f] == -1
    {
      stamp := new int[frontiers](_ => -1);
      head, tail, best := new nat[frontiers](_ => 0), new nat[frontiers](_ => 0), new nat[frontiers](_ => 0);
      next, reached := new int[splits](_ => END), new nat[splits](_ => 0);
      count := 0;
    }

    ghost predicate Sized() {
      && head.Length == stamp.Length && tail.Length == stamp.Length && best.Length == stamp.Length
      && reached.Length == next.Length
      && head != tail && head != best && tail != best && head != reached && tail != reached && best != reached && stamp != next
    }

    /** The lists hold the splits of `vis`, each on the frontier it reaches. */
    ghost predicate HoldAll(t: Table, front: seq<int>, vis: seq<nat>, c: int)
      reads this, stamp, head, tail, best, next, reached
    {
      && Sized() && next.Length == |t.residual| && Listed(t, front, vis)
      && (forall p :: p in vis ==> InRange(front, p))
      && AllHeld(t, front, vis, c, View())
      && ReachedAre(front, vis)
    }

    ghost predicate InRange(front: seq<int>, p: nat) { p < |front| && 0 <= front[p] < stamp.Length }

    ghost predicate ReachedAre(front: seq<int>, vis: seq<nat>)
      requires forall x :: x in vis ==> x < |front|
      reads this, reached
    {
      count <= reached.Length && reached[..count] == Reached(front, vis)
    }

    /** No split yet: a new key's lists. */
    method Start(t: Table, ghost front: seq<int>, c: int)
      requires Sized() && next.Length == |t.residual| && Listed(t, front, [])
      requires forall f :: 0 <= f < stamp.Length ==> stamp[f] < c
      modifies `count
      ensures HoldAll(t, front, [], c)
    {
      count := 0;
    }

    /** Adds a split to the list of the frontier it reaches. */
    method Visit(t: Table, ghost front: seq<int>, ghost vis: seq<nat>, c: int, pos: nat, fid: nat)
      requires HoldAll(t, front, vis, c) && pos < |t.residual| && fid < stamp.Length && front[pos] == fid
      requires forall p :: p in vis ==> p < pos
      modifies `count, stamp, head, tail, best, next, reached
      ensures HoldAll(t, front, vis + [pos], c)
    {
      hide HoldAll;
      if stamp[fid] != c {
        VisitFirst(t, front, vis, c, pos, fid);
      } else {
        VisitMore(t, front, vis, c, pos, fid);
      }
    }

    ghost function View(): Cells
      reads stamp, head, tail, best, next
    {
      Cells(stamp[..], head[..], tail[..], best[..], next[..])
    }

    method VisitFirst(t: Table, ghost front: seq<int>, ghost vis: seq<nat>, c: int, pos: nat, fid: nat)
      requires HoldAll(t, front, vis, c) && pos < |t.residual| && fid < stamp.Length && front[pos] == fid
      requires forall p :: p in vis ==> p < pos
      requires stamp[fid] != c
      modifies `count, stamp, head, tail, best, next, reached
      ensures HoldAll(t, front, vis + [pos], c)
    {
      hide AllHeld, Constant, CellsFirst, OnFrontier, Reached;
      ghost var x := View();
      CellHeld(t, front, vis, c, x, fid);
      NotReached(front, vis, fid);
      ReachedNext(front, vis, pos);
      ReachedAtMost(front, vis, pos);
      ListedMore(t, front, vis, pos);
      First(c, pos, fid);
      AllHeldFirst(t, front, vis, c, x, pos, fid);
    }

    method VisitMore(t: Table, ghost front: seq<int>, ghost vis: seq<nat>, c: int, pos: nat, fid: nat)
      requires HoldAll(t, front, vis, c) && pos < |t.residual| && fid < stamp.Length && front[pos] == fid
      requires forall p :: p in vis ==> p < pos
      requires stamp[fid] == c
      modifies tail, best, next
      ensures HoldAll(t, front, vis + [pos], c)
    {
      hide AllHeld, Constant, CellsMore, OnFrontier, Reached;
      ghost var x := View();
      CellHeld(t, front, vis, c, x, fid);
      NotReached(front, vis, fid);
      ReachedNext(front, vis, pos);
      ListedMore(t, front, vis, pos);
      More(t, pos, fid);
      AllHeldMore(t, front, vis, c, x, pos, fid);
    }

    method First(c: int, pos: nat, fid: nat)
      requires Sized() && pos < next.Length && fid < stamp.Length && count < reached.Length
      modifies `count, stamp, head, tail, best, next, reached
      ensures View() == CellsFirst(old(View()), c, pos, fid)
      ensures count == old(count) + 1 && reached[..count] == old(reached[..count]) + [fid]
    {
      stamp[fid] := c;
      head[fid] := pos;
      tail[fid] := pos;
      best[fid] := pos;
      next[pos] := END;
      reached[count] := fid;
      count := count + 1;
    }

    method More(t: Table, pos: nat, fid: nat)
      requires Sized() && Shaped(t) && next.Length == |t.residual| && pos < next.Length && fid < stamp.Length
      requires tail[fid] < next.Length || Constant(t)
      requires best[fid] < next.Length
      modifies tail, best, next
      ensures View() == CellsMore(t, old(View()), pos, fid)
    {
      if !Constant(t) {
        next[tail[fid]] := pos;
        next[pos] := END;
        tail[fid] := pos;
      }
      if t.residual[pos] > t.residual[best[fid]] {
        best[fid] := pos;
      }
    }

    /** One FT gem count's splits, until the FF stat stops moving on a capped axis; false when the frontiers do not
        cover a split. */
    method CollectRow(t: Table, budget: nat, ffCaps: bool, index: seq<seq<int>>, ghost key: Key, ghost front: seq<int>,
                      ghost vis: seq<nat>, c: int, ft: nat, firstOfRow: nat, ftStat: nat, ffStats: array<nat>)
      returns (covered: bool, ghost vis': seq<nat>)
      requires Shaped(t) && budget >= 1 && |t.residual| == SplitCount(budget) && ValidIndex(index) && Below(index, stamp.Length)
      requires ft <= budget && firstOfRow == RowStart(budget, ft) <= SplitCount(budget) && front == Fronts(index, key, budget)
      requires ffCaps == FfCaps(t, budget) && Open(FtCaps(t, budget), key.ft, ft)
      requires ftStat == Stat(key.ft, ft) && ffStats != head && ffStats != tail && ffStats != best && ffStats != reached
      requires StatsAre(ffStats[..], key.ff, budget)
      requires vis == Visited(t, budget, key, firstOfRow) && HoldAll(t, front, vis, c)
      modifies `count, stamp, head, tail, best, next, reached
      ensures RowStart(budget, ft + 1) <= SplitCount(budget)
      ensures covered ==> vis' == Visited(t, budget, key, RowStart(budget, ft + 1)) && HoldAll(t, front, vis', c)
      ensures !covered ==> Uncovered(t, budget, index, key)
    {
      hide HoldAll, FfCaps, FtCaps, Fronts, SplitCount, Visited, Visits, Open, Stat, RowStart;
      NextRow(budget, ft);
      vis' := vis;
      var ff, ffTop := 0, budget - ft;
      OpenAtZero(ffCaps, key.ff);
      while ff <= ffTop
        invariant 0 <= ff <= ffTop + 1 && firstOfRow + ff <= SplitCount(budget)
        invariant vis' == Visited(t, budget, key, firstOfRow + ff) && HoldAll(t, front, vis', c)
        invariant ff <= ffTop ==> Open(ffCaps, key.ff, ff)
      {
        var fid, pos := index[ftStat][ffStats[ff]], firstOfRow + ff;
        LookUp(budget, index, key, ft, ff);
        VisitedNext(t, budget, key, ft, ff);
        if fid < 0 {
          UncoveredAt(t, budget, index, key, pos);
          return false, vis';
        }
        Visit(t, front, vis', c, pos, fid);
        vis' := vis' + [pos];
        OpenNext(ffCaps, key.ff, ff);
        ff := ff + 1;
        if ffCaps && ff <= ffTop && ffStats[ff] == ffStats[ff - 1] {
          break;
        }
      }
      covered := true;
      RestOfRow(t, budget, key, ft, ff);
    }

    /** A key's lists: every split looked at, on the frontier it reaches. */
    method Collect(t: Table, budget: nat, ffCaps: bool, ftCaps: bool, index: seq<seq<int>>, key: Key, c: int,
                   ftStats: array<nat>, ffStats: array<nat>)
      returns (covered: bool)
      requires Shaped(t) && budget >= 1 && |t.residual| == SplitCount(budget) && ValidIndex(index) && Below(index, stamp.Length)
      requires ffCaps == FfCaps(t, budget) && ftCaps == FtCaps(t, budget)
      requires StatsAre(ftStats[..], key.ft, budget) && StatsAre(ffStats[..], key.ff, budget)
      requires Sized() && next.Length == |t.residual| && forall f :: 0 <= f < stamp.Length ==> stamp[f] < c
      requires ftStats != head && ftStats != tail && ftStats != best && ftStats != reached
      requires ffStats != head && ffStats != tail && ffStats != best && ffStats != reached
      modifies `count, stamp, head, tail, best, next, reached
      ensures covered <==> !Uncovered(t, budget, index, key)
      ensures covered ==> HoldAll(t, Fronts(index, key, budget), Visited(t, budget, key, SplitCount(budget)), c)
    {
      hide HoldAll, FfCaps, FtCaps, Fronts, SplitCount, Visited, Visits, Open, Stat, RowStart;
      ghost var front := Fronts(index, key, budget);
      NothingYet(t, budget, index, key);
      Start(t, front, c);
      ghost var vis: seq<nat> := [];
      var firstOfRow, ft := 0, 0;
      OpenAtZero(ftCaps, key.ft);
      while ft <= budget
        invariant 0 <= ft <= budget + 1 && firstOfRow == RowStart(budget, ft) <= SplitCount(budget)
        invariant vis == Visited(t, budget, key, firstOfRow) && HoldAll(t, front, vis, c)
        invariant ft <= budget ==> Open(ftCaps, key.ft, ft)
      {
        covered, vis := CollectRow(t, budget, ffCaps, index, key, front, vis, c, ft, firstOfRow, ftStats[ft], ffStats);
        if !covered {
          return;
        }
        NextRow(budget, ft);
        firstOfRow := firstOfRow + (budget + 1 - ft);
        OpenNext(ftCaps, key.ft, ft);
        ft := ft + 1;
        if ftCaps && ft <= budget && ftStats[ft] == ftStats[ft - 1] {
          break;
        }
      }
      RestOfTable(t, budget, key, ft);
      AllCovered(t, budget, index, key, c);
      covered := true;
    }

    /** Whether another split of its frontier beats `row`: the frontier's best one first, then each of its list. */
    method Dominated(t: Table, ghost front: seq<int>, ghost vis: seq<nat>, c: int, fid: nat, row: nat) returns (dominated: bool)
      requires HoldAll(t, front, vis, c) && fid < stamp.Length && stamp[fid] == c
      requires row in OnFrontier(front, vis, fid) && (Constant(t) ==> row == best[fid])
      ensures dominated <==> Beaten(t, front, vis, row)
    {
      hide AllHeld, Constant, OnFrontier, Value, Matches, Reached, IsBest, Links, Beats;
      ghost var q := OnFrontier(front, vis, fid);
      ListOf(t, front, vis, c, View(), fid);
      dominated := false;
      var other: int := best[fid];
      var rest: int := if Constant(t) then END else head[fid];
      ghost var k := 0;
      HeadIs(t, q, head[fid], best[fid]);
      while other >= 0 && !dominated
        invariant other != END ==> other in q && other < |t.residual|
        invariant !Constant(t) && k > 0 ==> k - 1 <= |q|
        invariant !Constant(t) ==> rest == At(q, k) && (other == if k == 0 then best[fid] else At(q, k - 1))
        invariant Constant(t) ==> rest == END && (other == best[fid] || other == END)
        invariant dominated ==> exists o :: o in q && Beats(t, o, row)
        invariant !dominated && !Constant(t) ==> NoneBeats(t, q, k - 1, row)
        decreases if dominated then 0 else 1, if Constant(t) then (if other == END then 0 else 1) else |q| + 2 - k
      {
        if !Constant(t) { Follow(q, next[..], k); }
        BeatsIs(t, other, row);
        if other != row && t.residual[other] >= t.residual[row] && (Value(t, other) > Value(t, row) || Matches(t, other, row)) {
          dominated := true;
        }
        other, rest := rest, if rest >= 0 then next[rest] else END;
        k := k + 1;
      }
      if Constant(t) {
        ConstantBest(t, front, vis, fid, q, best[fid]);
      } else {
        assert dominated <==> exists o :: o in q && Beats(t, o, row);
      }
      BeatenOnList(t, front, vis, fid, row);
    }

    /** Writes a split unless another on its frontier beats it. */
    method WriteRow(t: Table, ghost front: seq<int>, ghost vis: seq<nat>, c: int, fid: nat, row: nat,
                    ghost start: seq<SplitRow>, rows: seq<SplitRow>, ghost written: seq<nat>)
      returns (rows': seq<SplitRow>, ghost written': seq<nat>)
      requires HoldAll(t, front, vis, c) && fid < stamp.Length && stamp[fid] == c
      requires row in OnFrontier(front, vis, fid) && (Constant(t) ==> row == best[fid])
      requires Shaped(t) && |front| == |t.residual| && Within(written, |front|) && rows == start + RowsOf(t, front, written)
      ensures row < |front| && written' == if Beaten(t, front, vis, row) then written else written + [row]
      ensures Within(written', |front|) && rows' == start + RowsOf(t, front, written')
    {
      rows', written' := rows, written;
      InList(t, front, vis, fid, row);
      hide HoldAll, OnFrontier, Beaten, Constant;
      var dominated := Dominated(t, front, vis, c, fid, row);
      if !dominated {
        RowsOfMore(t, front, written, row);
        rows', written' := rows + [SplitRow(t.residual[row], t.primary[row], t.secondary[row], fid, row)], written + [row];
      }
    }

    /** Writes a frontier's splits that no other there beats. */
    method WriteFrontier(t: Table, ghost front: seq<int>, ghost vis: seq<nat>, c: int, fid: nat, rows: seq<SplitRow>)
      returns (rows': seq<SplitRow>)
      requires HoldAll(t, front, vis, c) && fid < stamp.Length && stamp[fid] == c
      ensures forall p :: p in OnFrontier(front, vis, fid) ==> p < |front|
      ensures Within(Unbeaten(t, front, vis, OnFrontier(front, vis, fid)), |front|)
      ensures rows' == rows + RowsOf(t, front, Unbeaten(t, front, vis, OnFrontier(front, vis, fid)))
    {
      hide AllHeld, Constant, OnFrontier, Unbeaten, UnbeatenTo, Beaten, Reached, IsBest, Links, RowAt, HoldAll;
      ghost var q := OnFrontier(front, vis, fid);
      Linked(t, front, vis, c, fid);
      HeadIs(t, q, head[fid], best[fid]);
      UnbeatenAll(t, front, vis, q);
      ghost var written: seq<nat>, k := [], 0;
      rows' := rows;
      if Constant(t) {
        // Without colors the frontier's best split is its list.
        ConstantBest(t, front, vis, fid, q, best[fid]);
        OnlyBest(t, front, vis, fid, q, best[fid]);
        rows', written := WriteRow(t, front, vis, c, fid, best[fid], rows, rows, []);
        return;
      }
      var row: int := head[fid];
      while row >= 0
        invariant k <= |q| && row == At(q, k) && written == UnbeatenTo(t, front, vis, q, k)
        invariant Within(written, |front|) && rows' == rows + RowsOf(t, front, written)
        decreases |q| - k
      {
        Follow(q, next[..], k);
        UnbeatenNext(t, front, vis, q, k);
        rows', written := WriteRow(t, front, vis, c, fid, row, rows, rows', written);
        row := next[row];
        k := k + 1;
      }
    }

    lemma Linked(t: Table, front: seq<int>, vis: seq<nat>, c: int, f: nat)
      requires HoldAll(t, front, vis, c) && f < stamp.Length && stamp[f] == c
      ensures Sized() && next.Length == |t.residual| && Listed(t, front, vis)
      ensures var q := OnFrontier(front, vis, f);
              && q != [] && head[f] == q[0] && IsBest(t, q, best[f]) && (!Constant(t) ==> Links(q, next[..]))
              && Within(q, |front|)
    {
      hide AllHeld, Constant, OnFrontier, Reached;
      AllWithin(OnFrontier(front, vis, f), |front|);
      ListOf(t, front, vis, c, View(), f);
    }

    /** Writes a key's kept splits, frontier by frontier as first reached. */
    method WriteKey(t: Table, ghost front: seq<int>, ghost vis: seq<nat>, c: int, rows: seq<SplitRow>) returns (rows': seq<SplitRow>)
      requires HoldAll(t, front, vis, c)
      ensures Sized() && Listed(t, front, vis) && Within(Kept(t, front, vis), |front|)
      ensures rows' == rows + RowsOf(t, front, Kept(t, front, vis))
    {
      hide AllHeld, Constant, OnFrontier, Unbeaten, Beaten, Reached, KeptOn, RowAt;
      rows' := rows;
      ghost var fs, written: seq<nat> := Reached(front, vis), [];
      KeptOnNone(t, front, vis);
      for r := 0 to count
        invariant written == KeptOn(t, front, vis, fs[..r])
        invariant Within(written, |front|) && rows' == rows + RowsOf(t, front, written)
      {
        var fid := reached[r];
        assert fid == reached[..count][r] == fs[r];
        StampOf(t, front, vis, c, fid);
        KeptOnNext(t, front, vis, fs, r);
        rows' := WriteFrontier(t, front, vis, c, fid, rows');
        RowsOfBoth(t, front, written, Unbeaten(t, front, vis, OnFrontier(front, vis, fid)));
        written := written + Unbeaten(t, front, vis, OnFrontier(front, vis, fid));
      }
      assert fs[..count] == fs;
    }

    lemma StampOf(t: Table, front: seq<int>, vis: seq<nat>, c: int, f: int)
      requires HoldAll(t, front, vis, c) && f in Reached(front, vis)
      ensures Sized() && 0 <= f < stamp.Length && stamp[f] == c
    {
      hide AllHeld, OnFrontier;
      NotReached(front, vis, f);
      var q := OnFrontier(front, vis, f);
      assert q[0] in q && InFront(front, q[0], f);
      CellHeld(t, front, vis, c, View(), f);
    }

    lemma StampsUpTo(t: Table, front: seq<int>, vis: seq<nat>, c: int)
      requires HoldAll(t, front, vis, c)
      ensures forall f :: 0 <= f < stamp.Length ==> stamp[f] <= c
    {
      hide AllHeld, OnFrontier, Reached;
      forall f | 0 <= f < stamp.Length ensures stamp[f] <= c { CellHeld(t, front, vis, c, View(), f); }
    }

    lemma AllCovered(t: Table, budget: nat, index: seq<seq<int>>, key: Key, c: int)
      requires Shaped(t) && budget >= 1 && |t.residual| == SplitCount(budget) && ValidIndex(index)
      requires HoldAll(t, Fronts(index, key, budget), Visited(t, budget, key, SplitCount(budget)), c)
      ensures !Uncovered(t, budget, index, key)
    {
      hide AllHeld, Fronts, Visits, SplitCount;
    }
  }

  lemma KeptOnNone(t: Table, front: seq<int>, vis: seq<nat>)
    requires Listed(t, front, vis)
    ensures KeptOn(t, front, vis, Reached(front, vis)[..0]) == []
  {
  }

  lemma KeptOnNext(t: Table, front: seq<int>, vis: seq<nat>, fs: seq<int>, r: nat)
    requires Listed(t, front, vis) && r < |fs|
    ensures forall p :: p in OnFrontier(front, vis, fs[r]) ==> p < |front|
    ensures KeptOn(t, front, vis, fs[..r + 1])
         == KeptOn(t, front, vis, fs[..r]) + Unbeaten(t, front, vis, OnFrontier(front, vis, fs[r]))
  {
    assert fs[..r + 1][..r] == fs[..r];
  }

  // ---- Every key.

  ghost predicate Ready(t: Table, budget: nat, index: seq<seq<int>>, frontiers: nat) {
    && Shaped(t) && budget >= 1 && |t.residual| == SplitCount(budget) && ValidIndex(index) && Below(index, frontiers)
  }

  /** The rows of a key: the splits looked at that no other of them on their frontier beats. */
  ghost function KeyRows(t: Table, budget: nat, index: seq<seq<int>>, key: Key): seq<SplitRow>
    requires Shaped(t) && budget >= 1 && |t.residual| == SplitCount(budget) && ValidIndex(index)
  {
    var front, vis := Fronts(index, key, budget), Visited(t, budget, key, SplitCount(budget));
    ListsAre(t, budget, key, index);
    AllWithin(Kept(t, front, vis), |front|);
    RowsOf(t, front, Kept(t, front, vis))
  }

  ghost function AllRows(t: Table, budget: nat, index: seq<seq<int>>, keys: seq<Key>): seq<SplitRow>
    requires Shaped(t) && budget >= 1 && |t.residual| == SplitCount(budget) && ValidIndex(index)
  {
    if keys == [] then []
    else AllRows(t, budget, index, keys[..|keys| - 1]) + KeyRows(t, budget, index, keys[|keys| - 1])
  }

  lemma AllRowsNext(t: Table, budget: nat, index: seq<seq<int>>, keys: seq<Key>, c: nat)
    requires Shaped(t) && budget >= 1 && |t.residual| == SplitCount(budget) && ValidIndex(index) && c < |keys|
    ensures AllRows(t, budget, index, keys[..c + 1]) == AllRows(t, budget, index, keys[..c]) + KeyRows(t, budget, index, keys[c])
  {
    assert keys[..c + 1][..c] == keys[..c];
  }

  method FillStats(stats: array<nat>, key: int)
    requires stats.Length > 0
    modifies stats
    ensures StatsAre(stats[..], key, stats.Length - 1)
  {
    hide Stat;
    for gems := 0 to stats.Length
      invariant forall g :: 0 <= g < gems ==> stats[g] == Stat(key, g)
    {
      stats[gems] := Stat(key, gems);
    }
  }

  /** One key's rows, written after the others. */
  method KeySplits(lists: Lists, t: Table, budget: nat, ffCaps: bool, ftCaps: bool, index: seq<seq<int>>, key: Key, c: int,
                   ftStats: array<nat>, ffStats: array<nat>, rows: seq<SplitRow>)
    returns (covered: bool, rows': seq<SplitRow>)
    requires Ready(t, budget, index, lists.stamp.Length)
    requires ffCaps == FfCaps(t, budget) && ftCaps == FtCaps(t, budget)
    requires ftStats.Length == ffStats.Length == budget + 1 && ftStats != ffStats
    requires lists.Sized() && lists.next.Length == |t.residual| && forall f :: 0 <= f < lists.stamp.Length ==> lists.stamp[f] < c
    requires {ftStats, ffStats} !! {lists.head, lists.tail, lists.best, lists.reached}
    modifies lists`count, lists.stamp, lists.head, lists.tail, lists.best, lists.next, lists.reached, ftStats, ffStats
    ensures covered <==> !Uncovered(t, budget, index, key)
    ensures covered ==> rows' == rows + KeyRows(t, budget, index, key)
    ensures covered ==> lists.Sized() && forall f :: 0 <= f < lists.stamp.Length ==> lists.stamp[f] <= c
  {
    hide FfCaps, FtCaps, SplitCount, Visited, Fronts, Kept, Uncovered, KeyRows;
    FillStats(ftStats, key.ft);
    FillStats(ffStats, key.ff);
    covered := lists.Collect(t, budget, ffCaps, ftCaps, index, key, c, ftStats, ffStats);
    rows' := rows;
    if covered {
      ghost var front, vis := Fronts(index, key, budget), Visited(t, budget, key, SplitCount(budget));
      rows' := lists.WriteKey(t, front, vis, c, rows);
      lists.StampsUpTo(t, front, vis, c);
      KeyRowsAre(t, budget, index, key);
    }
  }

  /** The kept splits of each key, flat in key order, and how many each key has; none when the frontiers do not cover a
      split of some key. */
  method KeptSplits(keys: seq<Key>, t: Table, index: seq<seq<int>>, frontiers: nat)
    returns (r: Option<(seq<SplitRow>, seq<nat>)>)
    requires |t.residual| > 0 && Ready(t, t.residual[0], index, frontiers)
    ensures r.None? <==> exists c :: 0 <= c < |keys| && Uncovered(t, t.residual[0], index, keys[c])
    ensures r.Some? ==>
              && r.value.0 == AllRows(t, t.residual[0], index, keys)
              && |r.value.1| == |keys|
              && forall c :: 0 <= c < |keys| ==> r.value.1[c] == |KeyRows(t, t.residual[0], index, keys[c])|
  {
    hide FfCaps, FtCaps, SplitCount, Uncovered, Caps, KeyRows, AllRows;
    var budget := t.residual[0];
    CapsAre(t, budget);
    var ffCaps, ftCaps := Caps(t, 1), Caps(t, budget + 1);
    var lists := new Lists(frontiers, |t.residual|);
    var ftStats, ffStats := new nat[budget + 1], new nat[budget + 1];
    var rows, counts: seq<nat> := [], [];
    NoRows(t, budget, index, keys);
    for c := 0 to |keys|
      invariant lists.Sized() && forall f :: 0 <= f < frontiers ==> lists.stamp[f] < c
      invariant rows == AllRows(t, budget, index, keys[..c]) && |counts| == c
      invariant forall i :: 0 <= i < c ==> counts[i] == |KeyRows(t, budget, index, keys[i])|
      invariant forall i :: 0 <= i < c ==> !Uncovered(t, budget, index, keys[i])
    {
      var start := |rows|;
      var covered;
      covered, rows := KeySplits(lists, t, budget, ffCaps, ftCaps, index, keys[c], c, ftStats, ffStats, rows);
      if !covered {
        return None;
      }
      AllRowsNext(t, budget, index, keys, c);
      counts := counts + [|rows| - start];
    }
    assert keys[..|keys|] == keys;
    return Some((rows, counts));
  }

  lemma NoRows(t: Table, budget: nat, index: seq<seq<int>>, keys: seq<Key>)
    requires Shaped(t) && budget >= 1 && |t.residual| == SplitCount(budget) && ValidIndex(index)
    ensures AllRows(t, budget, index, keys[..0]) == []
  {
  }

  lemma CapsAre(t: Table, budget: nat)
    requires Shaped(t) && budget >= 1 && |t.residual| == SplitCount(budget)
    ensures budget + 1 < |t.residual| && Caps(t, 1) == FfCaps(t, budget) && Caps(t, budget + 1) == FtCaps(t, budget)
  {
    AxisStarts(budget);
  }

  lemma KeyRowsAre(t: Table, budget: nat, index: seq<seq<int>>, key: Key)
    requires Shaped(t) && budget >= 1 && |t.residual| == SplitCount(budget) && ValidIndex(index)
    ensures var front, vis := Fronts(index, key, budget), Visited(t, budget, key, SplitCount(budget));
            && Listed(t, front, vis) && Within(Kept(t, front, vis), |front|)
            && KeyRows(t, budget, index, key) == RowsOf(t, front, Kept(t, front, vis))
  {
    ListsAre(t, budget, key, index);
    AllWithin(Kept(t, Fronts(index, key, budget), Visited(t, budget, key, SplitCount(budget))), SplitCount(budget));
  }

  // ---- The splits looked at, row by row.

  predicate Below(index: seq<seq<int>>, frontiers: nat)
    requires ValidIndex(index)
  {
    forall i, j :: 0 <= i <= MAX_STAT && 0 <= j <= MAX_STAT ==> index[i][j] < frontiers
  }

  predicate StatsAre(stats: seq<nat>, key: int, budget: nat) {
    |stats| == budget + 1 && forall g :: 0 <= g <= budget ==> stats[g] == Stat(key, g)
  }

  /** Some split looked at reaches no frontier. */
  ghost predicate Uncovered(t: Table, budget: nat, index: seq<seq<int>>, key: Key)
    requires Shaped(t) && budget >= 1 && |t.residual| == SplitCount(budget) && ValidIndex(index)
  {
    exists p :: p in Visited(t, budget, key, SplitCount(budget)) && Fronts(index, key, budget)[p] < 0
  }

  lemma UncoveredAt(t: Table, budget: nat, index: seq<seq<int>>, key: Key, p: nat)
    requires Shaped(t) && budget >= 1 && |t.residual| == SplitCount(budget) && ValidIndex(index) && p < SplitCount(budget)
    requires Visits(t, budget, key, p) && Fronts(index, key, budget)[p] < 0
    ensures Uncovered(t, budget, index, key)
  {
    hide Visits;
  }

  lemma NothingYet(t: Table, budget: nat, index: seq<seq<int>>, key: Key)
    requires Shaped(t) && budget >= 1 && |t.residual| == SplitCount(budget) && ValidIndex(index)
    ensures RowStart(budget, 0) == 0 && Visited(t, budget, key, 0) == [] && Listed(t, Fronts(index, key, budget), [])
  {
  }

  lemma NextRow(budget: nat, ft: nat)
    requires ft <= budget
    ensures RowStart(budget, ft + 1) == RowStart(budget, ft) + (budget + 1 - ft) <= SplitCount(budget)
  {
    if ft < budget { RowOrder(budget, ft + 1, budget + 1); }
  }

  lemma LookUp(budget: nat, index: seq<seq<int>>, key: Key, ft: nat, ff: nat)
    requires ValidIndex(index) && ft + ff <= budget
    ensures RowStart(budget, ft) + ff < SplitCount(budget) == |Fronts(index, key, budget)|
    ensures Fronts(index, key, budget)[RowStart(budget, ft) + ff] == index[Stat(key.ft, ft)][Stat(key.ff, ff)]
  {
    hide RowStart, Stat;
    SplitAtPos(budget, ft, ff);
    FrontAt(index, key, budget, ft, ff);
  }

  lemma OpenAtZero(caps: bool, key: int)
    ensures Open(caps, key, 0)
  {
  }

  lemma OpenNext(caps: bool, key: int, g: nat)
    requires Open(caps, key, g)
    ensures Open(caps, key, g + 1) <==> !(caps && Stat(key, g + 1) == Stat(key, g))
  {
    hide Stat;
  }

  lemma ClosedStays(caps: bool, key: int, g: nat, g': nat)
    requires !Open(caps, key, g) && g <= g'
    ensures !Open(caps, key, g')
  {
  }

  lemma VisitedStep(t: Table, budget: nat, key: Key, n: nat)
    requires Shaped(t) && budget >= 1 && |t.residual| == SplitCount(budget) && n < SplitCount(budget) && Visits(t, budget, key, n)
    ensures Visited(t, budget, key, n + 1) == Visited(t, budget, key, n) + [n]
  {
    hide Visits, RowStart;
  }

  lemma VisitsAt(t: Table, budget: nat, key: Key, ft: nat, ff: nat)
    requires Shaped(t) && budget >= 1 && |t.residual| == SplitCount(budget) && ft + ff <= budget
    ensures Pos(budget, ft, ff) < SplitCount(budget)
    ensures Visits(t, budget, key, Pos(budget, ft, ff)) <==> Open(FtCaps(t, budget), key.ft, ft) && Open(FfCaps(t, budget), key.ff, ff)
  {
    hide FtCaps, FfCaps, Open, RowStart, SplitAt;
    SplitAtPos(budget, ft, ff);
  }

  lemma VisitedNext(t: Table, budget: nat, key: Key, ft: nat, ff: nat)
    requires Shaped(t) && budget >= 1 && |t.residual| == SplitCount(budget) && ft + ff <= budget
    requires Open(FtCaps(t, budget), key.ft, ft) && Open(FfCaps(t, budget), key.ff, ff)
    ensures RowStart(budget, ft) + ff < SplitCount(budget) && Visits(t, budget, key, RowStart(budget, ft) + ff)
    ensures Visited(t, budget, key, RowStart(budget, ft) + ff + 1)
         == Visited(t, budget, key, RowStart(budget, ft) + ff) + [RowStart(budget, ft) + ff]
  {
    hide FtCaps, FfCaps, Open, SplitAt, SplitCount, Visits, RowStart, Visited, Stat;
    VisitsAt(t, budget, key, ft, ff);
    VisitedStep(t, budget, key, RowStart(budget, ft) + ff);
  }

  lemma {:induction false} VisitedSkips(t: Table, budget: nat, key: Key, m: nat, n: nat)
    requires Shaped(t) && budget >= 1 && |t.residual| == SplitCount(budget) && m <= n <= SplitCount(budget)
    requires forall p: nat :: m <= p < n ==> !Visits(t, budget, key, p)
    ensures Visited(t, budget, key, n) == Visited(t, budget, key, m)
    decreases n
  {
    hide Visits;
    if m < n { VisitedSkips(t, budget, key, m, n - 1); }
  }

  lemma RestOfRow(t: Table, budget: nat, key: Key, ft: nat, ff: nat)
    requires Shaped(t) && budget >= 1 && |t.residual| == SplitCount(budget) && ft <= budget && ff <= budget + 1 - ft
    requires ff < budget + 1 - ft ==> !Open(FfCaps(t, budget), key.ff, ff)
    ensures RowStart(budget, ft) + ff <= RowStart(budget, ft + 1) <= SplitCount(budget)
    ensures Visited(t, budget, key, RowStart(budget, ft + 1)) == Visited(t, budget, key, RowStart(budget, ft) + ff)
  {
    hide FtCaps, FfCaps, Open, Visited, RowStart;
    NextRow(budget, ft);
    var m, n := RowStart(budget, ft) + ff, RowStart(budget, ft + 1);
    forall p: nat | m <= p < n ensures !Visits(t, budget, key, p) {
      SplitAtPos(budget, ft, p - RowStart(budget, ft));
      ClosedStays(FfCaps(t, budget), key.ff, ff, p - RowStart(budget, ft));
    }
    VisitedSkips(t, budget, key, m, n);
  }

  lemma RestOfTable(t: Table, budget: nat, key: Key, ft: nat)
    requires Shaped(t) && budget >= 1 && |t.residual| == SplitCount(budget) && ft <= budget + 1
    requires ft < budget + 1 ==> !Open(FtCaps(t, budget), key.ft, ft)
    ensures RowStart(budget, ft) <= SplitCount(budget)
    ensures Visited(t, budget, key, SplitCount(budget)) == Visited(t, budget, key, RowStart(budget, ft))
  {
    hide FtCaps, FfCaps, Open, Visited;
    if ft < budget + 1 { RowOrder(budget, ft, budget + 1); }
    forall p: nat | RowStart(budget, ft) <= p < SplitCount(budget) ensures !Visits(t, budget, key, p) {
      var s := SplitAt(budget, p);
      if s.0 < ft { RowOrder(budget, s.0, ft); }
      ClosedStays(FtCaps(t, budget), key.ft, ft, s.0);
    }
    VisitedSkips(t, budget, key, RowStart(budget, ft), SplitCount(budget));
  }

  lemma ListedMore(t: Table, front: seq<int>, vis: seq<nat>, p: nat)
    requires Listed(t, front, vis) && p < |front| && forall x :: x in vis ==> x < p
    ensures Listed(t, front, vis + [p])
  {
    assert forall i :: 0 <= i < |vis| ==> vis[i] in vis;
  }

  lemma HeldStamp(t: Table, q: seq<nat>, c: int, stamp: int, head: nat, tail: nat, best: nat, next: seq<int>)
    requires Held(t, q, c, stamp, head, tail, best, next)
    ensures stamp <= c && (stamp == c <==> q != [])
    ensures q != [] ==> best < |t.residual| && head in q && best in q
    ensures q != [] && !Constant(t) ==> tail in q && tail < |next|
  {
  }
}
