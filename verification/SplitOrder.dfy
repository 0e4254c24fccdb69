/** Which FT/FF splits of the gem budget the gem search keeps (gear_optimizer/solver/gem_search.py, _kept_splits): per
    frontier a split that another one there beats is dropped. */
module SplitOrder {
  /** The splits, by position: their residual gems, what their gems add to the colors, and what a residual gem on the
      element adds to 2 x primary + secondary. */
  datatype Table = Table(residual: seq<nat>, primary: seq<nat>, secondary: seq<nat>, element: nat)

  predicate Shaped(t: Table) {
    |t.primary| == |t.residual| && |t.secondary| == |t.residual|
  }

  /** A split's 2 x primary + secondary with every residual gem on the element. */
  function Value(t: Table, p: nat): nat
    requires Shaped(t) && p < |t.residual|
  {
    2 * t.primary[p] + t.secondary[p] + t.element * t.residual[p]
  }

  predicate Matches(t: Table, o: nat, p: nat)
    requires Shaped(t) && o < |t.residual| && p < |t.residual|
  {
    && t.primary[o] >= t.primary[p] && t.secondary[o] >= t.secondary[p]
    && (t.residual[o] > t.residual[p] || t.primary[o] > t.primary[p] || t.secondary[o] > t.secondary[p] || o < p)
  }

  predicate Beats(t: Table, o: nat, p: nat)
    requires Shaped(t) && o < |t.residual| && p < |t.residual|
  {
    o != p && t.residual[o] >= t.residual[p] && (Value(t, o) > Value(t, p) || Matches(t, o, p))
  }

  // ---- Beating is a strict order.

  lemma ElementOrder(e: nat, r: nat, r': nat)
    requires r <= r'
    ensures e * r <= e * r'
  {
  }

  /** A split that beats another has at least its residual gems and its value; with no more value, its colors are the
      same and it has more gems or comes first. */
  lemma BeatsMeans(t: Table, o: nat, p: nat)
    requires Shaped(t) && o < |t.residual| && p < |t.residual| && Beats(t, o, p)
    ensures t.residual[o] >= t.residual[p] && Value(t, o) >= Value(t, p)
    ensures Value(t, o) == Value(t, p) ==>
              && t.primary[o] == t.primary[p] && t.secondary[o] == t.secondary[p]
              && (t.residual[o] > t.residual[p] || (t.residual[o] == t.residual[p] && o < p))
  {
    ElementOrder(t.element, t.residual[p], t.residual[o]);
  }

  lemma BeatsTransitive(t: Table, a: nat, b: nat, c: nat)
    requires Shaped(t) && a < |t.residual| && b < |t.residual| && c < |t.residual|
    requires Beats(t, a, b) && Beats(t, b, c)
    ensures Beats(t, a, c)
  {
    BeatsMeans(t, a, b);
    BeatsMeans(t, b, c);
  }

  // ---- What is kept of a list of splits.

  /** A list of positions in the table, each once and in split order; front[p] is the frontier split p reaches. */
  ghost predicate Listed(t: Table, front: seq<int>, list: seq<nat>) {
    && Shaped(t) && |front| == |t.residual|
    && (forall p :: p in list ==> p < |front|)
    && (forall i, j :: 0 <= i < j < |list| ==> list[i] < list[j])
  }

  /** Whether another split of the list, on the same frontier, beats p. */
  ghost predicate Beaten(t: Table, front: seq<int>, list: seq<nat>, p: nat)
    requires Listed(t, front, list) && p < |front|
  {
    exists o :: o in list && front[o] == front[p] && Beats(t, o, p)
  }

  ghost predicate InFront(front: seq<int>, p: nat, f: int) { p < |front| && front[p] == f }

  /** The listed splits that reach frontier f. */
  ghost function OnFrontier(front: seq<int>, list: seq<nat>, f: int): (r: seq<nat>)
    ensures forall p :: p in r <==> p in list && InFront(front, p, f)
  {
    if list == [] then []
    else
      var last := list[|list| - 1];
      assert list == list[..|list| - 1] + [last];
      var rest := OnFrontier(front, list[..|list| - 1], f);
      if InFront(front, last, f) then rest + [last] else rest
  }

  /** The frontiers of the list, in the order they are first reached. */
  ghost function Reached(front: seq<int>, list: seq<nat>): (r: seq<int>)
    requires forall p :: p in list ==> p < |front|
    ensures forall f :: f in r <==> exists p :: p in list && InFront(front, p, f)
  {
    if list == [] then []
    else
      var init, last := list[..|list| - 1], list[|list| - 1];
      assert list == init + [last] && last in list && forall p :: p in init ==> p in list;
      var rest := Reached(front, init);
      assert InFront(front, last, front[last]);
      assert forall f :: (exists p :: p in list && InFront(front, p, f))
                         <==> (exists p :: p in init && InFront(front, p, f)) || InFront(front, last, f);
      if front[last] in rest then rest else rest + [front[last]]
  }

  /** Those of `some` that no split of the list beats. */
  ghost function Unbeaten(t: Table, front: seq<int>, list: seq<nat>, some: seq<nat>): (r: seq<nat>)
    requires Listed(t, front, list) && forall p :: p in some ==> p < |front|
    ensures forall p :: p in r <==> p in some && !Beaten(t, front, list, p)
  {
    if some == [] then []
    else
      var init, last := some[..|some| - 1], some[|some| - 1];
      assert some == init + [last] && last in some && forall p :: p in init ==> p in some;
      var rest := Unbeaten(t, front, list, init);
      if Beaten(t, front, list, last) then rest else rest + [last]
  }

  /** Per frontier of `fs`, its unbeaten splits in split order. */
  ghost function KeptOn(t: Table, front: seq<int>, list: seq<nat>, fs: seq<int>): (r: seq<nat>)
    requires Listed(t, front, list)
    ensures forall p :: p in r <==> p in list && p < |front| && front[p] in fs && !Beaten(t, front, list, p)
  {
    if fs == [] then []
    else
      var init, last := fs[..|fs| - 1], fs[|fs| - 1];
      assert fs == init + [last];
      KeptOn(t, front, list, init) + Unbeaten(t, front, list, OnFrontier(front, list, last))
  }

  /** The kept splits: per frontier, in first-reached order, every split there that no other beats. */
  ghost function Kept(t: Table, front: seq<int>, list: seq<nat>): (r: seq<nat>)
    requires Listed(t, front, list)
    ensures forall p :: p in r <==> p in list && !Beaten(t, front, list, p)
  {
    assert forall p :: p in list ==> InFront(front, p, front[p]);
    KeptOn(t, front, list, Reached(front, list))
  }

  // ---- Every split is kept or beaten by a kept one.

  ghost function Beaters(t: Table, front: seq<int>, list: seq<nat>, p: nat): set<nat>
    requires Listed(t, front, list) && p < |front|
  {
    set o | o in list && front[o] == front[p] && Beats(t, o, p)
  }

  lemma {:induction false} KeptBeater(t: Table, front: seq<int>, list: seq<nat>, p: nat) returns (k: nat)
    requires Listed(t, front, list) && p in list
    ensures k in Kept(t, front, list) && k < |front| && front[k] == front[p] && (k == p || Beats(t, k, p))
    decreases |Beaters(t, front, list, p)|
  {
    k := p;
    if Beaten(t, front, list, p) {
      var o :| o in list && front[o] == front[p] && Beats(t, o, p);
      forall x | x in Beaters(t, front, list, o) ensures x in Beaters(t, front, list, p) { BeatsTransitive(t, x, o, p); }
      assert o in Beaters(t, front, list, p) && o !in Beaters(t, front, list, o);
      FewerBeaters(Beaters(t, front, list, o), Beaters(t, front, list, p), o);
      k := KeptBeater(t, front, list, o);
      if k != o { BeatsTransitive(t, k, o, p); }
    }
  }

  lemma FewerBeaters(a: set<nat>, b: set<nat>, o: nat)
    requires a <= b && o in b && o !in a
    ensures |a| < |b|
  {
    assert b == a + (b - a);
    assert o in b - a;
  }

  // ---- Leaving out beaten splits changes nothing.

  /** `few` leaves out of `all` only splits that a split of `few`, before it and on its frontier, beats. */
  ghost predicate Suffices(t: Table, front: seq<int>, all: seq<nat>, few: seq<nat>) {
    && Listed(t, front, all) && Listed(t, front, few)
    && (forall p :: p in few ==> p in all)
    && forall p :: p in all && p !in few ==> exists o :: o in few && o < p && front[o] == front[p] && Beats(t, o, p)
  }

  lemma SameBeaten(t: Table, front: seq<int>, all: seq<nat>, few: seq<nat>, p: nat)
    requires Suffices(t, front, all, few) && p < |front|
    ensures Beaten(t, front, all, p) <==> Beaten(t, front, few, p)
  {
    if Beaten(t, front, all, p) {
      var o :| o in all && front[o] == front[p] && Beats(t, o, p);
      if o !in few {
        var q :| q in few && q < o && front[q] == front[o] && Beats(t, q, o);
        BeatsTransitive(t, q, o, p);
      }
    }
  }

  lemma {:induction false} KeptOfFew(t: Table, front: seq<int>, all: seq<nat>, few: seq<nat>)
    requires Suffices(t, front, all, few)
    ensures Kept(t, front, few) == Kept(t, front, all)
  {
    SameReached(t, front, all, few, all);
    assert FewOf(few, all) == few by { FewIsAll(t, front, all, few); }
    SameKeptOn(t, front, all, few, Reached(front, all));
  }

  /** The splits of `some` in `few`. */
  ghost function FewOf(few: seq<nat>, some: seq<nat>): (r: seq<nat>)
    ensures forall p :: p in r <==> p in some && p in few
    ensures |r| <= |some|
  {
    if some == [] then []
    else
      var last := some[|some| - 1];
      assert some == some[..|some| - 1] + [last];
      var rest := FewOf(few, some[..|some| - 1]);
      if last in few then rest + [last] else rest
  }

  ghost predicate Rising(s: seq<nat>) { forall i, j :: 0 <= i < j < |s| ==> s[i] < s[j] }

  lemma {:induction false} FewOfRises(few: seq<nat>, some: seq<nat>)
    requires Rising(some)
    ensures Rising(FewOf(few, some))
  {
    if some != [] {
      var init, last := some[..|some| - 1], some[|some| - 1];
      FewOfRises(few, init);
      var rest := FewOf(few, init);
      forall i | 0 <= i < |rest| ensures rest[i] < last { assert rest[i] in init; }
    }
  }

  ghost predicate SameMembers(a: seq<nat>, b: seq<nat>) { forall p :: p in a <==> p in b }

  lemma NotEmpty(s: seq<nat>)
    ensures s != [] ==> exists p :: p in s
  {
    if s != [] { assert s[0] in s; }
  }

  lemma {:induction false} RisingAreSame(a: seq<nat>, b: seq<nat>)
    requires Rising(a) && Rising(b) && SameMembers(a, b)
    ensures a == b
  {
    NotEmpty(a);
    NotEmpty(b);
    if a != [] {
      LastIsMost(a);
      LastIsMost(b);
      SameInits(a, b);
      RisingAreSame(a[..|a| - 1], b[..|b| - 1]);
      assert a == a[..|a| - 1] + [a[|a| - 1]] && b == b[..|b| - 1] + [b[|b| - 1]];
    }
  }

  lemma LastIsMost(s: seq<nat>)
    requires Rising(s) && s != []
    ensures s[|s| - 1] in s && Rising(s[..|s| - 1])
    ensures forall p :: p in s ==> p <= s[|s| - 1]
    ensures forall p :: p in s[..|s| - 1] <==> p in s && p < s[|s| - 1]
  {
    var init, last := s[..|s| - 1], s[|s| - 1];
    assert s == init + [last];
    forall p | p in init ensures p in s && p < last {
      var i :| 0 <= i < |init| && init[i] == p;
      assert s[i] == p;
    }
  }

  lemma SameInits(a: seq<nat>, b: seq<nat>)
    requires a != [] && b != [] && SameMembers(a, b)
    requires a[|a| - 1] in a && forall p :: p in a ==> p <= a[|a| - 1]
    requires b[|b| - 1] in b && forall p :: p in b ==> p <= b[|b| - 1]
    requires forall p :: p in a[..|a| - 1] <==> p in a && p < a[|a| - 1]
    requires forall p :: p in b[..|b| - 1] <==> p in b && p < b[|b| - 1]
    ensures a[|a| - 1] == b[|b| - 1]
    ensures SameMembers(a[..|a| - 1], b[..|b| - 1])
  {
    var x, y := a[..|a| - 1], b[..|b| - 1];
    assert a[|a| - 1] == b[|b| - 1];
    forall p: nat ensures p in x <==> p in y {
      assert p in x <==> p in a && p < a[|a| - 1];
      assert p in y <==> p in b && p < b[|b| - 1];
    }
  }

  lemma FewIsAll(t: Table, front: seq<int>, all: seq<nat>, few: seq<nat>)
    requires Suffices(t, front, all, few)
    ensures FewOf(few, all) == few
  {
    FewOfRises(few, all);
    RisingAreSame(FewOf(few, all), few);
  }

  lemma {:induction false} SameReached(t: Table, front: seq<int>, all: seq<nat>, few: seq<nat>, some: seq<nat>)
    requires Suffices(t, front, all, few) && some <= all
    ensures Reached(front, FewOf(few, some)) == Reached(front, some)
  {
    hide Beats;
    if some != [] {
      var init, last := some[..|some| - 1], some[|some| - 1];
      SameReached(t, front, all, few, init);
      if last in few {
        assert FewOf(few, some)[..|FewOf(few, some)| - 1] == FewOf(few, init);
      } else {
        ReachedBefore(t, front, all, few, some);
      }
    }
  }

  lemma ReachedBefore(t: Table, front: seq<int>, all: seq<nat>, few: seq<nat>, some: seq<nat>)
    requires Suffices(t, front, all, few) && some <= all && some != [] && some[|some| - 1] !in few
    ensures front[some[|some| - 1]] in Reached(front, some[..|some| - 1])
  {
    hide Beats;
    var init, last := some[..|some| - 1], some[|some| - 1];
    assert last == all[|some| - 1] && last in all;
    var o :| o in few && o < last && front[o] == front[last] && Beats(t, o, last);
    assert o in all;
    var i :| 0 <= i < |all| && all[i] == o;
    assert i < |some| - 1;
    assert init[i] == o && InFront(front, o, front[last]);
  }

  lemma {:induction false} SameUnbeaten(t: Table, front: seq<int>, all: seq<nat>, few: seq<nat>, some: seq<nat>, f: int)
    requires Suffices(t, front, all, few) && some <= all
    ensures Unbeaten(t, front, few, OnFrontier(front, FewOf(few, some), f)) == Unbeaten(t, front, all, OnFrontier(front, some, f))
  {
    if some != [] {
      var init, last := some[..|some| - 1], some[|some| - 1];
      SameUnbeaten(t, front, all, few, init, f);
      assert last in all;
      SameBeaten(t, front, all, few, last);
      var on, few' := OnFrontier(front, init, f), FewOf(few, init);
      if InFront(front, last, f) { assert (on + [last])[..|on|] == on; }
      if last in few {
        assert FewOf(few, some)[..|few'|] == few';
        var on' := OnFrontier(front, few', f);
        if InFront(front, last, f) { assert (on' + [last])[..|on'|] == on'; }
      } else {
        var o :| o in few && o < last && front[o] == front[last] && Beats(t, o, last);
        assert o in all && Beaten(t, front, all, last);
      }
    }
  }

  lemma {:induction false} SameKeptOn(t: Table, front: seq<int>, all: seq<nat>, few: seq<nat>, fs: seq<int>)
    requires Suffices(t, front, all, few)
    ensures KeptOn(t, front, few, fs) == KeptOn(t, front, all, fs)
  {
    if fs != [] {
      SameKeptOn(t, front, all, few, fs[..|fs| - 1]);
      FewIsAll(t, front, all, few);
      SameUnbeaten(t, front, all, few, all, fs[|fs| - 1]);
    }
  }
}
