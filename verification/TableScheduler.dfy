/** The parallel schedule of table builds and reductions under one byte budget
    (gear_optimizer/frontier/producer_scheduler.py), over every order the futures can complete in. */
module TableScheduler {
  import opened Arithmetic
  import opened Wrappers

  import RegionTable

  /** A group's bytes: what its build reserves, what it may keep, and what its table takes. */
  datatype Group = Group(peak: nat, retained: nat, table: nat)

  /** What a group holds of the budget: its peak while building, its table's bytes while reducing. */
  function Holds(groups: seq<Group>, building: set<nat>, reducing: map<nat, nat>, g: nat): nat
    requires g < |groups|
  {
    if g in building then groups[g].peak else if g in reducing then reducing[g] else 0
  }

  function Held(groups: seq<Group>, building: set<nat>, reducing: map<nat, nat>, n: nat): nat
    requires n <= |groups|
  {
    if n == 0 then 0 else Held(groups, building, reducing, n - 1) + Holds(groups, building, reducing, n - 1)
  }

  /** Changing one group's holding changes the sum by as much. */
  lemma {:induction false} HeldChanges(groups: seq<Group>, b: set<nat>, r: map<nat, nat>, b': set<nat>, r': map<nat, nat>, g: nat, n: nat)
    requires g < |groups| && n <= |groups|
    requires forall k :: 0 <= k < |groups| && k != g ==> Holds(groups, b', r', k) == Holds(groups, b, r, k)
    ensures Held(groups, b', r', n)
            == Held(groups, b, r, n) + (if g < n then Holds(groups, b', r', g) - Holds(groups, b, r, g) else 0)
  {
    hide Holds;
    if n > 0 { HeldChanges(groups, b, r, b', r', g, n - 1); }
  }

  lemma {:induction false} NoneHeld(groups: seq<Group>, n: nat)
    requires n <= |groups|
    ensures Held(groups, {}, map[], n) == 0
  {
    if n > 0 { NoneHeld(groups, n - 1); }
  }

  lemma {:induction false} HoldsPart(groups: seq<Group>, b: set<nat>, r: map<nat, nat>, g: nat, n: nat)
    requires g < n <= |groups|
    ensures Holds(groups, b, r, g) <= Held(groups, b, r, n)
  {
    hide Holds;
    if g < n - 1 { HoldsPart(groups, b, r, g, n - 1); }
  }

  /** Every group admitted is building, reducing or done, in one place; what is reserved is what they hold. */
  ghost predicate Accounts(groups: seq<Group>, budget: nat, next: nat, building: set<nat>, reducing: map<nat, nat>, reserved: nat,
                           results: seq<Option<nat>>)
  {
    && next <= |groups| == |results|
    && (forall g :: g in building ==> g < next && g !in reducing && results[g] == None)
    && (forall g :: g in reducing ==> g < next && results[g] == None && reducing[g] == groups[g].table)
    && (forall g :: 0 <= g < next && g !in building && g !in reducing ==> results[g] == Some(g))
    && (forall g :: next <= g < |groups| ==> results[g] == None)
    && reserved == Held(groups, building, reducing, |groups|) && reserved <= budget
  }

  /** Every build fits the budget alone and keeps no more than its bound: the tables of RegionTable.BoundsFit. */
  predicate Fit(groups: seq<Group>, budget: nat) {
    forall g :: 0 <= g < |groups| ==> groups[g].table <= groups[g].retained <= groups[g].peak <= budget
  }

  /** The group of these runs, whose built table holds `entries` rows: its bytes are those of its bounds. */
  ghost predicate IsGroup(group: Group, actionK: seq<int>, denom: real, n: nat, entries: nat) {
    && denom > 0.0
    && (RegionTable.CapacityOf(actionK, denom, n).Capacity? ==>
          && entries <= RegionTable.CapacityOf(actionK, denom, n).count
          && group == Group(RegionTable.Bounds(actionK, denom, n).0, RegionTable.Bounds(actionK, denom, n).1,
                            RegionTable.StartsBytes(n) + entries * RegionTable.ENTRY_BYTES))
  }

  /** A song's groups fit the budget of its one exhaustive table, each with its own fever fill. */
  lemma TablesFit(groups: seq<Group>, runs: seq<seq<int>>, denoms: seq<real>, n: nat, entries: seq<nat>)
    requires |groups| == |runs| == |denoms| == |entries|
    requires forall g :: 0 <= g < |groups| ==> IsGroup(groups[g], runs[g], denoms[g], n, entries[g])
    ensures Fit(groups, RegionTable.ByteBudget(n, runs))
  {
    hide RegionTable.Bounds, RegionTable.CapacityOf, RegionTable.ByteBudget, RegionTable.StartsBytes;
    forall g | 0 <= g < |groups| ensures groups[g].table <= groups[g].retained <= groups[g].peak <= RegionTable.ByteBudget(n, runs) {
      assert IsGroup(groups[g], runs[g], denoms[g], n, entries[g]);
      RegionTable.BoundsFit(runs, g, denoms[g], n, entries[g]);
    }
  }

  lemma Admitted(groups: seq<Group>, budget: nat, next: nat, b: set<nat>, r: map<nat, nat>, reserved: nat, results: seq<Option<nat>>)
    requires Accounts(groups, budget, next, b, r, reserved, results) && next < |groups| && reserved + groups[next].peak <= budget
    ensures Accounts(groups, budget, next + 1, b + {next}, r, reserved + groups[next].peak, results)
  {
    HeldChanges(groups, b, r, b + {next}, r, next, |groups|);
  }

  lemma Reduced(groups: seq<Group>, budget: nat, next: nat, b: set<nat>, r: map<nat, nat>, reserved: nat, results: seq<Option<nat>>, g: nat,
                r': map<nat, nat>)
    requires Accounts(groups, budget, next, b, r, reserved, results) && g in r && r' == r - {g}
    ensures r[g] <= reserved && Accounts(groups, budget, next, b, r', reserved - r[g], results[g := Some(g)])
  {
    HoldsPart(groups, b, r, g, |groups|);
    HeldChanges(groups, b, r, b, r', g, |groups|);
  }

  lemma Built(groups: seq<Group>, budget: nat, next: nat, b: set<nat>, r: map<nat, nat>, reserved: nat, results: seq<Option<nat>>, g: nat,
              b': set<nat>, r': map<nat, nat>)
    requires Accounts(groups, budget, next, b, r, reserved, results) && g in b && Fit(groups, budget)
    requires b' == b - {g} && r' == r[g := groups[g].table]
    ensures groups[g].peak <= reserved
    ensures Accounts(groups, budget, next, b', r', reserved + groups[g].table - groups[g].peak, results)
  {
    HoldsPart(groups, b, r, g, |groups|);
    HeldChanges(groups, b, r, b', r', g, |groups|);
  }

  /** Whatever completes first, nothing raises and every group's result is filled once. */
  method Schedule(groups: seq<Group>, budget: nat, limit: nat) returns (raised: bool, results: seq<Option<nat>>)
    requires Fit(groups, budget) && limit > 0
    ensures !raised && |results| == |groups| && forall g :: 0 <= g < |groups| ==> results[g] == Some(g)
  {
    hide Accounts, Held;
    raised := false;
    results := seq(|groups|, _ => None);
    var building: set<nat>, reducing: map<nat, nat> := {}, map[];
    var reserved, next := 0, 0;
    StartAccounts(groups, budget, results);
    while next < |groups| || building != {} || reducing != map[]
      invariant !raised && Accounts(groups, budget, next, building, reducing, reserved, results) && |results| == |groups| && next <= |groups|
      invariant |building| + |reducing| <= limit
      decreases 3 * (|groups| - next) + 2 * |building| + |reducing|
    {
      building, reserved, next := Admit(groups, budget, limit, building, reducing, reserved, next, results);
      if building == {} && reducing == map[] {
        return true, results;
      }
      assert building + reducing.Keys != {} by { SomethingLive(building, reducing); }
      var completed: set<nat> :| completed <= building + reducing.Keys && completed != {};
      building, reducing, reserved, raised, results := Complete(groups, budget, building, reducing, reserved, next, results, completed);
    }
    AllFilled(groups, budget, next, reserved, results);
  }

  lemma SomethingLive(building: set<nat>, reducing: map<nat, nat>)
    ensures building != {} || reducing != map[] ==> building + reducing.Keys != {}
  {
    if reducing.Keys == {} { assert reducing == map[]; }
  }

  lemma StartAccounts(groups: seq<Group>, budget: nat, results: seq<Option<nat>>)
    requires |results| == |groups| && forall g :: 0 <= g < |results| ==> results[g] == None
    ensures Accounts(groups, budget, 0, {}, map[], 0, results)
  {
    NoneHeld(groups, |groups|);
  }

  lemma AllFilled(groups: seq<Group>, budget: nat, next: nat, reserved: nat, results: seq<Option<nat>>)
    requires Accounts(groups, budget, next, {}, map[], reserved, results) && next >= |groups|
    ensures |results| == |groups| && forall g :: 0 <= g < |groups| ==> results[g] == Some(g)
  {
  }

  /** Admits groups in order while a worker and the bytes are free; with nothing live, the next one always fits. */
  method Admit(groups: seq<Group>, budget: nat, limit: nat, b: set<nat>, r: map<nat, nat>, bytes: nat, start: nat, ghost results: seq<Option<nat>>)
    returns (building: set<nat>, reserved: nat, next: nat)
    requires Fit(groups, budget) && limit > 0 && Accounts(groups, budget, start, b, r, bytes, results) && start <= |groups|
    ensures start <= next <= |groups| && Accounts(groups, budget, next, building, r, reserved, results)
    ensures |building| == |b| + (next - start) && b <= building
    ensures |building| + |r| <= Max(limit, |b| + |r|)
    ensures next == |groups| || |building| + |r| >= limit || reserved + groups[next].peak > budget
    ensures next < |groups| ==> building != {} || r != map[]
  {
    hide Held;
    building, reserved, next := b, bytes, start;
    while next < |groups| && |building| + |r| < limit
      invariant start <= next <= |groups| && Accounts(groups, budget, next, building, r, reserved, results)
      invariant |building| == |b| + (next - start) && b <= building && |building| + |r| <= Max(limit, |b| + |r|)
      decreases |groups| - next
    {
      if reserved + groups[next].peak > budget {
        if building == {} && r == map[] { NoneHeld(groups, |groups|); }
        break;
      }
      Admitted(groups, budget, next, building, r, reserved, results);
      assert next !in building;
      building := building + {next};
      reserved := reserved + groups[next].peak;
      next := next + 1;
    }
  }

  /** The completed futures, in any order. */
  method Complete(groups: seq<Group>, budget: nat, b: set<nat>, r: map<nat, nat>, bytes: nat, ghost next: nat, before: seq<Option<nat>>, completed: set<nat>)
    returns (building: set<nat>, reducing: map<nat, nat>, reserved: nat, raised: bool, results: seq<Option<nat>>)
    requires Fit(groups, budget) && Accounts(groups, budget, next, b, r, bytes, before)
    requires completed <= b + r.Keys && completed != {}
    ensures !raised && Accounts(groups, budget, next, building, reducing, reserved, results) && |results| == |before|
    ensures 2 * |building| + |reducing| < 2 * |b| + |r| && |building| + |reducing| <= |b| + |r|
  {
    hide Held, Accounts, Fit;
    building, reducing, reserved, raised, results := b, r, bytes, false, before;
    var left := completed;
    while left != {}
      invariant !raised && left <= building + reducing.Keys && |results| == |before|
      invariant Accounts(groups, budget, next, building, reducing, reserved, results)
      invariant (left == completed && |building| == |b| && |reducing| == |r|) || 2 * |building| + |reducing| < 2 * |b| + |r|
      invariant |building| + |reducing| <= |b| + |r|
      decreases |left|
    {
      var g :| g in left;
      left := left - {g};
      building, reducing, reserved, raised, results := CompleteOne(groups, budget, building, reducing, reserved, next, results, g);
    }
  }

  /** One future: a reduction's result is filled and its bytes are given back; a built table keeps only its own. */
  method CompleteOne(groups: seq<Group>, budget: nat, b: set<nat>, r: map<nat, nat>, bytes: nat, ghost next: nat, before: seq<Option<nat>>, g: nat)
    returns (building: set<nat>, reducing: map<nat, nat>, reserved: nat, raised: bool, results: seq<Option<nat>>)
    requires Fit(groups, budget) && Accounts(groups, budget, next, b, r, bytes, before) && g in b + r.Keys
    ensures g < |groups| == |before|
    ensures !raised && Accounts(groups, budget, next, building, reducing, reserved, results) && |results| == |before|
    ensures if g in r then building == b && reducing == r - {g} && results == before[g := Some(g)]
            else building == b - {g} && reducing == r[g := groups[g].table] && results == before
    ensures 2 * |building| + |reducing| < 2 * |b| + |r| && |building| + |reducing| <= |b| + |r|
    ensures (b + r.Keys) - {g} <= building + reducing.Keys
  {
    hide Held, Accounts, Fit;
    LiveGroup(groups, budget, next, b, r, bytes, before, g);
    raised := false;
    if g in r {
      building := b;
      reducing, reserved, results := FillResult(groups, budget, b, r, bytes, next, before, g);
    } else {
      results := before;
      building, reducing, reserved, raised := KeepTable(groups, budget, b, r, bytes, next, before, g);
    }
  }

  method FillResult(groups: seq<Group>, budget: nat, ghost b: set<nat>, r: map<nat, nat>, bytes: nat, ghost next: nat, before: seq<Option<nat>>, g: nat)
    returns (reducing: map<nat, nat>, reserved: nat, results: seq<Option<nat>>)
    requires Accounts(groups, budget, next, b, r, bytes, before) && g in r && g < |before|
    ensures Accounts(groups, budget, next, b, reducing, reserved, results) && |results| == |before|
    ensures |reducing| == |r| - 1 && reducing == r - {g} && reducing.Keys == r.Keys - {g} && results == before[g := Some(g)]
  {
    hide Held, Accounts;
    reducing := r - {g};
    Reduced(groups, budget, next, b, r, bytes, before, g, reducing);
    DropSize(r, g, reducing);
    results := before[g := Some(g)];
    reserved := bytes - r[g];
  }

  method KeepTable(groups: seq<Group>, budget: nat, b: set<nat>, r: map<nat, nat>, bytes: nat, ghost next: nat, ghost before: seq<Option<nat>>, g: nat)
    returns (building: set<nat>, reducing: map<nat, nat>, reserved: nat, raised: bool)
    requires Fit(groups, budget) && Accounts(groups, budget, next, b, r, bytes, before) && g in b && g !in r && g < |groups|
    ensures !raised && Accounts(groups, budget, next, building, reducing, reserved, before)
    ensures |building| == |b| - 1 && |reducing| == |r| + 1 && building == b - {g} && reducing == r[g := groups[g].table] && reducing.Keys == r.Keys + {g}
  {
    hide Held, Accounts;
    building, reducing, reserved, raised := b, r, bytes, false;
    if groups[g].table > groups[g].retained { raised := true; return; }
    building := b - {g};
    reducing := r[g := groups[g].table];
    Built(groups, budget, next, b, r, bytes, before, g, building, reducing);
    AddSize(r, g, groups[g].table);
    reserved := bytes + groups[g].table - groups[g].peak;
  }

  lemma LiveGroup(groups: seq<Group>, budget: nat, next: nat, b: set<nat>, r: map<nat, nat>, reserved: nat, results: seq<Option<nat>>, g: nat)
    requires Accounts(groups, budget, next, b, r, reserved, results) && g in b + r.Keys
    ensures g < |groups| == |results| && results[g] == None && (g in b ==> g !in r)
  {
  }

  lemma DropSize(r: map<nat, nat>, g: nat, r': map<nat, nat>)
    requires g in r && r' == r - {g}
    ensures |r'| == |r| - 1 && r'.Keys == r.Keys - {g}
  {
    assert r'.Keys == r.Keys - {g};
  }

  lemma AddSize(r: map<nat, nat>, g: nat, v: nat)
    requires g !in r
    ensures |r[g := v]| == |r| + 1 && r[g := v].Keys == r.Keys + {g}
  {
    assert r[g := v].Keys == r.Keys + {g};
  }
}
