/** The Force Greats beam search with rising floors (gear_optimizer/solver/fg_search.py): the floors spare work, never a
    beam. */
module BeamSearch {
  import opened Wrappers

  /** A loadout's pre-gem totals, and the loadout. */
  datatype Key = Key(totals: seq<int>)
  datatype Genome = Genome(items: seq<int>)

  /** The exact score of the totals, a genome's totals, its 1-swap neighbours. */
  datatype Problem = Problem(score: Key -> nat, totals: Genome -> Key, neighbours: Genome -> seq<Genome>, width: nat)

  const CHUNK := 256

  // ---- The best, ties kept in order.

  function Insert(p: Problem, sorted: seq<Key>, k: Key): (r: seq<Key>)
    ensures |r| == |sorted| + 1
  {
    if sorted == [] then [k]
    else
      var last := sorted[|sorted| - 1];
      if p.score(last) >= p.score(k) then sorted + [k] else Insert(p, sorted[..|sorted| - 1], k) + [last]
  }

  function Sort(p: Problem, keys: seq<Key>): (r: seq<Key>)
    ensures |r| == |keys|
  {
    if keys == [] then [] else Insert(p, Sort(p, keys[..|keys| - 1]), keys[|keys| - 1])
  }

  function Take(keys: seq<Key>, n: nat): seq<Key> { if |keys| <= n then keys else keys[..n] }

  function BestOf(p: Problem, keys: seq<Key>): seq<Key> { Take(Sort(p, keys), p.width) }

  ghost predicate Descending(p: Problem, keys: seq<Key>) {
    forall i, j :: 0 <= i < j < |keys| ==> p.score(keys[i]) >= p.score(keys[j])
  }

  lemma {:induction false} InsertHolds(p: Problem, sorted: seq<Key>, k: Key)
    requires Descending(p, sorted)
    ensures Descending(p, Insert(p, sorted, k)) && forall x :: x in Insert(p, sorted, k) <==> x in sorted || x == k
  {
    if sorted != [] {
      var front, last := sorted[..|sorted| - 1], sorted[|sorted| - 1];
      assert last in sorted;
      if p.score(last) < p.score(k) {
        InsertHolds(p, front, k);
        var rest := Insert(p, front, k);
        forall i | 0 <= i < |rest| ensures p.score(rest[i]) >= p.score(last) {
          assert rest[i] in rest;
          if rest[i] != k {
            var j :| 0 <= j < |front| && front[j] == rest[i];
          }
        }
        assert sorted == front + [last];
      }
    }
  }

  lemma {:induction false} SortHolds(p: Problem, keys: seq<Key>)
    ensures Descending(p, Sort(p, keys)) && forall x :: x in Sort(p, keys) <==> x in keys
  {
    if keys != [] {
      SortHolds(p, keys[..|keys| - 1]);
      InsertHolds(p, Sort(p, keys[..|keys| - 1]), keys[|keys| - 1]);
    }
  }

  /** Only the best so far matter when one more comes. */
  lemma {:induction false} TakeInsert(p: Problem, sorted: seq<Key>, k: Key)
    requires Descending(p, sorted) && p.width > 0
    ensures Take(Insert(p, sorted, k), p.width) == Take(Insert(p, Take(sorted, p.width), k), p.width)
  {
    if |sorted| > p.width {
      var front, last := sorted[..|sorted| - 1], sorted[|sorted| - 1];
      if p.score(last) < p.score(k) {
        TakeInsert(p, front, k);
        assert Take(front, p.width) == Take(sorted, p.width);
      }
    }
  }

  function Admit(p: Problem, top: seq<Key>, k: Key): seq<Key> { Take(Insert(p, top, k), p.width) }

  lemma BestOfMore(p: Problem, keys: seq<Key>, k: Key)
    requires p.width > 0
    ensures BestOf(p, keys + [k]) == Admit(p, BestOf(p, keys), k)
  {
    assert (keys + [k])[..|keys|] == keys;
    SortHolds(p, keys);
    TakeInsert(p, Sort(p, keys), k);
  }

  /** The score that enters a full beam. */
  function FloorOf(p: Problem, top: seq<Key>): int
    requires p.width > 0
  {
    if |top| == p.width then p.score(top[|top| - 1]) else -1
  }

  /** A key below the floor does not change the best. */
  lemma BelowFloor(p: Problem, top: seq<Key>, k: Key)
    requires p.width > 0 && |top| <= p.width && p.score(k) as int < FloorOf(p, top)
    ensures Admit(p, top, k) == top
  {
  }

  /** One more key never lowers the floor. */
  lemma {:induction false} FloorRises(p: Problem, top: seq<Key>, k: Key)
    requires p.width > 0 && Descending(p, top) && |top| <= p.width
    ensures var next := Admit(p, top, k); Descending(p, next) && |next| <= p.width && FloorOf(p, next) >= FloorOf(p, top)
  {
    InsertHolds(p, top, k);
    if |top| == p.width && p.score(top[|top| - 1]) < p.score(k) { LastKept(p, top, k); }
  }

  lemma LastKept(p: Problem, top: seq<Key>, k: Key)
    requires p.width > 0 && Descending(p, top) && |top| == p.width && p.score(top[|top| - 1]) < p.score(k)
    ensures p.score(Admit(p, top, k)[p.width - 1]) >= p.score(top[p.width - 1])
  {
    var front := top[..|top| - 1];
    var rest := Insert(p, front, k);
    InsertHolds(p, front, k);
    var x := rest[|rest| - 1];
    assert x in rest;
    if x != k {
      var j :| 0 <= j < |front| && front[j] == x;
    }
  }

  // ---- The search without floors.

  /** Totals scored so far, with the first genome found for each. */
  type Known = map<Key, Genome>

  function Hood(p: Problem, known: Known, beam: seq<Key>): seq<Genome>
    requires forall k :: k in beam ==> k in known
  {
    if beam == [] then []
    else Hood(p, known, beam[..|beam| - 1]) + p.neighbours(known[beam[|beam| - 1]])
  }

  /** The unscored totals of a neighbourhood, each with its first genome, in order. */
  function Fresh(p: Problem, known: Known, hood: seq<Genome>): (f: (seq<Key>, Known))
    ensures forall k :: k in f.0 <==> k in f.1
    ensures forall k :: k in f.1 ==> k !in known
  {
    if hood == [] then ([], map[])
    else
      var before, g := Fresh(p, known, hood[..|hood| - 1]), hood[|hood| - 1];
      var k := p.totals(g);
      if k in known || k in before.1 then before else (before.0 + [k], before.1[k := g])
  }

  /** The best after admitting keys one by one. */
  function Admitted(p: Problem, top: seq<Key>, keys: seq<Key>): seq<Key> {
    if keys == [] then top else Admit(p, Admitted(p, top, keys[..|keys| - 1]), keys[|keys| - 1])
  }

  /** A pass scores every unscored neighbour. */
  function Pass(p: Problem, known: Known, beam: seq<Key>): (Known, seq<Key>)
    requires forall k :: k in beam ==> k in known
  {
    var unscored := Fresh(p, known, Hood(p, known, beam));
    (known + unscored.1, Admitted(p, beam, unscored.0))
  }

  datatype State = State(known: Known, beam: seq<Key>)

  ghost predicate IsState(p: Problem, s: State) {
    && (forall k :: k in s.beam ==> k in s.known) && Descending(p, s.beam) && |s.beam| <= p.width
  }

  /** The states a search goes through, pass by pass, from its first beam until a pass leaves the beam's set unchanged. */
  ghost predicate IsSearch(p: Problem, states: seq<State>) {
    && states != [] && (forall i :: 0 <= i < |states| ==> IsState(p, states[i]))
    && (forall i :: 0 <= i < |states| - 1 ==> IsPass(p, states[i], states[i + 1]))
    && (forall i :: 0 <= i < |states| - 2 ==> !SameSet(states[i].beam, states[i + 1].beam))
  }

  /** The state a pass leads to. */
  ghost function Passed(p: Problem, s: State): State
    requires IsState(p, s)
  {
    var (known, beam) := Pass(p, s.known, s.beam);
    State(known, beam)
  }

  ghost predicate IsPass(p: Problem, s: State, t: State)
    requires IsState(p, s)
  {
    t == Passed(p, s)
  }

  ghost predicate SameSet(a: seq<Key>, b: seq<Key>) { forall k :: k in a <==> k in b }

  lemma {:induction false} AdmittedHolds(p: Problem, top: seq<Key>, keys: seq<Key>)
    requires p.width > 0 && Descending(p, top) && |top| <= p.width
    ensures var r := Admitted(p, top, keys);
            Descending(p, r) && |r| <= p.width && FloorOf(p, r) >= FloorOf(p, top) && forall k :: k in r ==> k in top || k in keys
  {
    hide Admit, FloorOf;
    if keys != [] {
      var front, last := keys[..|keys| - 1], keys[|keys| - 1];
      AdmittedHolds(p, top, front);
      FloorRises(p, Admitted(p, top, front), last);
      AdmitMembers(p, Admitted(p, top, front), last);
      assert keys == front + [last];
    }
  }

  lemma AdmitMembers(p: Problem, top: seq<Key>, k: Key)
    requires Descending(p, top)
    ensures forall x :: x in Admit(p, top, k) ==> x in top || x == k
  {
    InsertHolds(p, top, k);
  }

  lemma PassHolds(p: Problem, s: State)
    requires p.width > 0 && IsState(p, s)
    ensures var (known, beam) := Pass(p, s.known, s.beam); IsState(p, State(known, beam))
  {
    hide Admitted, Fresh, Hood, Descending;
    AdmittedHolds(p, s.beam, Fresh(p, s.known, Hood(p, s.known, s.beam)).0);
  }

  // ---- The search with floors.

  /** A found loadout and its exact score. */
  datatype Entry = Entry(genome: Genome, score: nat)

  /** Everything scored is found with its first genome and exact score, or pruned. */
  ghost predicate Scored(p: Problem, known: Known, found: map<Key, Entry>, pruned: set<Key>) {
    && found.Keys + pruned == known.Keys && found.Keys !! pruned
    && forall k :: k in found ==> found[k] == Entry(known[k], p.score(k))
  }

  lemma {:induction false} SortedStays(p: Problem, keys: seq<Key>)
    requires Descending(p, keys)
    ensures Sort(p, keys) == keys
  {
    if keys != [] {
      var front := keys[..|keys| - 1];
      SortedStays(p, front);
      if front != [] { assert p.score(keys[|keys| - 2]) >= p.score(keys[|keys| - 1]); }
    }
  }

  method HoodOf(p: Problem, ghost known: Known, found: map<Key, Entry>, ghost pruned: set<Key>, beam: seq<Key>) returns (hood: seq<Genome>)
    requires Scored(p, known, found, pruned) && forall k :: k in beam ==> k in found
    ensures (forall k :: k in beam ==> k in known) && hood == Hood(p, known, beam)
  {
    hood := [];
    for i := 0 to |beam|
      invariant (forall k :: k in beam[..i] ==> k in known) && hood == Hood(p, known, beam[..i])
    {
      assert beam[..i + 1][..i] == beam[..i];
      assert beam[i] in beam;
      hood := hood + p.neighbours(found[beam[i]].genome);
    }
    assert beam[..|beam|] == beam;
  }

  method FreshOf(p: Problem, ghost known: Known, found: map<Key, Entry>, pruned: set<Key>, hood: seq<Genome>) returns (keys: seq<Key>, genomes: Known)
    requires Scored(p, known, found, pruned)
    ensures (keys, genomes) == Fresh(p, known, hood)
  {
    keys, genomes := [], map[];
    for i := 0 to |hood|
      invariant (keys, genomes) == Fresh(p, known, hood[..i])
    {
      assert hood[..i + 1][..i] == hood[..i];
      var k := p.totals(hood[i]);
      if k !in found && k !in pruned && k !in genomes {
        keys, genomes := keys + [k], genomes[k := hood[i]];
      }
    }
    assert hood[..|hood|] == hood;
  }

  /** The first n unscored keys are found or pruned, and the contenders' best is what admitting them all would give. */
  ghost predicate Progress(p: Problem, known: Known, keys: seq<Key>, genomes: Known, n: nat, found: map<Key, Entry>, pruned: set<Key>,
                           contenders: seq<Key>, beam: seq<Key>)
    requires n <= |keys|
  {
    && (forall k :: k in found.Keys + pruned <==> k in known || k in keys[..n]) && found.Keys !! pruned
    && (forall k :: k in found ==> (k in known || k in genomes) && found[k] == Entry(if k in genomes then genomes[k] else known[k], p.score(k)))
    && (forall k :: k in contenders ==> k in found)
    && BestOf(p, contenders) == Admitted(p, beam, keys[..n])
  }

  /** One chunk: the keys that reach the floor it started with are found, the others pruned. */
  method ScoreChunk(p: Problem, ghost known: Known, keys: seq<Key>, genomes: Known, start: nat, found: map<Key, Entry>, pruned: set<Key>,
                    contenders: seq<Key>, ghost beam: seq<Key>)
    returns (found': map<Key, Entry>, pruned': set<Key>, contenders': seq<Key>)
    requires p.width > 0 && start <= |keys| && Descending(p, beam) && |beam| <= p.width
    requires (forall k :: k in keys ==> k in genomes && k !in known) && Distinct(keys)
    requires Progress(p, known, keys, genomes, start, found, pruned, contenders, beam)
    ensures Progress(p, known, keys, genomes, ChunkEnd(keys, start), found', pruned', contenders', beam)
  {
    hide Progress, Descending, FloorOf, BestOf;
    found', pruned', contenders' := found, pruned, contenders;
    var top := BestOf(p, contenders);
    var floor := FloorOf(p, top);
    TopIs(p, known, keys, genomes, start, found, pruned, contenders, beam);
    var end := ChunkEnd(keys, start);
    for i := start to end
      invariant Progress(p, known, keys, genomes, i, found', pruned', contenders', beam)
      invariant floor <= FloorOf(p, Admitted(p, beam, keys[..i]))
    {
      var k := keys[i];
      assert k in keys;
      NextKey(p, known, keys, genomes, i, found', pruned', contenders', beam, floor);
      if p.score(k) as int >= floor {
        found' := found'[k := Entry(genomes[k], p.score(k))];
        contenders' := contenders' + [k];
      } else {
        pruned' := pruned' + {k};
      }
    }
  }

  function ChunkEnd(keys: seq<Key>, start: nat): nat { if start + CHUNK < |keys| then start + CHUNK else |keys| }

  lemma TopIs(p: Problem, known: Known, keys: seq<Key>, genomes: Known, n: nat, found: map<Key, Entry>, pruned: set<Key>, contenders: seq<Key>, beam: seq<Key>)
    requires n <= |keys| && Progress(p, known, keys, genomes, n, found, pruned, contenders, beam)
    ensures BestOf(p, contenders) == Admitted(p, beam, keys[..n])
  {
  }

  /** Whether found or pruned, the next key leaves the contenders' best at what admitting it gives, and the floor never falls. */
  lemma NextKey(p: Problem, known: Known, keys: seq<Key>, genomes: Known, n: nat, found: map<Key, Entry>, pruned: set<Key>, contenders: seq<Key>,
                beam: seq<Key>, floor: int)
    requires p.width > 0 && n < |keys| && Descending(p, beam) && |beam| <= p.width
    requires (forall k :: k in keys ==> k in genomes && k !in known) && Distinct(keys)
    requires Progress(p, known, keys, genomes, n, found, pruned, contenders, beam)
    requires floor <= FloorOf(p, Admitted(p, beam, keys[..n])) && keys[n] in genomes
    ensures floor <= FloorOf(p, Admitted(p, beam, keys[..n + 1]))
    ensures p.score(keys[n]) as int >= floor ==>
              Progress(p, known, keys, genomes, n + 1, found[keys[n] := Entry(genomes[keys[n]], p.score(keys[n]))], pruned, contenders + [keys[n]], beam)
    ensures p.score(keys[n]) as int < floor ==> Progress(p, known, keys, genomes, n + 1, found, pruned + {keys[n]}, contenders, beam)
  {
    hide Descending, Admit, FloorOf, BestOf;
    var k, top := keys[n], Admitted(p, beam, keys[..n]);
    assert keys[..n + 1][..n] == keys[..n] && keys[..n + 1] == keys[..n] + [k];
    assert k !in keys[..n];
    AdmittedHolds(p, beam, keys[..n]);
    FloorRises(p, top, k);
    BestOfMore(p, contenders, k);
    if p.score(k) as int < floor { BelowFloor(p, top, k); }
  }

  /** The search's variables stand for a state. */
  ghost predicate ScoredIn(p: Problem, s: State, found: map<Key, Entry>, pruned: set<Key>, beam: seq<Key>) {
    s.beam == beam && Scored(p, s.known, found, pruned) && forall k :: k in beam ==> k in found
  }

  ghost predicate Running(p: Problem, s: State, found: map<Key, Entry>, pruned: set<Key>, beam: seq<Key>) {
    IsState(p, s) && ScoredIn(p, s, found, pruned, beam)
  }

  /** One pass: the same next beam and the same totals scored as without floors. */
  method RunPass(p: Problem, ghost s: State, found: map<Key, Entry>, pruned: set<Key>, beam: seq<Key>)
    returns (found': map<Key, Entry>, pruned': set<Key>, next: seq<Key>)
    requires p.width > 0 && Running(p, s, found, pruned, beam)
    ensures ScoredIn(p, Passed(p, s), found', pruned', next)
  {
    hide Progress, Descending, Fresh, Hood, Admitted, BestOf;
    var hood := HoodOf(p, s.known, found, pruned, beam);
    var keys, genomes := FreshOf(p, s.known, found, pruned, hood);
    FreshDistinct(p, s.known, hood);
    found', pruned' := found, pruned;
    var contenders := beam;
    StartProgress(p, s.known, keys, genomes, found, pruned, beam);
    var start := 0;
    while start < |keys|
      invariant start <= |keys| && Progress(p, s.known, keys, genomes, start, found', pruned', contenders, beam)
      decreases |keys| - start
    {
      found', pruned', contenders := ScoreChunk(p, s.known, keys, genomes, start, found', pruned', contenders, beam);
      start := ChunkEnd(keys, start);
    }
    next := BestOf(p, contenders);
    EndProgress(p, s.known, keys, genomes, found', pruned', contenders, beam);
  }

  ghost predicate Distinct(keys: seq<Key>) { forall i, j :: 0 <= i < j < |keys| ==> keys[i] != keys[j] }

  lemma {:induction false} FreshDistinct(p: Problem, known: Known, hood: seq<Genome>)
    ensures Distinct(Fresh(p, known, hood).0)
  {
    if hood != [] {
      var front := hood[..|hood| - 1];
      FreshDistinct(p, known, front);
      var before, k := Fresh(p, known, front), p.totals(hood[|hood| - 1]);
      if k !in known && k !in before.1 {
        assert k !in before.0;
        assert Fresh(p, known, hood).0 == before.0 + [k];
      }
    }
  }

  lemma StartProgress(p: Problem, known: Known, keys: seq<Key>, genomes: Known, found: map<Key, Entry>, pruned: set<Key>, beam: seq<Key>)
    requires Scored(p, known, found, pruned) && Descending(p, beam) && |beam| <= p.width
    requires (forall k :: k in beam ==> k in found) && forall k :: k in genomes ==> k !in known
    ensures Progress(p, known, keys, genomes, 0, found, pruned, beam, beam)
  {
    SortedStays(p, beam);
  }

  lemma EndProgress(p: Problem, known: Known, keys: seq<Key>, genomes: Known, found: map<Key, Entry>, pruned: set<Key>, contenders: seq<Key>, beam: seq<Key>)
    requires Progress(p, known, keys, genomes, |keys|, found, pruned, contenders, beam)
    requires forall k :: k in keys <==> k in genomes
    ensures BestOf(p, contenders) == Admitted(p, beam, keys) && Scored(p, known + genomes, found, pruned)
    ensures forall k :: k in BestOf(p, contenders) ==> k in found
  {
    hide Admitted, Sort;
    assert keys[..|keys|] == keys;
    SortHolds(p, contenders);
  }

  /** The search goes through the beams of the search without floors, and ends: every changed beam scored a new total. */
  method Search(p: Problem, seeds: seq<Genome>, ghost universe: set<Key>)
    returns (found: map<Key, Entry>, pruned: set<Key>, ghost states: seq<State>)
    requires p.width > 0 && seeds != [] && forall g :: p.totals(g) in universe
    ensures IsSearch(p, states) && Settled(states) && states[0] == Seeded(p, seeds)
    ensures Scored(p, states[|states| - 1].known, found, pruned)
    ensures IsResult(p, seeds, found, pruned)
  {
    hide Passed, Scored, ScoredIn, IsState, IsSearch, Seeded, SetOf, SameSet, Settled, IsResult;
    var beam;
    found, beam := Start(p, seeds, universe);
    pruned := {};
    ghost var s := Seeded(p, seeds);
    states := [s];
    OneState(s);
    while true
      invariant states != [] && s == states[|states| - 1] && states[0] == Seeded(p, seeds) && IsSearch(p, states)
      invariant !Settled(states) && IsState(p, s) && ScoredIn(p, s, found, pruned, beam) && s.known.Keys <= universe
      decreases |universe - s.known.Keys|
    {
      var next;
      BeamOf(p, s, found, pruned, beam);
      found, pruned, next := RunPass(p, s, found, pruned, beam);
      ghost var t := Advance(p, states, s, universe);
      BeamOf(p, t, found, pruned, next);
      LastTwo(states, s, t);
      SameSets(beam, next);
      s := t;
      states := states + [t];
      if SetOf(next) == SetOf(beam) {
        ResultOf(p, seeds, found, pruned, states);
        return;
      }
      beam := next;
    }
  }

  /** What the search without floors scores, found exactly or pruned: found and pruned are the totals some complete
      search of it has scored, and every total found has its first genome and exact score. */
  ghost predicate IsResult(p: Problem, seeds: seq<Genome>, found: map<Key, Entry>, pruned: set<Key>)
    requires p.width > 0 && seeds != []
  {
    exists states: seq<State> :: IsSearch(p, states) && Settled(states) && states[0] == Seeded(p, seeds)
                     && Scored(p, states[|states| - 1].known, found, pruned)
  }

  lemma ResultOf(p: Problem, seeds: seq<Genome>, found: map<Key, Entry>, pruned: set<Key>, states: seq<State>)
    requires p.width > 0 && seeds != []
    requires IsSearch(p, states) && Settled(states) && states[0] == Seeded(p, seeds)
    requires Scored(p, states[|states| - 1].known, found, pruned)
    ensures IsResult(p, seeds, found, pruned)
  {
    hide Scored, IsSearch, Settled, Seeded;
  }

  /** The last pass left the beam's set unchanged. */
  ghost predicate Settled(states: seq<State>) {
    |states| >= 2 && SameSet(states[|states| - 2].beam, states[|states| - 1].beam)
  }

  lemma OneState(s: State)
    ensures !Settled([s])
  {
  }

  lemma LastTwo(states: seq<State>, s: State, t: State)
    requires states != [] && s == states[|states| - 1]
    ensures Settled(states + [t]) <==> SameSet(s.beam, t.beam)
  {
    hide SameSet;
  }

  lemma BeamOf(p: Problem, s: State, found: map<Key, Entry>, pruned: set<Key>, beam: seq<Key>)
    requires ScoredIn(p, s, found, pruned, beam)
    ensures s.beam == beam && Scored(p, s.known, found, pruned)
  {
  }

  /** The seeds' totals, each with its first genome, and the first beam. */
  method Start(p: Problem, seeds: seq<Genome>, ghost universe: set<Key>) returns (found: map<Key, Entry>, beam: seq<Key>)
    requires p.width > 0 && forall g :: p.totals(g) in universe
    ensures var s := Seeded(p, seeds);
            IsState(p, s) && IsSearch(p, [s]) && ScoredIn(p, s, found, {}, beam) && s.known.Keys <= universe
  {
    hide Scored, IsState, Fresh, BestOf, IsSearch, Seeded;
    NothingScored(p);
    var keys, genomes := FreshOf(p, map[], map[], {}, seeds);
    found := map k | k in genomes :: Entry(genomes[k], p.score(k));
    beam := BestOf(p, keys);
    SeedsHold(p, seeds, found, universe);
    SeedsSearch(p, seeds, keys, genomes);
  }

  lemma SameSets(a: seq<Key>, b: seq<Key>)
    ensures SetOf(a) == SetOf(b) <==> SameSet(a, b)
    ensures a == b ==> SetOf(a) == SetOf(b)
  {
  }

  lemma SeedsSearch(p: Problem, seeds: seq<Genome>, keys: seq<Key>, genomes: Known)
    requires IsState(p, Seeded(p, seeds)) && (keys, genomes) == Fresh(p, map[], seeds)
    ensures IsSearch(p, [Seeded(p, seeds)]) && Seeded(p, seeds) == State(genomes, BestOf(p, keys))
  {
    hide IsState, Fresh, BestOf;
  }

  /** The next state of the search without floors; unless it keeps the beam, it scored a total that was not. */
  lemma Advance(p: Problem, states: seq<State>, s: State, universe: set<Key>) returns (t: State)
    requires p.width > 0 && IsSearch(p, states) && s == states[|states| - 1] && IsState(p, s)
    requires !Settled(states) && s.known.Keys <= universe && forall g :: p.totals(g) in universe
    ensures t == Passed(p, s) && IsState(p, t) && IsSearch(p, states + [t]) && t.known.Keys <= universe
    ensures t.beam != s.beam ==> |universe - t.known.Keys| < |universe - s.known.Keys|
  {
    hide Pass;
    PassHolds(p, s);
    PassGrows(p, s, universe);
    var (known, beam) := Pass(p, s.known, s.beam);
    t := State(known, beam);
    SearchMore(p, states, t);
  }

  function SetOf(keys: seq<Key>): (r: set<Key>)
    ensures forall k :: k in r <==> k in keys
  {
    if keys == [] then {} else SetOf(keys[..|keys| - 1]) + {keys[|keys| - 1]}
  }

  lemma NothingScored(p: Problem)
    ensures Scored(p, map[], map[], {})
  {
  }

  function Seeded(p: Problem, seeds: seq<Genome>): State {
    var f := Fresh(p, map[], seeds);
    State(f.1, BestOf(p, f.0))
  }

  lemma SeedsHold(p: Problem, seeds: seq<Genome>, found: map<Key, Entry>, universe: set<Key>)
    requires p.width > 0 && forall g :: p.totals(g) in universe
    requires var genomes := Fresh(p, map[], seeds).1; found.Keys == genomes.Keys && forall k :: k in found ==> found[k] == Entry(genomes[k], p.score(k))
    ensures var s := Seeded(p, seeds);
            IsState(p, s) && Scored(p, s.known, found, {}) && (forall k :: k in s.beam ==> k in found) && s.known.Keys <= universe
  {
    hide Sort, Fresh;
    var f := Fresh(p, map[], seeds);
    SortHolds(p, f.0);
    FreshIn(p, map[], seeds, universe);
  }

  lemma {:induction false} FreshIn(p: Problem, known: Known, hood: seq<Genome>, universe: set<Key>)
    requires forall g :: p.totals(g) in universe
    ensures Fresh(p, known, hood).1.Keys <= universe
  {
    if hood != [] { FreshIn(p, known, hood[..|hood| - 1], universe); }
  }

  /** A pass that changes the beam scores a total that was not. */
  lemma PassGrows(p: Problem, s: State, universe: set<Key>)
    requires IsState(p, s) && s.known.Keys <= universe && forall g :: p.totals(g) in universe
    ensures var (known, beam) := Pass(p, s.known, s.beam);
            known.Keys <= universe && (beam != s.beam ==> |universe - known.Keys| < |universe - s.known.Keys|)
  {
    hide Fresh, Hood, Admit, Descending;
    var hood := Hood(p, s.known, s.beam);
    var f := Fresh(p, s.known, hood);
    FreshIn(p, s.known, hood, universe);
    var known := s.known + f.1;
    assert known.Keys == s.known.Keys + f.1.Keys;
    if f.0 != [] {
      assert f.0[0] in f.0;
      var k := f.0[0];
      assert k in universe - s.known.Keys && universe - known.Keys <= (universe - s.known.Keys) - {k};
      SubsetSize(universe - known.Keys, (universe - s.known.Keys) - {k});
    }
  }

  lemma SearchMore(p: Problem, states: seq<State>, t: State)
    requires IsSearch(p, states) && IsState(p, t) && IsPass(p, states[|states| - 1], t)
    requires |states| >= 2 ==> !SameSet(states[|states| - 2].beam, states[|states| - 1].beam)
    ensures IsSearch(p, states + [t])
  {
    hide IsState, IsPass, SameSet;
    var more := states + [t];
    forall i | 0 <= i < |more| - 1 ensures IsState(p, more[i]) && IsPass(p, more[i], more[i + 1]) {
      if i < |states| - 1 { assert IsPass(p, states[i], states[i + 1]); }
    }
  }
}
