/** The merge of new results into a song's boards (gear_optimizer/store/boards.py). */
module Boards {
  import opened Arithmetic
  import opened Wrappers

  /** A result's entry: its number in insertion order and when it was last written. */
  datatype Result = Result(seqNo: nat, updated: int)

  /** A loadout with its base and best known Force Greats score and its results; `content` is its items and colors. */
  datatype Loadout = Loadout(hash: string, content: string, score: int, fgScore: Option<int>, meta: Option<Result>, fg: Option<Result>,
                             onMeta: bool, onFg: bool)

  datatype Row = Row(loadout: Loadout, metaTrace: Option<string>, fgTrace: Option<string>)

  /** A loadout while merging: its meta side and its FG side. */
  datatype Work = Work(source: Loadout, score: Option<int>, fgSeen: int, meta: Option<Result>, metaTrace: Option<string>,
                       paired: Option<int>, fgScore: Option<int>, fg: Option<Result>, fgTrace: Option<string>)

  const LIMIT := 51

  /** An FG result has its score. */
  predicate IsLoadout(x: Loadout) { x.fg.Some? ==> x.fgScore.Some? }

  function OrZero(x: Option<int>): int { if x.Some? then x.value else 0 }

  function Lift(row: Row): Work {
    var x := row.loadout;
    Work(x, if x.meta.Some? then Some(x.score) else None, if x.meta.Some? then OrZero(x.fgScore) else 0, x.meta, row.metaTrace,
         if x.fg.Some? then Some(x.score) else None, if x.fg.Some? then x.fgScore else None, x.fg, row.fgTrace)
  }

  function Blank(x: Loadout): Work { Work(x, None, 0, None, None, None, None, None, None) }

  /** Each side's score comes with its result. */
  predicate IsWork(w: Work) {
    && (w.meta.Some? <==> w.score.Some?) && (w.fg.Some? <==> w.fgScore.Some?) && (w.fg.Some? ==> w.paired.Some?)
  }

  datatype Numbers = Numbers(meta: nat, fg: nat)

  // ---- One result on one loadout.

  /** A newly stored meta result takes the next number, a higher score keeps the old one; the rest only stamps the side. */
  function WithMeta(w: Work, result: Row, now: int, next: nat): Work
    requires IsWork(w) && result.loadout.meta.Some?
  {
    var new_ := result.loadout;
    var stored := w.meta.None? || new_.score > w.score.value;
    var number := if w.meta.None? then next else w.meta.value.seqNo;
    w.(source := if stored then new_ else w.source, score := if stored then Some(new_.score) else w.score,
       metaTrace := if stored then result.metaTrace else w.metaTrace, meta := Some(Result(number, now)),
       fgSeen := Max(w.fgSeen, OrZero(new_.fgScore)))
  }

  /** An FG result is stored when new or at least as good. */
  function WithFg(w: Work, result: Row, now: int, next: nat): Work
    requires IsWork(w) && result.loadout.fg.Some? && IsLoadout(result.loadout)
  {
    var new_ := result.loadout;
    var stored := w.fg.None? || new_.fgScore.value >= w.fgScore.value;
    var number := if w.fg.None? then next else w.fg.value.seqNo;
    w.(source := if stored && w.meta.None? then new_ else w.source, paired := if stored then Some(new_.score) else w.paired,
       fgTrace := if stored then result.fgTrace else w.fgTrace,
       fgScore := if !stored then w.fgScore else if w.fgScore.None? then new_.fgScore else Some(Max(w.fgScore.value, new_.fgScore.value)),
       fg := Some(Result(number, now)))
  }

  function Entry(work: map<string, Work>, x: Loadout): Work { if x.hash in work then work[x.hash] else Blank(x) }

  /** Well-formed, and filed under its loadout. */
  ghost predicate AllWork(work: map<string, Work>) { forall h :: h in work ==> IsWork(work[h]) && work[h].source.hash == h }

  function MetaMerged(work: map<string, Work>, result: Row, now: int, next: Numbers): (map<string, Work>, Numbers)
    requires AllWork(work)
  {
    var x := result.loadout;
    if x.meta.None? then (work, next)
    else
      var w := Entry(work, x);
      (work[x.hash := WithMeta(w, result, now, next.meta)], if w.meta.None? then next.(meta := next.meta + 1) else next)
  }

  function FgMerged(work: map<string, Work>, result: Row, now: int, next: Numbers): (map<string, Work>, Numbers)
    requires AllWork(work) && IsLoadout(result.loadout)
  {
    var x := result.loadout;
    if x.fg.None? then (work, next)
    else
      var w := Entry(work, x);
      (work[x.hash := WithFg(w, result, now, next.fg)], if w.fg.None? then next.(fg := next.fg + 1) else next)
  }

  // ---- The numbers stay distinct and below the next ones.

  ghost predicate Numbered(work: map<string, Work>, next: Numbers) {
    && (forall h :: h in work && work[h].meta.Some? ==> work[h].meta.value.seqNo < next.meta)
    && (forall h :: h in work && work[h].fg.Some? ==> work[h].fg.value.seqNo < next.fg)
    && (forall h, g :: h in work && g in work && h != g && work[h].meta.Some? && work[g].meta.Some? ==>
          work[h].meta.value.seqNo != work[g].meta.value.seqNo)
    && (forall h, g :: h in work && g in work && h != g && work[h].fg.Some? && work[g].fg.Some? ==>
          work[h].fg.value.seqNo != work[g].fg.value.seqNo)
  }

  ghost predicate Consistent(work: map<string, Work>, next: Numbers) { AllWork(work) && Numbered(work, next) }

  lemma MetaKeeps(work: map<string, Work>, result: Row, now: int, next: Numbers)
    requires Consistent(work, next)
    ensures var (work', next') := MetaMerged(work, result, now, next); Consistent(work', next')
  {
  }

  lemma FgKeeps(work: map<string, Work>, result: Row, now: int, next: Numbers)
    requires Consistent(work, next) && IsLoadout(result.loadout)
    ensures var (work', next') := FgMerged(work, result, now, next); Consistent(work', next')
  {
  }

  /** No side gets worse, and no result is lost. */
  ghost predicate NoWorse(before: map<string, Work>, after: map<string, Work>) {
    forall h :: h in before ==> h in after && SidesNoWorse(before[h], after[h])
  }

  predicate SidesNoWorse(w: Work, w': Work) {
    && (w.meta.Some? && w.score.Some? ==> w'.meta.Some? && w'.score.Some? && w'.score.value >= w.score.value)
    && (w.fg.Some? && w.fgScore.Some? ==> w'.fg.Some? && w'.fgScore.Some? && w'.fgScore.value >= w.fgScore.value)
  }

  lemma MetaNoWorse(work: map<string, Work>, result: Row, now: int, next: Numbers)
    requires Consistent(work, next)
    ensures NoWorse(work, MetaMerged(work, result, now, next).0)
  {
  }

  lemma FgNoWorse(work: map<string, Work>, result: Row, now: int, next: Numbers)
    requires Consistent(work, next) && IsLoadout(result.loadout)
    ensures NoWorse(work, FgMerged(work, result, now, next).0)
  {
  }

  lemma NoWorseTransitive(a: map<string, Work>, b: map<string, Work>, c: map<string, Work>)
    requires NoWorse(a, b) && NoWorse(b, c)
    ensures NoWorse(a, c)
  {
  }

  // ---- The merge, result by result.

  function Kept(row: Row): bool { row.loadout.meta.Some? || row.loadout.fg.Some? }

  ghost predicate AreResults(results: seq<Row>) { forall r :: r in results ==> IsLoadout(r.loadout) }

  ghost predicate AreRows(rows: seq<Row>, next: Numbers) {
    && (forall r :: r in rows ==> IsLoadout(r.loadout))
    && (forall i, j :: 0 <= i < j < |rows| ==> rows[i].loadout.hash != rows[j].loadout.hash)
    && Numbered(Lifted(rows), next)
  }

  function Lifted(rows: seq<Row>): map<string, Work> {
    if rows == [] then map[] else Lifted(rows[..|rows| - 1])[rows[|rows| - 1].loadout.hash := Lift(rows[|rows| - 1])]
  }

  lemma {:induction false} LiftedIs(rows: seq<Row>)
    requires (forall r :: r in rows ==> IsLoadout(r.loadout))
    requires forall i, j :: 0 <= i < j < |rows| ==> rows[i].loadout.hash != rows[j].loadout.hash
    ensures AllWork(Lifted(rows))
    ensures forall i :: 0 <= i < |rows| ==> rows[i].loadout.hash in Lifted(rows) && Lifted(rows)[rows[i].loadout.hash] == Lift(rows[i])
  {
    hide Lift, IsWork;
    if rows != [] {
      var front, last := rows[..|rows| - 1], rows[|rows| - 1];
      LiftedIs(front);
      LiftIsWork(last);
      assert last in rows;
    }
  }

  lemma LiftIsWork(row: Row)
    requires IsLoadout(row.loadout)
    ensures IsWork(Lift(row)) && Lift(row).source.hash == row.loadout.hash
  {
  }

  // ---- All results, the meta sides first.

  /** The work after the meta sides of the results, one after another. */
  ghost function MetaFold(work: map<string, Work>, results: seq<Row>, now: int, next: Numbers): (r: (map<string, Work>, Numbers))
    requires Consistent(work, next)
    ensures Consistent(r.0, r.1)
  {
    if results == [] then (work, next)
    else
      var (w, n) := MetaFold(work, results[..|results| - 1], now, next);
      MetaKeeps(w, results[|results| - 1], now, n);
      MetaMerged(w, results[|results| - 1], now, n)
  }

  /** The work after their FG sides. */
  ghost function FgFold(work: map<string, Work>, results: seq<Row>, now: int, next: Numbers): (r: (map<string, Work>, Numbers))
    requires Consistent(work, next) && forall k :: 0 <= k < |results| ==> IsLoadout(results[k].loadout)
    ensures Consistent(r.0, r.1)
  {
    if results == [] then (work, next)
    else
      var (w, n) := FgFold(work, results[..|results| - 1], now, next);
      FgKeeps(w, results[|results| - 1], now, n);
      FgMerged(w, results[|results| - 1], now, n)
  }

  ghost function Folded(work: map<string, Work>, results: seq<Row>, now: int, next: Numbers): (r: (map<string, Work>, Numbers))
    requires Consistent(work, next) && AreResults(results)
    ensures Consistent(r.0, r.1)
  {
    ResultLoadouts(results);
    var (w, n) := MetaFold(work, results, now, next);
    FgFold(w, results, now, n)
  }

  lemma ResultLoadouts(results: seq<Row>)
    requires AreResults(results)
    ensures forall k :: 0 <= k < |results| ==> IsLoadout(results[k].loadout)
  {
    forall k | 0 <= k < |results| ensures IsLoadout(results[k].loadout) { assert results[k] in results; }
  }

  lemma FoldNothing(work: map<string, Work>, results: seq<Row>, now: int, next: Numbers)
    requires Consistent(work, next)
    ensures MetaFold(work, results[..0], now, next) == (work, next) && FgFold(work, results[..0], now, next) == (work, next)
  {
  }

  lemma MetaFoldNext(work: map<string, Work>, results: seq<Row>, now: int, next: Numbers, k: nat)
    requires Consistent(work, next) && k < |results|
    ensures var (w, n) := MetaFold(work, results[..k], now, next);
            MetaFold(work, results[..k + 1], now, next) == MetaMerged(w, results[k], now, n)
  {
    hide Consistent, MetaMerged;
    assert results[..k + 1][..k] == results[..k];
  }

  lemma FgFoldNext(work: map<string, Work>, results: seq<Row>, now: int, next: Numbers, k: nat)
    requires Consistent(work, next) && k < |results| && forall i :: 0 <= i < |results| ==> IsLoadout(results[i].loadout)
    ensures var (w, n) := FgFold(work, results[..k], now, next);
            FgFold(work, results[..k + 1], now, next) == FgMerged(w, results[k], now, n)
  {
    hide Numbered, FgMerged;
    assert results[..k + 1][..k] == results[..k];
  }

  // ---- Each side ends at its best score: reached, and somebody's.

  ghost predicate HasFg(work: map<string, Work>, h: string) { h in work && work[h].fg.Some? }

  /** Some row has this meta score for the loadout. */
  ghost predicate MetaOf(rows: seq<Row>, h: string, score: int) {
    exists k :: 0 <= k < |rows| && rows[k].loadout.hash == h && rows[k].loadout.meta.Some? && rows[k].loadout.score == score
  }

  ghost predicate FgOf(rows: seq<Row>, h: string, score: int) {
    exists k :: 0 <= k < |rows| && rows[k].loadout.hash == h && rows[k].loadout.fg.Some? && rows[k].loadout.fgScore == Some(score)
  }

  /** The meta sides are those of `before` raised by the results: each result's score is reached, and no score is
      anybody else's. */
  ghost predicate MetaBest(before: map<string, Work>, results: seq<Row>, work: map<string, Work>)
    requires AllWork(before) && AllWork(work)
  {
    && (forall k :: 0 <= k < |results| && results[k].loadout.meta.Some? ==>
          HasMeta(work, results[k].loadout.hash) && work[results[k].loadout.hash].score.value >= results[k].loadout.score)
    && forall h :: HasMeta(work, h) ==>
         (HasMeta(before, h) && before[h].score == work[h].score) || MetaOf(results, h, work[h].score.value)
  }

  ghost predicate FgBest(before: map<string, Work>, results: seq<Row>, work: map<string, Work>)
    requires AllWork(before) && AllWork(work)
  {
    && (forall k :: 0 <= k < |results| && results[k].loadout.fg.Some? && results[k].loadout.fgScore.Some? ==>
          HasFg(work, results[k].loadout.hash) && work[results[k].loadout.hash].fgScore.value >= results[k].loadout.fgScore.value)
    && forall h :: HasFg(work, h) ==>
         (HasFg(before, h) && before[h].fgScore == work[h].fgScore) || FgOf(results, h, work[h].fgScore.value)
  }

  /** The meta sides' results and scores are the same. */
  ghost predicate SameMeta(a: map<string, Work>, b: map<string, Work>) {
    forall h :: (HasMeta(a, h) <==> HasMeta(b, h)) && (HasMeta(a, h) ==> a[h].score == b[h].score && a[h].meta == b[h].meta)
  }

  ghost predicate SameFg(a: map<string, Work>, b: map<string, Work>) {
    forall h :: (HasFg(a, h) <==> HasFg(b, h)) && (HasFg(a, h) ==> a[h].fgScore == b[h].fgScore && a[h].fg == b[h].fg)
  }

  /** A side stored before keeps its number. */
  ghost predicate KeepsNumbers(a: map<string, Work>, b: map<string, Work>) {
    && (forall h :: HasMeta(a, h) ==> HasMeta(b, h) && b[h].meta.value.seqNo == a[h].meta.value.seqNo)
    && forall h :: HasFg(a, h) ==> HasFg(b, h) && b[h].fg.value.seqNo == a[h].fg.value.seqNo
  }

  lemma MetaOfMore(results: seq<Row>, r: Row, h: string, score: int)
    ensures MetaOf(results, h, score) ==> MetaOf(results + [r], h, score)
    ensures r.loadout.hash == h && r.loadout.meta.Some? && r.loadout.score == score ==> MetaOf(results + [r], h, score)
    ensures FgOf(results, h, score) ==> FgOf(results + [r], h, score)
    ensures r.loadout.hash == h && r.loadout.fg.Some? && r.loadout.fgScore == Some(score) ==> FgOf(results + [r], h, score)
  {
    var more := results + [r];
    assert more[|results|] == r && forall k :: 0 <= k < |results| ==> more[k] == results[k];
  }

  lemma MetaStep(before: map<string, Work>, results: seq<Row>, work: map<string, Work>, r: Row, now: int, next: Numbers)
    requires AllWork(before) && Consistent(work, next) && MetaBest(before, results, work)
    ensures var after := MetaMerged(work, r, now, next).0;
            AllWork(after) && MetaBest(before, results + [r], after) && SameFg(work, after) && KeepsNumbers(work, after)
  {
    hide Numbered, MetaOf;
    MetaKeeps(work, r, now, next);
    var after, h := MetaMerged(work, r, now, next).0, r.loadout.hash;
    MetaNoWorse(work, r, now, next);
    forall g | HasMeta(after, g)
      ensures (HasMeta(before, g) && before[g].score == after[g].score) || MetaOf(results + [r], g, after[g].score.value)
    {
      MetaOfMore(results, r, g, after[g].score.value);
    }
  }

  lemma FgStep(before: map<string, Work>, results: seq<Row>, work: map<string, Work>, r: Row, now: int, next: Numbers)
    requires AllWork(before) && Consistent(work, next) && FgBest(before, results, work) && IsLoadout(r.loadout)
    ensures var after := FgMerged(work, r, now, next).0;
            AllWork(after) && FgBest(before, results + [r], after) && SameMeta(work, after) && KeepsNumbers(work, after)
  {
    hide Numbered, FgOf;
    FgKeeps(work, r, now, next);
    var after, h := FgMerged(work, r, now, next).0, r.loadout.hash;
    FgNoWorse(work, r, now, next);
    forall g | HasFg(after, g)
      ensures (HasFg(before, g) && before[g].fgScore == after[g].fgScore) || FgOf(results + [r], g, after[g].fgScore.value)
    {
      MetaOfMore(results, r, g, after[g].fgScore.value);
    }
  }

  lemma {:induction false} MetaFoldIsBest(work: map<string, Work>, results: seq<Row>, now: int, next: Numbers)
    requires Consistent(work, next)
    ensures var after := MetaFold(work, results, now, next).0;
            AllWork(after) && MetaBest(work, results, after) && SameFg(work, after) && KeepsNumbers(work, after)
  {
    hide Numbered, MetaMerged;
    if results != [] {
      var init, last := results[..|results| - 1], results[|results| - 1];
      MetaFoldIsBest(work, init, now, next);
      var (w, n) := MetaFold(work, init, now, next);
      MetaStep(work, init, w, last, now, n);
      assert results == init + [last];
    }
  }

  lemma {:induction false} FgFoldIsBest(work: map<string, Work>, results: seq<Row>, now: int, next: Numbers)
    requires Consistent(work, next) && forall k :: 0 <= k < |results| ==> IsLoadout(results[k].loadout)
    ensures var after := FgFold(work, results, now, next).0;
            AllWork(after) && FgBest(work, results, after) && SameMeta(work, after) && KeepsNumbers(work, after)
  {
    hide Numbered, FgMerged;
    if results != [] {
      var init, last := results[..|results| - 1], results[|results| - 1];
      FgFoldIsBest(work, init, now, next);
      var (w, n) := FgFold(work, init, now, next);
      FgStep(work, init, w, last, now, n);
      assert results == init + [last];
    }
  }

  /** After all results each side has the best score there is: the stored one's or some result's, and none is higher. */
  lemma FoldedIsBest(work: map<string, Work>, results: seq<Row>, now: int, next: Numbers)
    requires Consistent(work, next) && AreResults(results)
    ensures var after := Folded(work, results, now, next).0;
            AllWork(after) && MetaBest(work, results, after) && FgBest(work, results, after) && KeepsNumbers(work, after)
  {
    hide Numbered, MetaOf, FgOf, AreResults;
    ResultLoadouts(results);
    var (w, n) := MetaFold(work, results, now, next);
    MetaFoldIsBest(work, results, now, next);
    FgFoldIsBest(w, results, now, n);
  }

  class Merger {
    var work: map<string, Work>
    var next: Numbers

    ghost predicate Valid()
      reads this
    {
      Consistent(work, next)
    }

    constructor (rows: seq<Row>, numbers: Numbers)
      requires AreRows(rows, numbers)
      ensures Valid() && work == Lifted(rows) && next == numbers
    {
      LiftedIs(rows);
      work := LiftRows(rows);
      next := numbers;
    }

    /** The work of every row, under its loadout's hash. */
    static function LiftRows(rows: seq<Row>): (work: map<string, Work>)
      ensures work == Lifted(rows)
    {
      Lifted(rows)
    }

    method MergeMeta(result: Row, now: int)
      requires Valid()
      modifies this
      ensures Valid() && (work, next) == MetaMerged(old(work), result, now, old(next))
    {
      MetaKeeps(work, result, now, next);
      ghost var w := Entry(work, result.loadout);
      var x := result.loadout;
      if x.meta.None? { return; }
      if x.hash !in work { work := work[x.hash := Blank(x)]; }
      var current := work[x.hash];
      var number: Option<nat> := None;
      if current.meta.None? {
        number := Some(next.meta);
        next := next.(meta := next.meta + 1);
      } else if x.score > current.score.value {
        number := Some(current.meta.value.seqNo);
      }
      if number.Some? {
        current := current.(source := x, score := Some(x.score), meta := Some(x.meta.value.(seqNo := number.value)), metaTrace := result.metaTrace);
      }
      current := current.(fgSeen := Max(current.fgSeen, OrZero(x.fgScore)), meta := Some(current.meta.value.(updated := now)));
      work := work[x.hash := current];
      assert current == WithMeta(w, result, now, old(next).meta);
      assert work == old(work)[x.hash := current];
    }

    method MergeFg(result: Row, now: int)
      requires Valid() && IsLoadout(result.loadout)
      modifies this
      ensures Valid() && (work, next) == FgMerged(old(work), result, now, old(next))
    {
      FgKeeps(work, result, now, next);
      ghost var w := Entry(work, result.loadout);
      var x := result.loadout;
      if x.fg.None? { return; }
      if x.hash !in work { work := work[x.hash := Blank(x)]; }
      var current := work[x.hash];
      var number: Option<nat> := None;
      if current.fg.None? {
        number := Some(next.fg);
        next := next.(fg := next.fg + 1);
      } else if x.fgScore.value >= current.fgScore.value {
        number := Some(current.fg.value.seqNo);
      }
      if number.Some? {
        if current.meta.None? { current := current.(source := x); }
        var best := if current.fgScore.None? then x.fgScore.value else Max(current.fgScore.value, x.fgScore.value);
        current := current.(paired := Some(x.score), fg := Some(x.fg.value.(seqNo := number.value)), fgTrace := result.fgTrace, fgScore := Some(best));
      }
      current := current.(fg := Some(current.fg.value.(updated := now)));
      work := work[x.hash := current];
      assert current == WithFg(w, result, now, old(next).fg);
      assert work == old(work)[x.hash := current];
    }

    method MergeAll(results: seq<Row>, now: int)
      requires Valid() && AreResults(results)
      modifies this
      ensures Valid() && (work, next) == Folded(old(work), results, now, old(next))
      ensures NoWorse(old(work), work)
      ensures forall r :: r in results && Kept(r) ==> r.loadout.hash in work
    {
      hide Numbered, NoWorse, MetaFold, FgFold, MetaMerged, FgMerged;
      NoWorseItself(work);
      ResultLoadouts(results);
      FoldNothing(work, results, now, next);
      for i := 0 to |results|
        invariant Valid() && NoWorse(old(work), work)
        invariant (work, next) == MetaFold(old(work), results[..i], now, old(next))
        invariant forall k :: 0 <= k < i && results[k].loadout.meta.Some? ==> results[k].loadout.hash in work
      {
        MetaNoWorse(work, results[i], now, next);
        MetaEntries(work, results[i], now, next);
        NoWorseTransitive(old(work), work, MetaMerged(work, results[i], now, next).0);
        MetaFoldNext(old(work), results, now, old(next), i);
        MergeMeta(results[i], now);
      }
      assert results[..|results|] == results;
      ghost var metaWork, metaNext := work, next;
      FoldNothing(work, results, now, next);
      for i := 0 to |results|
        invariant Valid() && NoWorse(old(work), work)
        invariant (work, next) == FgFold(metaWork, results[..i], now, metaNext)
        invariant forall k :: 0 <= k < |results| && results[k].loadout.meta.Some? ==> results[k].loadout.hash in work
        invariant forall k :: 0 <= k < i && results[k].loadout.fg.Some? ==> results[k].loadout.hash in work
      {
        assert results[i] in results;
        FgNoWorse(work, results[i], now, next);
        FgEntries(work, results[i], now, next);
        NoWorseTransitive(old(work), work, FgMerged(work, results[i], now, next).0);
        FgFoldNext(metaWork, results, now, metaNext, i);
        MergeFg(results[i], now);
      }
      forall r | r in results && Kept(r) ensures r.loadout.hash in work {
        var k :| 0 <= k < |results| && results[k] == r;
        assert results[k].loadout.hash in work;
      }
    }
  }

  ghost predicate HasMeta(work: map<string, Work>, h: string) { h in work && work[h].meta.Some? }

  lemma NoWorseItself(work: map<string, Work>)
    ensures NoWorse(work, work)
  {
  }

  /** No entry is lost, and a result with the side has one. */
  lemma MetaEntries(work: map<string, Work>, result: Row, now: int, next: Numbers)
    requires Consistent(work, next)
    ensures forall h :: h in work ==> h in MetaMerged(work, result, now, next).0
    ensures result.loadout.meta.Some? ==> result.loadout.hash in MetaMerged(work, result, now, next).0
  {
  }

  lemma FgEntries(work: map<string, Work>, result: Row, now: int, next: Numbers)
    requires Consistent(work, next) && IsLoadout(result.loadout)
    ensures forall h :: h in work ==> h in FgMerged(work, result, now, next).0
    ensures result.loadout.fg.Some? ==> result.loadout.hash in FgMerged(work, result, now, next).0
  {
  }

  // ---- What a loadout's FG result is paired with.

  /** A loadout's last FG result of highest score. */
  function BestFg(results: seq<Row>, h: string): (best: Option<Row>)
    requires forall k :: 0 <= k < |results| ==> IsLoadout(results[k].loadout)
    ensures best.Some? ==> best.value in results && best.value.loadout.hash == h && best.value.loadout.fg.Some? && best.value.loadout.fgScore.Some?
  {
    if results == [] then None
    else
      assert IsLoadout(results[|results| - 1].loadout);
      var before, last := BestFg(results[..|results| - 1], h), results[|results| - 1];
      if last.loadout.hash != h || last.loadout.fg.None? then before
      else if before.Some? && before.value.loadout.fgScore.value > last.loadout.fgScore.value then before
      else Some(last)
  }

  /** It is one of the loadout's FG results; none has a higher score, and no later one as high a score. */
  lemma {:induction false} BestFgIs(results: seq<Row>, h: string) returns (at: int)
    requires forall k :: 0 <= k < |results| ==> IsLoadout(results[k].loadout)
    ensures BestFg(results, h).None? ==> at == -1
    ensures BestFg(results, h).Some? ==> 0 <= at < |results| && BestFg(results, h) == Some(results[at])
    ensures forall k :: 0 <= k < |results| && results[k].loadout.hash == h && results[k].loadout.fg.Some? ==>
              at >= 0 && results[k].loadout.fgScore.Some? && results[at].loadout.fgScore.Some? && results[k].loadout.fgScore.value <= results[at].loadout.fgScore.value
              && (k > at ==> results[k].loadout.fgScore.value < results[at].loadout.fgScore.value)
  {
    at := -1;
    if results != [] {
      var front, last := results[..|results| - 1], results[|results| - 1];
      at := BestFgIs(front, h);
      assert IsLoadout(results[|results| - 1].loadout);
      if last.loadout.hash == h && last.loadout.fg.Some? && !(BestFg(front, h).Some? && BestFg(front, h).value.loadout.fgScore.value > last.loadout.fgScore.value) {
        at := |results| - 1;
      }
    }
  }

  ghost predicate HasMetaResult(results: seq<Row>, h: string) {
    exists k :: 0 <= k < |results| && results[k].loadout.hash == h && results[k].loadout.meta.Some?
  }

  /** Loadout h has the same entry, or none, in both. */
  predicate SameEntry(a: map<string, Work>, b: map<string, Work>, h: string) { (h in a <==> h in b) && (h in a ==> a[h] == b[h]) }

  /** Loadout h's FG side after its best result: the stored score and pairing where that score is higher, else the result's. */
  predicate PairedWith(before: map<string, Work>, best: Loadout, after: map<string, Work>, h: string) {
    && h in after && after[h].fg.Some? && (if h in before then after[h].meta == before[h].meta else after[h].meta.None?)
    && best.fgScore.Some?
    && if h in before && before[h].fg.Some? && before[h].fgScore.Some? && before[h].fgScore.value > best.fgScore.value
       then after[h].fgScore == before[h].fgScore && after[h].paired == before[h].paired
       else after[h].fgScore == best.fgScore && after[h].paired == Some(best.score)
  }

  lemma {:induction false} MetaFoldLeaves(work: map<string, Work>, results: seq<Row>, now: int, next: Numbers, h: string)
    requires Consistent(work, next) && !HasMetaResult(results, h)
    ensures SameEntry(work, MetaFold(work, results, now, next).0, h)
  {
    hide Consistent;
    if results != [] {
      var front, last := results[..|results| - 1], results[|results| - 1];
      assert forall k :: 0 <= k < |front| ==> front[k] == results[k];
      assert !HasMetaResult(front, h);
      MetaFoldLeaves(work, front, now, next, h);
      assert last.loadout.hash != h || last.loadout.meta.None?;
    }
  }

  lemma {:induction false} FgFoldPairs(work: map<string, Work>, results: seq<Row>, now: int, next: Numbers, h: string)
    requires Consistent(work, next) && forall k :: 0 <= k < |results| ==> IsLoadout(results[k].loadout)
    ensures var after, best := FgFold(work, results, now, next).0, BestFg(results, h);
            if best.None? then SameEntry(work, after, h) else PairedWith(work, best.value.loadout, after, h)
  {
    hide Numbered;
    if results != [] {
      var front := results[..|results| - 1];
      assert forall k :: 0 <= k < |front| ==> front[k] == results[k];
      FgFoldPairs(work, front, now, next, h);
    }
  }

  // ---- Rows again, ranked.

  function Projected(w: Work): Option<Row>
    requires IsWork(w)
  {
    if w.meta.None? && w.fg.None? then None
    else
      var score := if w.meta.Some? then w.score.value else w.paired.value;
      var fgScore := if w.fg.Some? then w.fgScore else if w.fgSeen != 0 then Some(w.fgSeen) else None;
      Some(Row(w.source.(score := score, fgScore := fgScore, meta := w.meta, fg := w.fg, onMeta := false, onFg := false),
               if w.meta.Some? then w.metaTrace else None, w.fgTrace))
  }

  /** A place on a board: a score and the entry's number. */
  datatype Candidate = Candidate(score: int, seqNo: nat, hash: string)

  /** The higher score, of equal ones the earlier entry. */
  predicate Before(x: Candidate, y: Candidate) { x.score > y.score || (x.score == y.score && x.seqNo < y.seqNo) }

  /** Among the first LIMIT. */
  ghost predicate IsOnBoard(board: set<Candidate>, c: Candidate) {
    c in board && |set x | x in board && Before(x, c)| < LIMIT
  }

  predicate MetaEligible(row: Row) { row.loadout.meta.Some? }

  predicate FgEligible(row: Row) {
    row.loadout.fg.Some? && row.loadout.fgScore.Some? && row.loadout.fgScore.value > row.loadout.score
  }

  function MetaCandidate(row: Row): Candidate
    requires MetaEligible(row)
  {
    Candidate(row.loadout.score, row.loadout.meta.value.seqNo, row.loadout.hash)
  }

  function FgCandidate(row: Row): Candidate
    requires FgEligible(row)
  {
    Candidate(row.loadout.fgScore.value, row.loadout.fg.value.seqNo, row.loadout.hash)
  }

  function MetaBoard(rows: map<string, Row>): set<Candidate> {
    set h | h in rows && MetaEligible(rows[h]) :: MetaCandidate(rows[h])
  }

  function FgBoard(rows: map<string, Row>): set<Candidate> {
    set h | h in rows && FgEligible(rows[h]) :: FgCandidate(rows[h])
  }

  ghost predicate TotalOrder(board: set<Candidate>) {
    forall x, y :: x in board && y in board && x != y ==> Before(x, y) || Before(y, x)
  }

  ghost predicate Sorted(list: seq<Candidate>) { forall i, j :: 0 <= i < j < |list| ==> Before(list[i], list[j]) }

  function Elements(list: seq<Candidate>): (r: set<Candidate>)
    ensures forall x :: x in r <==> x in list
  {
    if list == [] then {} else Elements(list[..|list| - 1]) + {list[|list| - 1]}
  }

  lemma {:induction false} SortedElements(list: seq<Candidate>)
    requires Sorted(list)
    ensures |Elements(list)| == |list|
  {
    if list != [] {
      var front := list[..|list| - 1];
      SortedElements(front);
      forall i | 0 <= i < |front| ensures front[i] != list[|list| - 1] { assert Before(list[i], list[|list| - 1]); }
    }
  }

  /** A candidate's rank is its place in the sorted list. */
  lemma RankIsPlace(list: seq<Candidate>, p: nat)
    requires Sorted(list) && p < |list|
    ensures |set x | x in Elements(list) && Before(x, list[p])| == p
  {
    var above := set x | x in Elements(list) && Before(x, list[p]);
    assert Sorted(list[..p]);
    SortedElements(list[..p]);
    assert forall i :: p <= i < |list| ==> !Before(list[i], list[p]);
    forall x ensures x in above <==> x in list[..p] {
      if x in above {
        var i :| 0 <= i < |list| && list[i] == x;
        assert list[..p][i] == x;
      }
      if x in list[..p] {
        var i :| 0 <= i < p && list[i] == x;
        assert Before(list[i], list[p]);
      }
    }
    assert above == Elements(list[..p]);
  }

  /** The projected rows of the loadouts with a result. */
  function ProjectedRows(work: map<string, Work>): map<string, Row>
    requires AllWork(work)
  {
    map h | h in work && Projected(work[h]).Some? :: Projected(work[h]).value
  }

  ghost predicate RowsNumbered(rows: map<string, Row>) {
    && (forall h :: h in rows ==> rows[h].loadout.hash == h)
    && (forall h, g :: h in rows && g in rows && h != g && rows[h].loadout.meta.Some? && rows[g].loadout.meta.Some? ==>
          rows[h].loadout.meta.value.seqNo != rows[g].loadout.meta.value.seqNo)
    && (forall h, g :: h in rows && g in rows && h != g && rows[h].loadout.fg.Some? && rows[g].loadout.fg.Some? ==>
          rows[h].loadout.fg.value.seqNo != rows[g].loadout.fg.value.seqNo)
  }

  lemma ProjectedNumbered(work: map<string, Work>, next: Numbers)
    requires Consistent(work, next)
    ensures RowsNumbered(ProjectedRows(work))
  {
    var rows := ProjectedRows(work);
    assert forall h :: h in rows ==> rows[h].loadout.meta == work[h].meta && rows[h].loadout.fg == work[h].fg && rows[h].loadout.hash == h;
  }

  lemma BoardsAreOrdered(rows: map<string, Row>)
    requires RowsNumbered(rows)
    ensures TotalOrder(MetaBoard(rows)) && TotalOrder(FgBoard(rows))
  {
    forall x, y | x in MetaBoard(rows) && y in MetaBoard(rows) && x != y ensures Before(x, y) || Before(y, x) {
      var h, g :| h in rows && MetaEligible(rows[h]) && x == MetaCandidate(rows[h]) && g in rows && MetaEligible(rows[g]) && y == MetaCandidate(rows[g]);
    }
    forall x, y | x in FgBoard(rows) && y in FgBoard(rows) && x != y ensures Before(x, y) || Before(y, x) {
      var h, g :| h in rows && FgEligible(rows[h]) && x == FgCandidate(rows[h]) && g in rows && FgEligible(rows[g]) && y == FgCandidate(rows[g]);
    }
  }

  function Inserted(list: seq<Candidate>, c: Candidate): seq<Candidate> {
    if list == [] then [c]
    else
      var front, last := list[..|list| - 1], list[|list| - 1];
      if Before(last, c) then list + [c] else Inserted(front, c) + [last]
  }

  lemma {:induction false} InsertedElements(list: seq<Candidate>, c: Candidate)
    ensures Elements(Inserted(list, c)) == Elements(list) + {c}
  {
    hide Before;
    if list != [] {
      var front, last := list[..|list| - 1], list[|list| - 1];
      InsertedElements(front, c);
      ElementsMore(list, c);
      ElementsMore(Inserted(front, c), last);
      ElementsMore(front, last);
      assert front + [last] == list;
    }
  }

  lemma ElementsMore(list: seq<Candidate>, c: Candidate)
    ensures Elements(list + [c]) == Elements(list) + {c}
  {
    assert (list + [c])[..|list|] == list;
  }

  lemma {:induction false} InsertedSorted(board: set<Candidate>, list: seq<Candidate>, c: Candidate)
    requires TotalOrder(board) && Sorted(list) && (forall x :: x in list ==> x in board) && c in board && c !in list
    ensures Sorted(Inserted(list, c)) && forall x :: x in Inserted(list, c) ==> x in list || x == c
  {
    hide Before, TotalOrder;
    if list != [] {
      var front, last := list[..|list| - 1], list[|list| - 1];
      assert last in list;
      OneBefore(board, last, c);
      if Before(last, c) {
        AppendSorted(list, c);
      } else {
        InsertedSorted(board, front, c);
        var rest := Inserted(front, c);
        forall i | 0 <= i < |rest| ensures Before(rest[i], last) {
          assert rest[i] in rest;
          if rest[i] != c {
            var k :| 0 <= k < |front| && front[k] == rest[i];
            assert Before(list[k], last);
          }
        }
      }
    }
  }

  lemma OneBefore(board: set<Candidate>, x: Candidate, y: Candidate)
    requires TotalOrder(board) && x in board && y in board && x != y
    ensures Before(x, y) || Before(y, x)
  {
  }

  lemma AppendSorted(list: seq<Candidate>, c: Candidate)
    requires Sorted(list) && list != [] && Before(list[|list| - 1], c)
    ensures Sorted(list + [c])
  {
    forall i | 0 <= i < |list| ensures Before(list[i], c) {
      if i < |list| - 1 { assert Before(list[i], list[|list| - 1]); }
    }
  }

  method SortedOf(board: set<Candidate>) returns (list: seq<Candidate>)
    requires TotalOrder(board)
    ensures Sorted(list) && Elements(list) == board
  {
    hide TotalOrder, Sorted, Inserted, Elements;
    list := [];
    EmptyList();
    var left := board;
    while left != {}
      invariant Sorted(list) && left <= board && Elements(list) == board - left
      decreases |left|
    {
      var c :| c in left;
      assert forall x :: x in list ==> x in Elements(list);
      InsertedSorted(board, list, c);
      InsertedElements(list, c);
      left := left - {c};
      list := Inserted(list, c);
    }
  }

  lemma EmptyList()
    ensures Sorted([]) && Elements([]) == {}
  {
  }

  /** The hashes of a board's first LIMIT, by a sort of its candidates. */
  method TopOf(board: set<Candidate>) returns (top: set<string>)
    requires TotalOrder(board)
    ensures forall h :: h in top <==> exists c :: IsOnBoard(board, c) && c.hash == h
  {
    var list := SortedOf(board);
    var count := if |list| < LIMIT then |list| else LIMIT;
    top := set i | 0 <= i < count :: list[i].hash;
    TopIsOnBoard(board, list, count, top);
  }

  lemma TopIsOnBoard(board: set<Candidate>, list: seq<Candidate>, count: nat, top: set<string>)
    requires Sorted(list) && Elements(list) == board && count == (if |list| < LIMIT then |list| else LIMIT)
    requires top == set i | 0 <= i < count :: list[i].hash
    ensures forall h :: h in top <==> exists c :: IsOnBoard(board, c) && c.hash == h
  {
    forall h | h in top ensures exists c :: IsOnBoard(board, c) && c.hash == h {
      var i :| 0 <= i < count && list[i].hash == h;
      RankIsPlace(list, i);
      assert IsOnBoard(board, list[i]);
    }
    forall h | exists c :: IsOnBoard(board, c) && c.hash == h ensures h in top {
      var c :| IsOnBoard(board, c) && c.hash == h;
      var i :| 0 <= i < |list| && list[i] == c;
      RankIsPlace(list, i);
    }
  }

  ghost predicate OnMeta(rows: map<string, Row>, h: string) {
    h in rows && MetaEligible(rows[h]) && IsOnBoard(MetaBoard(rows), MetaCandidate(rows[h]))
  }

  ghost predicate OnFg(rows: map<string, Row>, h: string) {
    h in rows && FgEligible(rows[h]) && IsOnBoard(FgBoard(rows), FgCandidate(rows[h]))
  }

  /** Only rows on a board are kept, each with its boards marked. */
  ghost predicate IsNormalized(rows: map<string, Row>, out: map<string, Row>) {
    forall h :: (h in out <==> OnMeta(rows, h) || OnFg(rows, h))
      && (h in out ==> out[h] == rows[h].(loadout := rows[h].loadout.(onMeta := OnMeta(rows, h), onFg := OnFg(rows, h))))
  }

  method Normalize(rows: map<string, Row>) returns (out: map<string, Row>)
    requires RowsNumbered(rows)
    ensures IsNormalized(rows, out)
  {
    hide MetaBoard, FgBoard, IsOnBoard, TotalOrder;
    BoardsAreOrdered(rows);
    var onMeta := TopOf(MetaBoard(rows));
    var onFg := TopOf(FgBoard(rows));
    HashesAre(rows, onMeta, onFg);
    out := map h | h in rows && (h in onMeta || h in onFg) :: rows[h].(loadout := rows[h].loadout.(onMeta := h in onMeta, onFg := h in onFg));
  }

  lemma HashesAre(rows: map<string, Row>, onMeta: set<string>, onFg: set<string>)
    requires RowsNumbered(rows)
    requires forall h :: h in onMeta <==> exists c :: IsOnBoard(MetaBoard(rows), c) && c.hash == h
    requires forall h :: h in onFg <==> exists c :: IsOnBoard(FgBoard(rows), c) && c.hash == h
    ensures forall h :: (h in onMeta <==> OnMeta(rows, h)) && (h in onFg <==> OnFg(rows, h))
  {
    forall h ensures (h in onMeta <==> OnMeta(rows, h)) && (h in onFg <==> OnFg(rows, h)) {
      if h in onMeta {
        var c :| IsOnBoard(MetaBoard(rows), c) && c.hash == h;
        var g :| g in rows && MetaEligible(rows[g]) && c == MetaCandidate(rows[g]);
      }
      if h in onFg {
        var c :| IsOnBoard(FgBoard(rows), c) && c.hash == h;
        var g :| g in rows && FgEligible(rows[g]) && c == FgCandidate(rows[g]);
      }
    }
  }

  /** The loadouts of the rows after all results: each result merged into its loadout in turn, the meta sides first. */
  ghost function MergedWork(rows: seq<Row>, results: seq<Row>, now: int, next: Numbers): (r: map<string, Work>)
    requires AreRows(rows, next) && AreResults(results)
    ensures AllWork(r)
  {
    LiftedIs(rows);
    Folded(Lifted(rows), results, now, next).0
  }

  /** A listed loadout's scores are the meta and the FG score of some stored row or result of it. */
  ghost predicate FromInputs(rows: seq<Row>, results: seq<Row>, x: Loadout) {
    && (x.meta.Some? ==> MetaOf(rows, x.hash, x.score) || MetaOf(results, x.hash, x.score))
    && (x.fg.Some? ==> x.fgScore.Some? && (FgOf(rows, x.hash, x.fgScore.value) || FgOf(results, x.hash, x.fgScore.value)))
  }

  /** A stored row the FG board alone lists stays eligible for it: no result is as good as its FG result, or the last of the
      best beats the base score it brings. */
  predicate StaysFg(row: Row, results: seq<Row>)
    requires row.loadout.fgScore.Some? && forall k :: 0 <= k < |results| ==> IsLoadout(results[k].loadout)
  {
    var best := BestFg(results, row.loadout.hash);
    best.None? || best.value.loadout.fgScore.value < row.loadout.fgScore.value || best.value.loadout.fgScore.value > best.value.loadout.score
  }

  /** What a caller can check of a stored row beforehand: it has a meta result or gets one, or its FG result stays eligible. */
  ghost predicate Unharmed(row: Row, results: seq<Row>)
    requires forall k :: 0 <= k < |results| ==> IsLoadout(results[k].loadout)
  {
    FgEligible(row) && row.loadout.meta.None? && !HasMetaResult(results, row.loadout.hash) ==> StaysFg(row, results)
  }

  /** The loadouts no result of the batch has are as they were. */
  ghost predicate Untouched(before: map<string, Work>, results: seq<Row>, after: map<string, Work>)
    requires forall k :: 0 <= k < |results| ==> IsLoadout(results[k].loadout)
  {
    forall h :: !HasMetaResult(results, h) && BestFg(results, h).None? ==> SameEntry(before, after, h)
  }

  // ---- Which result a merged row is.

  /** A row of the loadout with a meta result, or with an FG result. */
  predicate IsMetaOf(all: seq<Row>, h: string, k: int) { 0 <= k < |all| && all[k].loadout.hash == h && all[k].loadout.meta.Some? }

  predicate IsFgOf(all: seq<Row>, h: string, k: int) {
    0 <= k < |all| && all[k].loadout.hash == h && all[k].loadout.fg.Some? && all[k].loadout.fgScore.Some?
  }

  /** The first of the highest meta score. */
  ghost predicate IsMetaWinner(all: seq<Row>, h: string, k: int) {
    IsMetaOf(all, h, k) && forall j :: IsMetaOf(all, h, j) ==>
      all[j].loadout.score <= all[k].loadout.score && (j < k ==> all[j].loadout.score < all[k].loadout.score)
  }

  /** The last of the highest FG score. */
  ghost predicate IsFgWinner(all: seq<Row>, h: string, k: int) {
    IsFgOf(all, h, k) && forall j :: IsFgOf(all, h, j) ==>
      all[j].loadout.fgScore.value <= all[k].loadout.fgScore.value && (j > k ==> all[j].loadout.fgScore.value < all[k].loadout.fgScore.value)
  }

  /** A merged row against the stored rows and results of its loadout, in their order: its meta side and its items are the meta
      winner's, its FG side the FG winner's, its items and base score too where there is no meta side; without an FG result it
      keeps the stored replay. */
  ghost predicate IsMerged(rows: seq<Row>, results: seq<Row>, h: string, row: Row) {
    var all, x := rows + results, row.loadout;
    && (if x.meta.Some? then exists k :: IsMetaWinner(all, h, k) && IsMetaSide(all[k], row)
        else row.metaTrace.None? && forall k :: !IsMetaOf(all, h, k))
    && (if x.fg.Some? then exists k :: IsFgWinner(all, h, k) && IsFgSide(all[k], row)
        else (forall k :: !IsFgOf(all, h, k)) && KeepsReplay(rows, h, row))
  }

  predicate IsMetaSide(winner: Row, row: Row) {
    row.loadout.score == winner.loadout.score && row.metaTrace == winner.metaTrace && row.loadout.content == winner.loadout.content
  }

  predicate IsFgSide(winner: Row, row: Row) {
    && row.loadout.fgScore == winner.loadout.fgScore && row.fgTrace == winner.fgTrace
    && (row.loadout.meta.None? ==> row.loadout.score == winner.loadout.score && row.loadout.content == winner.loadout.content)
  }

  ghost predicate KeepsReplay(rows: seq<Row>, h: string, row: Row) {
    (row.fgTrace.None? && NotStored(rows, h)) || exists i :: 0 <= i < |rows| && rows[i].loadout.hash == h && row.fgTrace == rows[i].fgTrace
  }

  ghost predicate NotStored(rows: seq<Row>, h: string) { forall i :: 0 <= i < |rows| ==> rows[i].loadout.hash != h }

  /** The winners so far. */
  function MetaPick(all: seq<Row>, h: string): (best: Option<Row>)
    ensures best.Some? ==> best.value.loadout.meta.Some? && best.value.loadout.hash == h
  {
    if all == [] then None
    else
      var before, last := MetaPick(all[..|all| - 1], h), all[|all| - 1];
      if last.loadout.hash != h || last.loadout.meta.None? then before
      else if before.Some? && before.value.loadout.score >= last.loadout.score then before
      else Some(last)
  }

  lemma {:induction false} MetaPickIs(all: seq<Row>, h: string) returns (at: int)
    ensures MetaPick(all, h).None? ==> forall k :: !IsMetaOf(all, h, k)
    ensures MetaPick(all, h).Some? ==> IsMetaWinner(all, h, at) && MetaPick(all, h) == Some(all[at])
  {
    at := -1;
    if all != [] {
      var front, last := all[..|all| - 1], |all| - 1;
      at := MetaPickIs(front, h);
      assert forall k :: IsMetaOf(all, h, k) <==> IsMetaOf(front, h, k) || (k == last && IsMetaOf(all, h, last));
      if IsMetaOf(all, h, last) && !(MetaPick(front, h).Some? && MetaPick(front, h).value.loadout.score >= all[last].loadout.score) { at := last; }
    }
  }

  lemma FgPickIs(all: seq<Row>, h: string) returns (at: int)
    requires forall k :: 0 <= k < |all| ==> IsLoadout(all[k].loadout)
    ensures BestFg(all, h).None? ==> forall k :: !IsFgOf(all, h, k)
    ensures BestFg(all, h).Some? ==> IsFgWinner(all, h, at) && BestFg(all, h) == Some(all[at])
  {
    at := BestFgIs(all, h);
  }

  /** A loadout's work holds these winners' sides and items, and without an FG result this replay. */
  ghost predicate Holds(w: Work, meta: Option<Row>, fg: Option<Row>, replay: Option<string>) {
    && (w.meta.Some? <==> meta.Some?) && (w.fg.Some? <==> fg.Some?)
    && (meta.Some? ==> w.score == Some(meta.value.loadout.score) && w.metaTrace == meta.value.metaTrace && w.source == meta.value.loadout)
    && (fg.Some? ==> w.fgScore == fg.value.loadout.fgScore && w.paired == Some(fg.value.loadout.score) && w.fgTrace == fg.value.fgTrace)
    && (fg.Some? && meta.None? ==> w.source == fg.value.loadout)
    && (fg.None? ==> w.fgTrace == replay)
  }

  ghost predicate HoldsAt(work: map<string, Work>, h: string, meta: Option<Row>, fg: Option<Row>, replay: Option<string>) {
    if h in work then Holds(work[h], meta, fg, replay) else meta.None? && fg.None? && replay.None?
  }

  /** The stored replay of a loadout. */
  function ReplayOf(rows: seq<Row>, h: string): Option<string> {
    if rows == [] then None
    else if rows[|rows| - 1].loadout.hash == h then rows[|rows| - 1].fgTrace else ReplayOf(rows[..|rows| - 1], h)
  }

  lemma {:induction false} ReplayIs(rows: seq<Row>, h: string)
    ensures (ReplayOf(rows, h).None? && NotStored(rows, h)) || exists i :: 0 <= i < |rows| && rows[i].loadout.hash == h && ReplayOf(rows, h) == rows[i].fgTrace
  {
    if rows != [] {
      var last := |rows| - 1;
      ReplayIs(rows[..last], h);
      if rows[last].loadout.hash != h && !NotStored(rows[..last], h) {
        var i :| 0 <= i < last && rows[..last][i].loadout.hash == h && ReplayOf(rows[..last], h) == rows[..last][i].fgTrace;
        assert rows[i].loadout.hash == h;
      }
    }
  }

  lemma {:induction false} LiftedHolds(rows: seq<Row>, h: string)
    requires forall k :: 0 <= k < |rows| ==> IsLoadout(rows[k].loadout)
    requires forall i, j :: 0 <= i < j < |rows| ==> rows[i].loadout.hash != rows[j].loadout.hash
    ensures HoldsAt(Lifted(rows), h, MetaPick(rows, h), BestFg(rows, h), ReplayOf(rows, h))
    ensures h !in Lifted(rows) <==> NotStored(rows, h)
  {
    hide Holds;
    if rows != [] {
      var front, last := rows[..|rows| - 1], rows[|rows| - 1];
      LiftedHolds(front, h);
      if last.loadout.hash == h {
        assert NotStored(front, h);
        LiftHolds(last);
      } else {
        assert NotStored(rows, h) <==> NotStored(front, h);
      }
    }
  }

  lemma LiftHolds(row: Row)
    requires IsLoadout(row.loadout)
    ensures Holds(Lift(row), if row.loadout.meta.Some? then Some(row) else None, if row.loadout.fg.Some? then Some(row) else None, row.fgTrace)
  {
  }

  /** One more result. */
  lemma MetaHolds(w: Work, result: Row, now: int, number: nat, meta: Option<Row>, fg: Option<Row>, replay: Option<string>)
    requires IsWork(w) && result.loadout.meta.Some? && Holds(w, meta, fg, replay)
    ensures Holds(WithMeta(w, result, now, number),
                  if meta.Some? && meta.value.loadout.score >= result.loadout.score then meta else Some(result), fg, replay)
  {
  }

  lemma FgHolds(w: Work, result: Row, now: int, number: nat, meta: Option<Row>, fg: Option<Row>, replay: Option<string>)
    requires IsWork(w) && result.loadout.fg.Some? && IsLoadout(result.loadout) && Holds(w, meta, fg, replay)
    requires fg.Some? ==> fg.value.loadout.fgScore.Some?
    ensures Holds(WithFg(w, result, now, number), meta,
                  if fg.Some? && fg.value.loadout.fgScore.value > result.loadout.fgScore.value then fg else Some(result), replay)
  {
  }

  lemma BlankHolds(x: Loadout)
    ensures Holds(Blank(x), None, None, None) && IsWork(Blank(x))
  {
  }

  lemma {:induction false} MetaFoldHolds(rows: seq<Row>, results: seq<Row>, work: map<string, Work>, now: int, next: Numbers, h: string, fg: Option<Row>, replay: Option<string>)
    requires Consistent(work, next) && HoldsAt(work, h, MetaPick(rows, h), fg, replay)
    ensures HoldsAt(MetaFold(work, results, now, next).0, h, MetaPick(rows + results, h), fg, replay)
  {
    hide Holds, Numbered, WithMeta;
    if results == [] {
      assert rows + results == rows;
    } else {
      var front, last := results[..|results| - 1], results[|results| - 1];
      MetaFoldHolds(rows, front, work, now, next, h, fg, replay);
      var (w, n) := MetaFold(work, front, now, next);
      assert (rows + results)[..|rows + results| - 1] == rows + front;
      if last.loadout.hash == h && last.loadout.meta.Some? {
        BlankHolds(last.loadout);
        MetaHolds(Entry(w, last.loadout), last, now, n.meta, MetaPick(rows + front, h), fg, replay);
      }
    }
  }

  lemma {:induction false} FgFoldHolds(rows: seq<Row>, results: seq<Row>, work: map<string, Work>, now: int, next: Numbers, h: string, meta: Option<Row>, replay: Option<string>)
    requires Consistent(work, next) && (forall k :: 0 <= k < |rows| ==> IsLoadout(rows[k].loadout))
    requires (forall k :: 0 <= k < |results| ==> IsLoadout(results[k].loadout)) && HoldsAt(work, h, meta, BestFg(rows, h), replay)
    ensures HoldsAt(FgFold(work, results, now, next).0, h, meta, BestFg(rows + results, h), replay)
  {
    hide Holds, Numbered, WithFg;
    if results == [] {
      assert rows + results == rows;
    } else {
      var front, last := results[..|results| - 1], results[|results| - 1];
      FgFoldHolds(rows, front, work, now, next, h, meta, replay);
      var (w, n) := FgFold(work, front, now, next);
      assert (rows + results)[..|rows + results| - 1] == rows + front && (rows + results)[|rows + results| - 1] == last;
      if last.loadout.hash == h && last.loadout.fg.Some? {
        BlankHolds(last.loadout);
        FgHolds(Entry(w, last.loadout), last, now, n.fg, meta, BestFg(rows + front, h), replay);
      }
    }
  }

  /** After all results each loadout's work holds its winners. */
  lemma FoldedHolds(rows: seq<Row>, results: seq<Row>, now: int, next: Numbers, h: string)
    requires AreRows(rows, next) && AreResults(results)
    ensures forall k :: 0 <= k < |rows + results| ==> IsLoadout((rows + results)[k].loadout)
    ensures HoldsAt(MergedWork(rows, results, now, next), h, MetaPick(rows + results, h), BestFg(rows + results, h), ReplayOf(rows, h))
  {
    hide Numbered, Lifted, MetaFold, FgFold, HoldsAt, BestFg, MetaPick, ReplayOf;
    ResultLoadouts(results);
    LiftedIs(rows);
    assert forall k :: 0 <= k < |rows| ==> rows[k] in rows;
    LiftedHolds(rows, h);
    var (w, n) := MetaFold(Lifted(rows), results, now, next);
    MetaFoldHolds(rows, results, Lifted(rows), now, next, h, BestFg(rows, h), ReplayOf(rows, h));
    FgFoldHolds(rows, results, w, now, n, h, MetaPick(rows + results, h), ReplayOf(rows, h));
  }

  lemma ProjectedHolds(w: Work, meta: Option<Row>, fg: Option<Row>, replay: Option<string>)
    requires IsWork(w) && Holds(w, meta, fg, replay) && Projected(w).Some?
    ensures var row := Projected(w).value;
            && (row.loadout.meta.Some? <==> meta.Some?) && (row.loadout.fg.Some? <==> fg.Some?)
            && (if meta.Some? then IsMetaSide(meta.value, row) else row.metaTrace.None?)
            && (if fg.Some? then IsFgSide(fg.value, row) else row.fgTrace == replay)
  {
  }

  /** Every listed row is the one merged of its loadout's stored row and results. */
  lemma ListedIsMerged(rows: seq<Row>, results: seq<Row>, now: int, next: Numbers, out: map<string, Row>, h: string)
    requires AreRows(rows, next) && AreResults(results) && IsNormalized(ProjectedRows(MergedWork(rows, results, now, next)), out) && h in out
    ensures IsMerged(rows, results, h, out[h])
  {
    hide Holds, Numbered, BestFg, MetaPick, ReplayOf, IsOnBoard, MetaBoard, FgBoard, IsFgWinner, IsMetaWinner, Folded, Projected;
    var work, all := MergedWork(rows, results, now, next), rows + results;
    assert OnMeta(ProjectedRows(work), h) || OnFg(ProjectedRows(work), h);
    FoldedHolds(rows, results, now, next, h);
    ProjectedHolds(work[h], MetaPick(all, h), BestFg(all, h), ReplayOf(rows, h));
    var k := MetaPickIs(all, h);
    var j := FgPickIs(all, h);
    ReplayIs(rows, h);
  }

  // ---- The FG score a loadout without an FG result shows, and who goes first of equal scores.

  /** The best FG score seen with a meta result of the loadout; none seen above 0 counts as none. */
  ghost predicate IsSeen(all: seq<Row>, h: string, seen: int) {
    && (forall k :: IsMetaOf(all, h, k) ==> OrZero(all[k].loadout.fgScore) <= seen)
    && (seen == 0 || exists k :: IsMetaOf(all, h, k) && all[k].loadout.fgScore == Some(seen))
  }

  ghost predicate SeenAt(work: map<string, Work>, h: string, all: seq<Row>) {
    if HasMeta(work, h) then IsSeen(all, h, work[h].fgSeen)
    else (h in work ==> work[h].fgSeen == 0) && forall k :: !IsMetaOf(all, h, k)
  }

  lemma SeenMore(all: seq<Row>, h: string, seen: int, last: Row)
    requires last.loadout.hash == h && last.loadout.meta.Some? && (IsSeen(all, h, seen) || (seen == 0 && forall k :: !IsMetaOf(all, h, k)))
    ensures IsSeen(all + [last], h, Max(seen, OrZero(last.loadout.fgScore)))
  {
    var more, best := all + [last], Max(seen, OrZero(last.loadout.fgScore));
    assert forall k :: IsMetaOf(more, h, k) <==> IsMetaOf(all, h, k) || k == |all|;
    assert more[|all|] == last;
    if best == seen && seen != 0 {
      var k :| IsMetaOf(all, h, k) && all[k].loadout.fgScore == Some(seen);
      assert IsMetaOf(more, h, k) && more[k].loadout.fgScore == Some(best);
    } else if best != 0 {
      assert IsMetaOf(more, h, |all|) && more[|all|].loadout.fgScore == Some(best);
    }
  }

  lemma SameSeen(all: seq<Row>, h: string, seen: int, last: Row)
    requires last.loadout.hash != h || last.loadout.meta.None?
    ensures IsSeen(all, h, seen) <==> IsSeen(all + [last], h, seen)
    ensures (forall k :: !IsMetaOf(all, h, k)) <==> forall k :: !IsMetaOf(all + [last], h, k)
  {
    var more := all + [last];
    assert forall k :: IsMetaOf(more, h, k) <==> IsMetaOf(all, h, k);
    assert forall k :: IsMetaOf(all, h, k) ==> more[k] == all[k];
  }

  lemma {:induction false} LiftedSeen(rows: seq<Row>, h: string)
    requires forall k :: 0 <= k < |rows| ==> IsLoadout(rows[k].loadout)
    requires forall i, j :: 0 <= i < j < |rows| ==> rows[i].loadout.hash != rows[j].loadout.hash
    ensures SeenAt(Lifted(rows), h, rows)
    ensures h !in Lifted(rows) <==> NotStored(rows, h)
  {
    if rows != [] {
      var front, last := rows[..|rows| - 1], rows[|rows| - 1];
      LiftedSeen(front, h);
      assert rows == front + [last];
      if last.loadout.hash == h {
        assert NotStored(front, h);
        assert forall k :: IsMetaOf(rows, h, k) ==> k == |front|;
        assert last.loadout.meta.Some? && OrZero(last.loadout.fgScore) != 0 ==> IsMetaOf(rows, h, |front|) && rows[|front|].loadout.fgScore.Some?;
      } else {
        assert NotStored(rows, h) <==> NotStored(front, h);
        SameSeen(front, h, if h in Lifted(front) then Lifted(front)[h].fgSeen else 0, last);
      }
    }
  }

  lemma {:induction false} MetaFoldSeen(rows: seq<Row>, results: seq<Row>, work: map<string, Work>, now: int, next: Numbers, h: string)
    requires Consistent(work, next) && SeenAt(work, h, rows)
    ensures SeenAt(MetaFold(work, results, now, next).0, h, rows + results)
  {
    hide Numbered, IsSeen;
    if results == [] {
      assert rows + results == rows;
    } else {
      var front, last := results[..|results| - 1], results[|results| - 1];
      MetaFoldSeen(rows, front, work, now, next, h);
      var (w, n) := MetaFold(work, front, now, next);
      assert rows + results == rows + front + [last];
      if last.loadout.hash == h && last.loadout.meta.Some? {
        SeenMore(rows + front, h, Entry(w, last.loadout).fgSeen, last);
      } else {
        SameSeen(rows + front, h, if h in w then w[h].fgSeen else 0, last);
      }
    }
  }

  lemma {:induction false} FgFoldSeen(all: seq<Row>, results: seq<Row>, work: map<string, Work>, now: int, next: Numbers, h: string)
    requires Consistent(work, next) && (forall k :: 0 <= k < |results| ==> IsLoadout(results[k].loadout)) && SeenAt(work, h, all)
    ensures SeenAt(FgFold(work, results, now, next).0, h, all)
  {
    hide Numbered, IsSeen;
    if results != [] { FgFoldSeen(all, results[..|results| - 1], work, now, next, h); }
  }

  /** A listed row without an FG result shows the best FG score seen with its meta results. */
  lemma ListedShowsSeen(rows: seq<Row>, results: seq<Row>, now: int, next: Numbers, out: map<string, Row>, h: string)
    requires AreRows(rows, next) && AreResults(results) && IsNormalized(ProjectedRows(MergedWork(rows, results, now, next)), out) && h in out
    ensures out[h].loadout.fg.None? ==> IsSeen(rows + results, h, OrZero(out[h].loadout.fgScore)) && out[h].loadout.fgScore != Some(0)
  {
    hide Numbered, Lifted, MetaFold, FgFold, IsSeen, IsOnBoard, MetaBoard, FgBoard;
    ResultLoadouts(results);
    LiftedIs(rows);
    assert forall k :: 0 <= k < |rows| ==> rows[k] in rows;
    LiftedSeen(rows, h);
    var (w, n) := MetaFold(Lifted(rows), results, now, next);
    MetaFoldSeen(rows, results, Lifted(rows), now, next, h);
    FgFoldSeen(rows + results, results, w, now, n, h);
    assert OnMeta(ProjectedRows(MergedWork(rows, results, now, next)), h) || OnFg(ProjectedRows(MergedWork(rows, results, now, next)), h);
  }

  /** The numbers given out from the next ones on are to sides not stored before. */
  ghost predicate NewNumbers(before: map<string, Work>, after: map<string, Work>, next: Numbers) {
    && (forall h :: HasMeta(after, h) && !HasMeta(before, h) ==> after[h].meta.value.seqNo >= next.meta)
    && (forall h :: HasFg(after, h) && !HasFg(before, h) ==> after[h].fg.value.seqNo >= next.fg)
  }

  lemma MetaStepNumbers(before: map<string, Work>, work: map<string, Work>, r: Row, now: int, next: Numbers, first: Numbers)
    requires AllWork(work) && NewNumbers(before, work, first) && next.meta >= first.meta && SameFg(before, work)
    ensures var (w, n) := MetaMerged(work, r, now, next);
            NewNumbers(before, w, first) && n.meta >= first.meta && n.fg == next.fg && SameFg(before, w)
  {
  }

  lemma {:induction false} MetaFoldNumbers(work: map<string, Work>, results: seq<Row>, now: int, next: Numbers)
    requires Consistent(work, next)
    ensures var (w, n) := MetaFold(work, results, now, next); NewNumbers(work, w, next) && n.meta >= next.meta && n.fg == next.fg && SameFg(work, w)
  {
    hide Numbered, MetaMerged, NewNumbers, SameFg;
    if results == [] {
      NoNewNumbers(work, next);
    } else {
      var front := results[..|results| - 1];
      MetaFoldNumbers(work, front, now, next);
      var (w, n) := MetaFold(work, front, now, next);
      MetaStepNumbers(work, w, results[|results| - 1], now, n, next);
    }
  }

  lemma NoNewNumbers(work: map<string, Work>, next: Numbers)
    ensures NewNumbers(work, work, next) && SameFg(work, work)
  {
  }

  lemma {:induction false} FgFoldNumbers(before: map<string, Work>, work: map<string, Work>, results: seq<Row>, now: int, next: Numbers)
    requires Consistent(work, next) && (forall k :: 0 <= k < |results| ==> IsLoadout(results[k].loadout)) && SameFg(before, work)
    ensures var (w, n) := FgFold(work, results, now, next);
            n.fg >= next.fg && SameMeta(work, w) && forall h :: HasFg(w, h) && !HasFg(before, h) ==> w[h].fg.value.seqNo >= next.fg
  {
    hide Numbered;
    if results != [] { FgFoldNumbers(before, work, results[..|results| - 1], now, next); }
  }

  /** Of two entries of equal score on a board. */
  ghost predicate MetaTie(rows: map<string, Row>, h: string, g: string) {
    h in rows && g in rows && MetaEligible(rows[h]) && MetaEligible(rows[g]) && rows[h].loadout.score == rows[g].loadout.score
  }

  ghost predicate FgTie(rows: map<string, Row>, h: string, g: string) {
    h in rows && g in rows && FgEligible(rows[h]) && FgEligible(rows[g]) && rows[h].loadout.fgScore == rows[g].loadout.fgScore
  }

  /** A stored entry stays before any new one of equal score, on both boards. */
  lemma StoredGoesFirst(rows: seq<Row>, results: seq<Row>, now: int, next: Numbers, h: string, g: string)
    requires AreRows(rows, next) && AreResults(results)
    ensures var stored, after := Lifted(rows), ProjectedRows(MergedWork(rows, results, now, next));
            MetaTie(after, h, g) && HasMeta(stored, h) && !HasMeta(stored, g) ==> Before(MetaCandidate(after[h]), MetaCandidate(after[g]))
    ensures var stored, after := Lifted(rows), ProjectedRows(MergedWork(rows, results, now, next));
            FgTie(after, h, g) && HasFg(stored, h) && !HasFg(stored, g) ==> Before(FgCandidate(after[h]), FgCandidate(after[g]))
  {
    hide Lifted, MetaFold, FgFold, MetaBest, FgBest;
    ResultLoadouts(results);
    LiftedIs(rows);
    var before := Lifted(rows);
    var (w, n) := MetaFold(before, results, now, next);
    MetaFoldNumbers(before, results, now, next);
    FgFoldNumbers(before, w, results, now, n);
    FoldedIsBest(before, results, now, next);
  }

  /** The song's rows after storing the results: of all loadouts the first LIMIT of each board, every side at the best
      score among its stored row and its results. */
  method Merge(rows: seq<Row>, results: seq<Row>, now: int, next: Numbers) returns (out: map<string, Row>)
    requires AreRows(rows, next) && AreResults(results)
    ensures forall k :: 0 <= k < |results| ==> IsLoadout(results[k].loadout)
    ensures var before, after := Lifted(rows), MergedWork(rows, results, now, next);
            && NoWorse(before, after) && Untouched(before, results, after) && KeepsNumbers(before, after)
            && RowsNumbered(ProjectedRows(after)) && forall r :: r in results && Kept(r) ==> r.loadout.hash in after
    ensures IsNormalized(ProjectedRows(MergedWork(rows, results, now, next)), out)
    ensures RowsNumbered(out)
    ensures forall h :: h in out ==> FromInputs(rows, results, out[h].loadout) && IsMerged(rows, results, h, out[h])
    ensures forall i :: 0 <= i < |rows| && rows[i].loadout.hash in out ==> ResultsNoWorse(rows[i].loadout, out[rows[i].loadout.hash].loadout)
    ensures forall i :: 0 <= i < |results| && results[i].loadout.hash in out ==>
              ResultsNoWorse(results[i].loadout, out[results[i].loadout.hash].loadout)
    ensures forall i, score :: 0 <= i < |rows| && Lists(rows[i], score) && Unharmed(rows[i], results) ==> Reached(out, score)
  {
    hide NoWorse, Untouched, IsNormalized, RowsNumbered, Numbered, ResultsNoWorse, Lists, Reached, Lifted, MetaEligible, FgEligible, Folded,
         FromInputs, IsMerged, KeepsNumbers, MetaBest, FgBest, Unharmed, AreResults;
    LiftedIs(rows);
    ResultLoadouts(results);
    var merger := new Merger(rows, next);
    merger.MergeAll(results, now);
    ghost var after := merger.work;
    FoldedIsBest(Lifted(rows), results, now, next);
    NobodyTouched(Lifted(rows), results, now, next);
    ProjectedNumbered(merger.work, merger.next);
    out := Normalize(ProjectedRows(merger.work));
    ListedNumbered(ProjectedRows(after), out);
    forall h | h in out ensures FromInputs(rows, results, out[h].loadout) && IsMerged(rows, results, h, out[h]) {
      ListedFromInputs(rows, results, now, next, out, h);
      ListedIsMerged(rows, results, now, next, out, h);
    }
    forall i | 0 <= i < |rows| && rows[i].loadout.hash in out
      ensures ResultsNoWorse(rows[i].loadout, out[rows[i].loadout.hash].loadout)
    {
      SurvivorsNoWorse(rows, after, out, i);
    }
    forall i | 0 <= i < |results| && results[i].loadout.hash in out
      ensures ResultsNoWorse(results[i].loadout, out[results[i].loadout.hash].loadout)
    {
      ResultsReached(rows, results, now, next, out, i);
    }
    forall i, score | 0 <= i < |rows| && Lists(rows[i], score) && Unharmed(rows[i], results) ensures Reached(out, score) {
      BestNotLowered(rows, results, now, next, out, i, score);
    }
  }

  /** A listed row is its loadout's projection, but for its board marks. */
  lemma ListedIs(work: map<string, Work>, out: map<string, Row>, h: string)
    requires AllWork(work) && IsNormalized(ProjectedRows(work), out) && h in out
    ensures h in work && out[h].loadout.hash == h && out[h].loadout.meta == work[h].meta && out[h].loadout.fg == work[h].fg
    ensures HasMeta(work, h) ==> Some(out[h].loadout.score) == work[h].score
    ensures HasFg(work, h) ==> out[h].loadout.fgScore == work[h].fgScore
  {
    hide MetaBoard, FgBoard, IsOnBoard;
    assert OnMeta(ProjectedRows(work), h) || OnFg(ProjectedRows(work), h);
  }

  lemma ListedFromInputs(rows: seq<Row>, results: seq<Row>, now: int, next: Numbers, out: map<string, Row>, h: string)
    requires AreRows(rows, next) && AreResults(results) && IsNormalized(ProjectedRows(MergedWork(rows, results, now, next)), out) && h in out
    ensures FromInputs(rows, results, out[h].loadout)
  {
    hide IsNormalized, Folded, Numbered, Lifted, MetaOf, FgOf;
    LiftedIs(rows);
    FoldedIsBest(Lifted(rows), results, now, next);
    var work := MergedWork(rows, results, now, next);
    ListedIs(work, out, h);
    StoredOf(rows, h);
  }

  /** What a lifted row's sides hold is that row's. */
  lemma {:induction false} StoredOf(rows: seq<Row>, h: string)
    requires AllWork(Lifted(rows))
    requires (forall r :: r in rows ==> IsLoadout(r.loadout))
    requires forall i, j :: 0 <= i < j < |rows| ==> rows[i].loadout.hash != rows[j].loadout.hash
    ensures HasMeta(Lifted(rows), h) ==> MetaOf(rows, h, Lifted(rows)[h].score.value)
    ensures HasFg(Lifted(rows), h) ==> FgOf(rows, h, Lifted(rows)[h].fgScore.value)
  {
    if h in Lifted(rows) {
      LiftedIs(rows);
      var i := StoredAt(rows, h);
    }
  }

  lemma {:induction false} StoredAt(rows: seq<Row>, h: string) returns (i: nat)
    requires h in Lifted(rows)
    ensures i < |rows| && rows[i].loadout.hash == h
  {
    var last := |rows| - 1;
    if rows[last].loadout.hash == h { i := last; } else { i := StoredAt(rows[..last], h); }
  }

  lemma ResultsReached(rows: seq<Row>, results: seq<Row>, now: int, next: Numbers, out: map<string, Row>, i: nat)
    requires AreRows(rows, next) && AreResults(results) && IsNormalized(ProjectedRows(MergedWork(rows, results, now, next)), out)
    requires i < |results| && results[i].loadout.hash in out
    ensures ResultsNoWorse(results[i].loadout, out[results[i].loadout.hash].loadout)
  {
    hide IsNormalized, Folded, Numbered, Lifted, MetaOf, FgOf;
    LiftedIs(rows);
    FoldedIsBest(Lifted(rows), results, now, next);
    ListedIs(MergedWork(rows, results, now, next), out, results[i].loadout.hash);
  }

  // ---- What a merge never loses.

  /** A loadout's meta and FG results are still there, with scores no lower. */
  predicate ResultsNoWorse(x: Loadout, y: Loadout) {
    && (x.meta.Some? ==> y.meta.Some? && y.score >= x.score)
    && (x.fg.Some? && x.fgScore.Some? ==> y.fg.Some? && y.fgScore.Some? && y.fgScore.value >= x.fgScore.value)
  }

  /** A stored loadout still listed after the merge has no worse results. */
  lemma SurvivorsNoWorse(rows: seq<Row>, after: map<string, Work>, out: map<string, Row>, i: nat)
    requires i < |rows| && IsLoadout(rows[i].loadout) && AllWork(after) && NoWorse(Lifted(rows), after) && IsNormalized(ProjectedRows(after), out)
    requires rows[i].loadout.hash in Lifted(rows) && Lifted(rows)[rows[i].loadout.hash] == Lift(rows[i])
    requires rows[i].loadout.hash in out
    ensures ResultsNoWorse(rows[i].loadout, out[rows[i].loadout.hash].loadout)
  {
    hide MetaBoard, FgBoard, IsOnBoard, Lifted;
    var h := rows[i].loadout.hash;
    assert SidesNoWorse(Lift(rows[i]), after[h]);
  }

  /** A row's listed score on a board, if it is eligible for one. */
  ghost predicate Lists(row: Row, score: int) {
    (MetaEligible(row) && row.loadout.score == score) || (FgEligible(row) && row.loadout.fgScore.value == score)
  }

  /** The first of a board is on it. */
  lemma {:induction false} LeaderIsOnBoard(board: set<Candidate>, c: Candidate) returns (leader: Candidate)
    requires TotalOrder(board) && c in board
    ensures IsOnBoard(board, leader) && leader.score >= c.score
    decreases |set x | x in board && Before(x, c)|
  {
    var above := set x | x in board && Before(x, c);
    if above == {} {
      leader := c;
    } else {
      var x :| x in above;
      var higher := set y | y in board && Before(y, x);
      assert x !in higher && higher <= above - {x};
      SubsetSize(higher, above - {x});
      leader := LeaderIsOnBoard(board, x);
    }
  }

  /** Some listed row has this score, or more, on a board. */
  ghost predicate Reached(out: map<string, Row>, score: int) {
    exists h :: h in out && ((out[h].loadout.onMeta && out[h].loadout.meta.Some? && out[h].loadout.score >= score)
                             || (out[h].loadout.onFg && out[h].loadout.fgScore.Some? && out[h].loadout.fgScore.value >= score))
  }

  lemma NobodyTouched(work: map<string, Work>, results: seq<Row>, now: int, next: Numbers)
    requires Consistent(work, next) && AreResults(results)
    ensures forall k :: 0 <= k < |results| ==> IsLoadout(results[k].loadout)
    ensures Untouched(work, results, Folded(work, results, now, next).0)
  {
    hide Consistent, AreResults, HasMetaResult, MetaFold, FgFold, BestFg;
    ResultLoadouts(results);
    var (w, n) := MetaFold(work, results, now, next);
    forall h | !HasMetaResult(results, h) && BestFg(results, h).None? ensures SameEntry(work, Folded(work, results, now, next).0, h) {
      MetaFoldLeaves(work, results, now, next, h);
      FgFoldPairs(w, results, now, n, h);
    }
  }

  /** Exactly when a stored row that only the FG board lists, and no meta result comes to, stays eligible: its FG score never
      falls, but the base score paired with it may rise to it. */
  lemma FgOnlyStays(rows: seq<Row>, results: seq<Row>, now: int, next: Numbers, i: nat)
    requires AreRows(rows, next) && AreResults(results) && i < |rows| && FgEligible(rows[i]) && rows[i].loadout.meta.None?
    requires !HasMetaResult(results, rows[i].loadout.hash)
    ensures forall k :: 0 <= k < |results| ==> IsLoadout(results[k].loadout)
    ensures var projected, h := ProjectedRows(MergedWork(rows, results, now, next)), rows[i].loadout.hash;
            && h in projected && !MetaEligible(projected[h]) && projected[h].loadout.fg.Some? && projected[h].loadout.fgScore.Some?
            && projected[h].loadout.fgScore.value >= rows[i].loadout.fgScore.value
            && (FgEligible(projected[h]) <==> StaysFg(rows[i], results))
  {
    hide Numbered, MetaFold, FgFold, BestFg, HasMetaResult, Lifted;
    LiftedIs(rows);
    ResultLoadouts(results);
    var h := rows[i].loadout.hash;
    var (w, n) := MetaFold(Lifted(rows), results, now, next);
    MetaFoldLeaves(Lifted(rows), results, now, next, h);
    FgFoldPairs(w, results, now, n, h);
  }

  /** Whatever a stored row listed, some listed row still reaches. */
  lemma BestNotLowered(rows: seq<Row>, results: seq<Row>, now: int, next: Numbers, out: map<string, Row>, i: nat, score: int)
    requires AreRows(rows, next) && AreResults(results) && i < |rows| && Lists(rows[i], score)
    requires forall k :: 0 <= k < |results| ==> IsLoadout(results[k].loadout)
    requires Unharmed(rows[i], results)
    requires var projected := ProjectedRows(MergedWork(rows, results, now, next)); RowsNumbered(projected) && IsNormalized(projected, out)
    ensures Reached(out, score)
  {
    hide MetaBoard, FgBoard, IsOnBoard, Lifted, TotalOrder, AreRows, AreResults, Unharmed, Lists, ProjectedRows, MergedWork;
    var projected, g := ProjectedRows(MergedWork(rows, results, now, next)), rows[i].loadout.hash;
    BoardsAreOrdered(projected);
    StillLists(rows, results, now, next, i, score);
    if MetaEligible(projected[g]) && projected[g].loadout.score >= score {
      var h := MetaLeader(projected, g);
      assert h in out && out[h].loadout.onMeta;
    } else {
      var h := FgLeader(projected, g);
      assert h in out && out[h].loadout.onFg;
    }
  }

  lemma StillLists(rows: seq<Row>, results: seq<Row>, now: int, next: Numbers, i: nat, score: int)
    requires AreRows(rows, next) && AreResults(results) && i < |rows| && Lists(rows[i], score)
    requires forall k :: 0 <= k < |results| ==> IsLoadout(results[k].loadout)
    requires Unharmed(rows[i], results)
    ensures var projected, g := ProjectedRows(MergedWork(rows, results, now, next)), rows[i].loadout.hash;
            g in projected && ((MetaEligible(projected[g]) && projected[g].loadout.score >= score)
                               || (FgEligible(projected[g]) && projected[g].loadout.fgScore.value >= score))
  {
    hide Lifted, Numbered, StaysFg, Folded, AreResults, BestFg, MetaOf, FgOf;
    LiftedIs(rows);
    var after, g := MergedWork(rows, results, now, next), rows[i].loadout.hash;
    FoldedIsBest(Lifted(rows), results, now, next);
    NeverWorse(Lifted(rows), results, now, next);
    assert SidesNoWorse(Lift(rows[i]), after[g]);
    if after[g].meta.None? {
      MetaResultCounts(Lifted(rows), results, after, g);
      FgOnlyStays(rows, results, now, next, i);
    }
  }

  lemma MetaResultCounts(before: map<string, Work>, results: seq<Row>, after: map<string, Work>, h: string)
    requires AllWork(before) && AllWork(after) && MetaBest(before, results, after)
    ensures HasMetaResult(results, h) ==> HasMeta(after, h)
  {
    hide MetaOf;
  }

  /** The folds lower no side. */
  lemma NeverWorse(work: map<string, Work>, results: seq<Row>, now: int, next: Numbers)
    requires Consistent(work, next) && AreResults(results)
    ensures NoWorse(work, Folded(work, results, now, next).0)
  {
    hide NoWorse, AreResults, Numbered, MetaFold, FgFold;
    ResultLoadouts(results);
    var (w, n) := MetaFold(work, results, now, next);
    MetaFoldNoWorse(work, results, now, next);
    FgFoldNoWorse(w, results, now, n);
    NoWorseTransitive(work, w, FgFold(w, results, now, n).0);
  }

  lemma {:induction false} MetaFoldNoWorse(work: map<string, Work>, results: seq<Row>, now: int, next: Numbers)
    requires Consistent(work, next)
    ensures NoWorse(work, MetaFold(work, results, now, next).0)
  {
    hide NoWorse, Numbered, MetaMerged;
    NoWorseItself(work);
    if results != [] {
      var front := results[..|results| - 1];
      MetaFoldNoWorse(work, front, now, next);
      var (w, n) := MetaFold(work, front, now, next);
      MetaNoWorse(w, results[|results| - 1], now, n);
      NoWorseTransitive(work, w, MetaMerged(w, results[|results| - 1], now, n).0);
    }
  }

  lemma {:induction false} FgFoldNoWorse(work: map<string, Work>, results: seq<Row>, now: int, next: Numbers)
    requires Consistent(work, next) && forall k :: 0 <= k < |results| ==> IsLoadout(results[k].loadout)
    ensures NoWorse(work, FgFold(work, results, now, next).0)
  {
    hide NoWorse, Numbered, FgMerged;
    NoWorseItself(work);
    if results != [] {
      var front := results[..|results| - 1];
      FgFoldNoWorse(work, front, now, next);
      var (w, n) := FgFold(work, front, now, next);
      FgNoWorse(w, results[|results| - 1], now, n);
      NoWorseTransitive(work, w, FgMerged(w, results[|results| - 1], now, n).0);
    }
  }

  lemma MetaLeader(rows: map<string, Row>, g: string) returns (h: string)
    requires TotalOrder(MetaBoard(rows)) && g in rows && MetaEligible(rows[g]) && RowsNumbered(rows)
    ensures OnMeta(rows, h) && rows[h].loadout.score >= rows[g].loadout.score
  {
    hide TotalOrder, IsOnBoard;
    var leader := LeaderIsOnBoard(MetaBoard(rows), MetaCandidate(rows[g]));
    assert leader in MetaBoard(rows) by { BoardHas(MetaBoard(rows), leader); }
    h :| h in rows && MetaEligible(rows[h]) && leader == MetaCandidate(rows[h]);
  }

  lemma FgLeader(rows: map<string, Row>, g: string) returns (h: string)
    requires TotalOrder(FgBoard(rows)) && g in rows && FgEligible(rows[g]) && RowsNumbered(rows)
    ensures OnFg(rows, h) && rows[h].loadout.fgScore.value >= rows[g].loadout.fgScore.value
  {
    hide TotalOrder, IsOnBoard;
    var leader := LeaderIsOnBoard(FgBoard(rows), FgCandidate(rows[g]));
    assert leader in FgBoard(rows) by { BoardHas(FgBoard(rows), leader); }
    h :| h in rows && FgEligible(rows[h]) && leader == FgCandidate(rows[h]);
  }

  lemma BoardHas(board: set<Candidate>, c: Candidate)
    requires IsOnBoard(board, c)
    ensures c in board
  {
  }

  /** The listed entries keep distinct numbers. */
  lemma ListedNumbered(rows: map<string, Row>, out: map<string, Row>)
    requires RowsNumbered(rows) && IsNormalized(rows, out)
    ensures RowsNumbered(out)
  {
    hide OnMeta, OnFg;
    assert forall h :: h in out ==> h in rows by { ListedRows(rows, out); }
  }

  lemma ListedRows(rows: map<string, Row>, out: map<string, Row>)
    requires IsNormalized(rows, out)
    ensures forall h :: h in out ==> h in rows
  {
    hide MetaBoard, FgBoard, IsOnBoard;
  }

  /** An FG result alone, as good as the stored one but no better than the base score it brings: it unlists the loadout the FG
      board listed. */
  lemma FgAloneUnlists()
    ensures var stored := Row(Loadout("a", "", 100, Some(110), None, Some(Result(0, 0)), false, true), None, None);
            var result := Row(Loadout("a", "", 115, Some(110), None, Some(Result(0, 0)), false, false), None, None);
            var work := map["a" := Lift(stored)];
            AllWork(work) && FgEligible(stored) && AllWork(FgMerged(work, result, 1, Numbers(0, 1)).0)
            && var projected := Projected(FgMerged(work, result, 1, Numbers(0, 1)).0["a"]);
               projected.Some? && !MetaEligible(projected.value) && !FgEligible(projected.value)
  {
  }
}
