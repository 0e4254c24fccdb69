/** The frontier bundle's codec (gear_optimizer/frontier/fg_cache_serde.py, fg_cache_patterns.py, fg_cache_store.py): equal
    frontiers share a segment, head masks are interned, tables are stored as byte planes; unpacking returns every row. */
module BundleCodec {
  import opened Words
  import opened SurfaceRows

  const WIDTH := 0x1_0000_0000

  /** A row whose counts fit 32 bits. */
  predicate Fits(r: Row) { IsRow(r) && r.bodyFever < WIDTH && r.bodyGreat < WIDTH && r.bodyFeverGreat < WIDTH }

  predicate AllFit(rows: seq<Row>) { forall i :: 0 <= i < |rows| ==> Fits(rows[i]) }

  // ---- Words: a row's eight head words and three counts, 32 bits each.

  function HeadWords(r: Row): (w: seq<nat>)
    requires IsRow(r)
    ensures |w| == 8
  {
    Split(r.fever) + Split(r.great)
  }

  function Joined(low: nat, high: nat): nat { Or(low, Shl(high, 32)) }

  function FromWords(words: seq<nat>, fever: nat, great: nat, feverGreat: nat): Row
    requires |words| == 8
  {
    Row([Joined(words[0], words[1]), Joined(words[2], words[3])], [Joined(words[4], words[5]), Joined(words[6], words[7])],
        fever, great, feverGreat)
  }

  lemma SplitJoins(w: nat)
    requires IsWord(w)
    ensures Low32(w) < Pow2(32) && High32(w) < Pow2(32) && Joined(Low32(w), High32(w)) == w
  {
    hide Or, And, Bit, Pow2;
    forall i: nat ensures Bit(Joined(Low32(w), High32(w)), i) <==> Bit(w, i) {
      AndLowMask(w, 32);
      BitMod(w, 32, i);
      BitOr(Low32(w), Shl(High32(w), 32), i);
      BitShl(High32(w), 32, i);
      if i >= 32 { BitShr(w, 32, i - 32); }
      if i >= 64 { BitHigh(w, 64, i); }
    }
    BitsEqual(Joined(Low32(w), High32(w)), w);
    AndLowMask(w, 32);
    BitMod(w, 32, 0);
    HighSmall(w);
  }

  lemma HighSmall(w: nat)
    requires IsWord(w)
    ensures High32(w) < Pow2(32)
  {
    hide Bit, Pow2, Shr;
    forall i: nat | Bit(High32(w), i) ensures i < 32 {
      BitShr(w, 32, i);
      if i >= 32 { BitHigh(w, 64, i + 32); }
    }
    BoundFromBits(High32(w), 32);
  }

  lemma WordsRoundTrip(r: Row)
    requires IsRow(r)
    ensures FromWords(HeadWords(r), r.bodyFever, r.bodyGreat, r.bodyFeverGreat) == r
    ensures forall i :: 0 <= i < 8 ==> HeadWords(r)[i] < WIDTH
  {
    hide Low32, High32, Joined, Pow2;
    Width();
    SplitJoins(r.fever[0]);
    SplitJoins(r.fever[1]);
    SplitJoins(r.great[0]);
    SplitJoins(r.great[1]);
  }

  lemma Width()
    ensures Pow2(32) == WIDTH
  {
    Pow2Add(8, 8);
    Pow2Add(16, 16);
    assert Pow2(8) == 256;
  }

  // ---- Segments: equal frontiers are stored once.

  /** Each frontier's segment is the first frontier with its rows. */
  ghost predicate AreSegments(frontiers: seq<seq<Row>>, unique: seq<nat>, ids: seq<nat>) {
    && (forall u :: 0 <= u < |unique| ==> unique[u] < |frontiers|)
    && (forall u, v :: 0 <= u < v < |unique| ==> unique[u] < unique[v] && frontiers[unique[u]] != frontiers[unique[v]])
    && (forall i :: 0 <= i < |ids| && i < |frontiers| ==> ids[i] < |unique| && frontiers[unique[ids[i]]] == frontiers[i])
  }

  /** Every unique frontier is in its digest's bucket, and the buckets hold unique frontiers. */
  ghost predicate Bucketed(frontiers: seq<seq<Row>>, unique: seq<nat>, byDigest: map<int, seq<nat>>, digest: seq<Row> -> int)
    requires forall u :: 0 <= u < |unique| ==> unique[u] < |frontiers|
  {
    && (forall d :: d in byDigest ==> InBounds(byDigest[d], |unique|))
    && forall u :: 0 <= u < |unique| ==> InBucket(frontiers[unique[u]], u, byDigest, digest)
  }

  ghost predicate InBounds(ids: seq<nat>, n: nat) { forall k :: 0 <= k < |ids| ==> ids[k] < n }

  ghost predicate InBucket(rows: seq<Row>, u: nat, byDigest: map<int, seq<nat>>, digest: seq<Row> -> int) {
    digest(rows) in byDigest && u in byDigest[digest(rows)]
  }

  lemma BucketMore(frontiers: seq<seq<Row>>, unique: seq<nat>, byDigest: map<int, seq<nat>>, digest: seq<Row> -> int, i: nat)
    requires i < |frontiers| && (forall u :: 0 <= u < |unique| ==> unique[u] < |frontiers|) && Bucketed(frontiers, unique, byDigest, digest)
    ensures var d := digest(frontiers[i]); var candidates := if d in byDigest then byDigest[d] else [];
            Bucketed(frontiers, unique + [i], byDigest[d := candidates + [|unique|]], digest)
  {
    var d := digest(frontiers[i]);
    var candidates := if d in byDigest then byDigest[d] else [];
    var more, bucket := unique + [i], candidates + [|unique|];
    assert bucket[|candidates|] == |unique|;
    forall u | 0 <= u < |more| ensures InBucket(frontiers[more[u]], u, byDigest[d := bucket], digest) {
      if u < |unique| { assert InBucket(frontiers[unique[u]], u, byDigest, digest); }
    }
  }

  lemma NotAmong(frontiers: seq<seq<Row>>, unique: seq<nat>, byDigest: map<int, seq<nat>>, digest: seq<Row> -> int, i: nat)
    requires i < |frontiers| && (forall u :: 0 <= u < |unique| ==> unique[u] < |frontiers|) && Bucketed(frontiers, unique, byDigest, digest)
    requires var d := digest(frontiers[i]);
             d in byDigest ==> forall c :: c in byDigest[d] ==> c < |unique| && frontiers[unique[c]] != frontiers[i]
    ensures forall u :: 0 <= u < |unique| ==> frontiers[unique[u]] != frontiers[i]
  {
    forall u | 0 <= u < |unique| ensures frontiers[unique[u]] != frontiers[i] {
      assert InBucket(frontiers[unique[u]], u, byDigest, digest);
    }
  }

  /** Whatever the digest collides on, the rows decide. */
  method SegmentIds(frontiers: seq<seq<Row>>, digest: seq<Row> -> int) returns (unique: seq<nat>, ids: seq<nat>)
    ensures |ids| == |frontiers| && AreSegments(frontiers, unique, ids)
  {
    hide Bucketed;
    unique, ids := [], [];
    var byDigest: map<int, seq<nat>> := map[];
    assert Bucketed(frontiers, [], map[], digest) by { NoBuckets(frontiers, digest); }
    for i := 0 to |frontiers|
      invariant |ids| == i && AreSegments(frontiers, unique, ids) && forall u :: 0 <= u < |unique| ==> unique[u] < i
      invariant Bucketed(frontiers, unique, byDigest, digest)
    {
      var d := digest(frontiers[i]);
      var candidates := if d in byDigest then byDigest[d] else [];
      BucketBounds(frontiers, unique, byDigest, digest, d);
      var found := FindSegment(frontiers, unique, candidates, i);
      if found < 0 {
        assert forall c :: c in candidates ==> c < |unique|;
        NotAmong(frontiers, unique, byDigest, digest, i);
        BucketMore(frontiers, unique, byDigest, digest, i);
        byDigest := byDigest[d := candidates + [|unique|]];
        ids := ids + [|unique|];
        unique := unique + [i];
      } else {
        ids := ids + [found];
      }
    }
  }

  lemma NoBuckets(frontiers: seq<seq<Row>>, digest: seq<Row> -> int)
    ensures Bucketed(frontiers, [], map[], digest)
  {
  }

  lemma BucketBounds(frontiers: seq<seq<Row>>, unique: seq<nat>, byDigest: map<int, seq<nat>>, digest: seq<Row> -> int, d: int)
    requires (forall u :: 0 <= u < |unique| ==> unique[u] < |frontiers|) && Bucketed(frontiers, unique, byDigest, digest)
    ensures d in byDigest ==> InBounds(byDigest[d], |unique|)
  {
  }

  method FindSegment(frontiers: seq<seq<Row>>, unique: seq<nat>, candidates: seq<nat>, i: nat) returns (found: int)
    requires i < |frontiers| && (forall u :: 0 <= u < |unique| ==> unique[u] < |frontiers|)
    requires forall k :: 0 <= k < |candidates| ==> candidates[k] < |unique|
    ensures found >= 0 ==> found < |unique| && frontiers[unique[found]] == frontiers[i]
    ensures found < 0 ==> forall c :: c in candidates ==> frontiers[unique[c]] != frontiers[i]
  {
    for k := 0 to |candidates|
      invariant forall j :: 0 <= j < k ==> frontiers[unique[candidates[j]]] != frontiers[i]
    {
      if frontiers[unique[candidates[k]]] == frontiers[i] { return candidates[k]; }
    }
    found := -1;
  }

  // ---- The pool: the segments one after another.

  function Pool(frontiers: seq<seq<Row>>, unique: seq<nat>): seq<Row>
    requires forall u :: 0 <= u < |unique| ==> unique[u] < |frontiers|
  {
    if unique == [] then [] else Pool(frontiers, unique[..|unique| - 1]) + frontiers[unique[|unique| - 1]]
  }

  function Offset(frontiers: seq<seq<Row>>, unique: seq<nat>, u: nat): nat
    requires u <= |unique| && forall k :: 0 <= k < |unique| ==> unique[k] < |frontiers|
  {
    |Pool(frontiers, unique[..u])|
  }

  lemma {:induction false} SegmentInPool(frontiers: seq<seq<Row>>, unique: seq<nat>, u: nat)
    requires u < |unique| && forall k :: 0 <= k < |unique| ==> unique[k] < |frontiers|
    ensures var pool, o, n := Pool(frontiers, unique), Offset(frontiers, unique, u), |frontiers[unique[u]]|;
            o + n <= |pool| && pool[o..o + n] == frontiers[unique[u]]
  {
    var last := |unique| - 1;
    if u < last {
      SegmentInPool(frontiers, unique[..last], u);
      assert unique[..last][..u] == unique[..u];
      var o, n := Offset(frontiers, unique, u), |frontiers[unique[u]]|;
      SliceOfFirst(Pool(frontiers, unique[..last]), frontiers[unique[last]], o, n);
    } else {
      SliceOfLast(Pool(frontiers, unique[..last]), frontiers[unique[last]]);
    }
  }

  lemma SliceOfFirst(a: seq<Row>, b: seq<Row>, o: nat, n: nat)
    requires o + n <= |a|
    ensures (a + b)[o..o + n] == a[o..o + n]
  {
  }

  lemma SliceOfLast(a: seq<Row>, b: seq<Row>)
    ensures (a + b)[|a|..|a| + |b|] == b
  {
  }

  // ---- Interned head patterns.

  predicate LexLess(a: seq<nat>, b: seq<nat>)
    decreases |a|
  {
    if a == [] || b == [] then a == [] && b != [] else a[0] < b[0] || (a[0] == b[0] && LexLess(a[1..], b[1..]))
  }

  lemma {:induction false} LexTotal(a: seq<nat>, b: seq<nat>)
    ensures a == b || LexLess(a, b) || LexLess(b, a)
    decreases |a|
  {
    if a != [] && b != [] && a[0] == b[0] { LexTotal(a[1..], b[1..]); }
  }

  lemma {:induction false} LexStrict(a: seq<nat>)
    ensures !LexLess(a, a)
    decreases |a|
  {
    if a != [] { LexStrict(a[1..]); }
  }

  lemma {:induction false} LexTransitive(a: seq<nat>, b: seq<nat>, c: seq<nat>)
    requires LexLess(a, b) && LexLess(b, c)
    ensures LexLess(a, c)
    decreases |a|
  {
    if a != [] && a[0] == b[0] && b[0] == c[0] { LexTransitive(a[1..], b[1..], c[1..]); }
  }

  ghost predicate Ascending(patterns: seq<seq<nat>>) {
    forall i, j :: 0 <= i < j < |patterns| ==> LexLess(patterns[i], patterns[j])
  }

  function Insert(patterns: seq<seq<nat>>, p: seq<nat>): seq<seq<nat>> {
    if patterns == [] || LexLess(p, patterns[0]) then [p] + patterns
    else if p == patterns[0] then patterns
    else [patterns[0]] + Insert(patterns[1..], p)
  }

  lemma {:induction false} InsertHolds(patterns: seq<seq<nat>>, p: seq<nat>)
    ensures forall q :: q in Insert(patterns, p) <==> q in patterns || q == p
  {
    hide LexLess;
    if patterns != [] && !LexLess(p, patterns[0]) && p != patterns[0] { InsertHolds(patterns[1..], p); }
  }

  lemma FrontAscends(first: seq<nat>, rest: seq<seq<nat>>)
    requires Ascending(rest) && forall q :: q in rest ==> LexLess(first, q)
    ensures Ascending([first] + rest)
  {
    hide LexLess;
    var all := [first] + rest;
    forall i, j | 0 <= i < j < |all| ensures LexLess(all[i], all[j]) {
      assert all[j] == rest[j - 1] && rest[j - 1] in rest;
      if i > 0 { assert all[i] == rest[i - 1]; }
    }
  }

  lemma {:induction false} InsertAscends(patterns: seq<seq<nat>>, p: seq<nat>)
    requires Ascending(patterns)
    ensures Ascending(Insert(patterns, p))
  {
    hide LexLess;
    if patterns == [] || LexLess(p, patterns[0]) {
      forall q | q in patterns ensures LexLess(p, q) {
        var k :| 0 <= k < |patterns| && patterns[k] == q;
        if k > 0 { LexTransitive(p, patterns[0], q); }
      }
      FrontAscends(p, patterns);
    } else if p != patterns[0] {
      LexTotal(p, patterns[0]);
      InsertAscends(patterns[1..], p);
      InsertHolds(patterns[1..], p);
      FrontAscends(patterns[0], Insert(patterns[1..], p));
    }
  }

  /** The distinct head words in lexicographic order. */
  function Patterns(rows: seq<Row>): seq<seq<nat>>
    requires forall i :: 0 <= i < |rows| ==> IsRow(rows[i])
  {
    if rows == [] then [] else Insert(Patterns(rows[..|rows| - 1]), HeadWords(rows[|rows| - 1]))
  }

  lemma {:induction false} PatternsHold(rows: seq<Row>, p: seq<nat>)
    requires forall i :: 0 <= i < |rows| ==> IsRow(rows[i])
    ensures p in Patterns(rows) <==> exists i :: 0 <= i < |rows| && HeadWords(rows[i]) == p
  {
    hide IsRow, HeadWords, Insert;
    if rows != [] {
      var front := rows[..|rows| - 1];
      PatternsHold(front, p);
      InsertHolds(Patterns(front), HeadWords(rows[|rows| - 1]));
      if p in Patterns(front) {
        var i :| 0 <= i < |front| && HeadWords(front[i]) == p;
        assert HeadWords(rows[i]) == p;
      }
    }
  }

  /** A head's place among the patterns orders it. */
  lemma {:induction false} PatternsAscend(rows: seq<Row>)
    requires forall i :: 0 <= i < |rows| ==> IsRow(rows[i])
    ensures Ascending(Patterns(rows))
  {
    hide IsRow, HeadWords, Insert, LexLess;
    if rows != [] {
      PatternsAscend(rows[..|rows| - 1]);
      InsertAscends(Patterns(rows[..|rows| - 1]), HeadWords(rows[|rows| - 1]));
    }
  }

  lemma {:induction false} AscendingCount(patterns: seq<seq<nat>>)
    requires Ascending(patterns)
    ensures |set p | p in patterns| == |patterns|
  {
    hide LexLess;
    if patterns == [] {
      assert (set p | p in patterns) == {};
    } else {
      var last, front := patterns[|patterns| - 1], patterns[..|patterns| - 1];
      AscendingCount(front);
      LexStrict(last);
      assert last !in front;
      assert (set p | p in patterns) == (set p | p in front) + {last};
    }
  }

  /** The head words some row has. */
  ghost function Heads(rows: seq<Row>): set<seq<nat>>
    requires forall i :: 0 <= i < |rows| ==> IsRow(rows[i])
  {
    set i | 0 <= i < |rows| :: HeadWords(rows[i])
  }

  /** The table has each head word once. */
  lemma PatternsAreHeads(rows: seq<Row>)
    requires forall i :: 0 <= i < |rows| ==> IsRow(rows[i])
    ensures Ascending(Patterns(rows)) && (set p | p in Patterns(rows)) == Heads(rows) && |Patterns(rows)| == |Heads(rows)|
  {
    hide IsRow, HeadWords, Patterns, LexLess, Ascending;
    PatternsAscend(rows);
    AscendingCount(Patterns(rows));
    forall p ensures p in Patterns(rows) <==> p in Heads(rows) {
      PatternsHold(rows, p);
    }
  }

  function IndexOf(patterns: seq<seq<nat>>, p: seq<nat>): (i: nat)
    requires p in patterns
    ensures i < |patterns| && patterns[i] == p
  {
    if patterns[0] == p then 0 else 1 + IndexOf(patterns[1..], p)
  }

  /** A row's reference: its pattern and its counts. */
  function Reference(patterns: seq<seq<nat>>, r: Row): (ref: seq<nat>)
    requires IsRow(r) && HeadWords(r) in patterns
    ensures |ref| == 4
  {
    [IndexOf(patterns, HeadWords(r)), r.bodyFever, r.bodyGreat, r.bodyFeverGreat]
  }

  function References(patterns: seq<seq<nat>>, rows: seq<Row>): (refs: seq<seq<nat>>)
    requires forall i :: 0 <= i < |rows| ==> IsRow(rows[i]) && HeadWords(rows[i]) in patterns
    ensures |refs| == |rows| && forall i :: 0 <= i < |refs| ==> refs[i] == Reference(patterns, rows[i])
  {
    seq(|rows|, i requires 0 <= i < |rows| => Reference(patterns, rows[i]))
  }

  // ---- Coefficients, two 16-bit halves a word.

  const HALF := 0x1_0000

  predicate IsCoeff(coeff: seq<nat>) { |coeff| == 4 && forall i :: 0 <= i < 4 ==> coeff[i] < HALF }

  function Half(low: nat, high: nat): nat { Or(low, Shl(high, 16)) }

  function PackedPattern(words: seq<nat>, coeff: seq<nat>): (row: seq<nat>)
    requires |words| == 8 && |coeff| == 4
    ensures |row| == 10
  {
    words + [Half(coeff[0], coeff[1]), Half(coeff[2], coeff[3])]
  }

  function UnpackedCoeff(row: seq<nat>): seq<nat>
    requires |row| == 10
  {
    [And(row[8], HALF - 1), Shr(row[8], 16), And(row[9], HALF - 1), Shr(row[9], 16)]
  }

  lemma HalvesRoundTrip(low: nat, high: nat)
    requires low < HALF && high < HALF
    ensures Half(low, high) < WIDTH && And(Half(low, high), HALF - 1) == low && Shr(Half(low, high), 16) == high
  {
    hide Or, And, Shr, Shl, Pow2;
    SixteenBits();
    ShlHalf(high);
    OrComm(low, Shl(high, 16));
    OrDisjoint(high, low, 16);
    AndLowMask(Half(low, high), 16);
    ShrDiv(Half(low, high), 16);
  }

  lemma SixteenBits()
    ensures Pow2(16) == HALF && Pow2(64) == WIDTH * WIDTH
  {
    Width();
    Pow2Add(8, 8);
    Pow2Add(32, 32);
    assert Pow2(8) == 256;
  }

  lemma ShlHalf(high: nat)
    requires high < HALF
    ensures Shl(high, 16) == high * Pow2(16)
  {
    hide Pow2;
    SixteenBits();
  }

  /** Packing a pattern's coefficients loses nothing. */
  lemma PatternRoundTrip(words: seq<nat>, coeff: seq<nat>)
    requires |words| == 8 && IsCoeff(coeff)
    ensures var row := PackedPattern(words, coeff);
            row[..8] == words && UnpackedCoeff(row) == coeff && row[8] < WIDTH && row[9] < WIDTH
  {
    hide Half, And, Shr;
    HalvesRoundTrip(coeff[0], coeff[1]);
    HalvesRoundTrip(coeff[2], coeff[3]);
  }

  // ---- Byte planes.

  predicate IsTable(table: seq<seq<nat>>, k: nat) {
    forall i :: 0 <= i < |table| ==> IsTableRow(table[i], k)
  }

  predicate IsTableRow(row: seq<nat>, k: nat) { |row| == k && forall j :: 0 <= j < k ==> row[j] < WIDTH }

  function ByteOf(w: nat, b: nat): nat
    requires b < 4
  {
    (w / (if b == 0 then 1 else if b == 1 then 0x100 else if b == 2 then 0x1_0000 else 0x100_0000)) % 0x100
  }

  /** Plane 4j + b holds byte b of column j. */
  function BytePlanes(table: seq<seq<nat>>, k: nat): (planes: seq<seq<nat>>)
    requires IsTable(table, k)
    ensures |planes| == 4 * k && forall p :: 0 <= p < |planes| ==> |planes[p]| == |table|
  {
    seq(4 * k, p requires 0 <= p < 4 * k => seq(|table|, i requires 0 <= i < |table| => ByteOf(table[i][p / 4], p % 4)))
  }

  function Assembled(b0: nat, b1: nat, b2: nat, b3: nat): nat { b0 + 0x100 * b1 + 0x1_0000 * b2 + 0x100_0000 * b3 }

  /** The table's columns again. */
  function Columns(planes: seq<seq<nat>>, n: nat): (columns: seq<seq<nat>>)
    requires forall p :: 0 <= p < |planes| ==> |planes[p]| == n
    ensures |columns| == |planes| / 4 && forall j :: 0 <= j < |columns| ==> |columns[j]| == n
  {
    seq(|planes| / 4, j requires 0 <= j < |planes| / 4 =>
      seq(n, i requires 0 <= i < n => Assembled(planes[4 * j][i], planes[4 * j + 1][i], planes[4 * j + 2][i], planes[4 * j + 3][i])))
  }

  lemma BytesRoundTrip(w: nat)
    requires w < WIDTH
    ensures Assembled(ByteOf(w, 0), ByteOf(w, 1), ByteOf(w, 2), ByteOf(w, 3)) == w
  {
    TwiceDivided(w);
    TwiceDivided(w / 0x100);
    ThriceDivided(w);
    var x, y, z := w / 0x100, w / 0x1_0000, w / 0x100_0000;
    assert w == 0x100 * x + w % 0x100 && x == 0x100 * y + x % 0x100 && y == 0x100 * z + y % 0x100;
  }

  lemma TwiceDivided(w: nat)
    ensures (w / 0x100) / 0x100 == w / 0x1_0000
  {
  }

  lemma ThriceDivided(w: nat)
    requires w < WIDTH
    ensures (w / 0x1_0000) / 0x100 == w / 0x100_0000 < 0x100
  {
  }

  lemma PlaneOf(j: nat, b: nat)
    requires b < 4
    ensures (4 * j + b) / 4 == j && (4 * j + b) % 4 == b
  {
  }

  lemma PlanesRoundTrip(table: seq<seq<nat>>, k: nat, j: nat, i: nat)
    requires IsTable(table, k) && j < k && i < |table|
    ensures Columns(BytePlanes(table, k), |table|)[j][i] == table[i][j]
  {
    hide ByteOf, Assembled;
    var planes := BytePlanes(table, k);
    PlaneOf(j, 0);
    PlaneOf(j, 1);
    PlaneOf(j, 2);
    PlaneOf(j, 3);
    BytesRoundTrip(table[i][j]);
  }

  // ---- The bundle.

  datatype Bundle = Refused | Bundle(offsets: seq<nat>, counts: seq<nat>, surfaceRows: seq<seq<nat>>, surfacePatterns: seq<seq<nat>>,
                                     rows: nat, patterns: nat)

  const INT32_MAX := 0x7FFF_FFFF

  function PackedPatterns(patterns: seq<seq<nat>>, coeffs: seq<nat> -> seq<nat>): (packed: seq<seq<nat>>)
    requires forall i :: 0 <= i < |patterns| ==> |patterns[i]| == 8 && |coeffs(patterns[i])| == 4
    ensures |packed| == |patterns| && forall i :: 0 <= i < |packed| ==> packed[i] == PackedPattern(patterns[i], coeffs(patterns[i]))
  {
    seq(|patterns|, i requires 0 <= i < |patterns| => PackedPattern(patterns[i], coeffs(patterns[i])))
  }

  /** One row of a bundle's columns as the producer's row. */
  function RowAt(refs: seq<seq<nat>>, patterns: seq<seq<nat>>, i: nat): Row
    requires |refs| == 4 && |patterns| == 10 && (forall j :: 0 <= j < 4 ==> i < |refs[j]|) && forall j :: 0 <= j < 8 ==> refs[0][i] < |patterns[j]|
  {
    var p := refs[0][i];
    FromWords([patterns[0][p], patterns[1][p], patterns[2][p], patterns[3][p], patterns[4][p], patterns[5][p], patterns[6][p], patterns[7][p]],
              refs[1][i], refs[2][i], refs[3][i])
  }

  ghost predicate Coefficients(coeffs: seq<nat> -> seq<nat>) {
    forall words :: |words| == 8 ==> IsCoeff(coeffs(words))
  }

  /** Every pool row fits the table its reference is stored in, and every pattern row its. */
  lemma TablesFit(pool: seq<Row>, coeffs: seq<nat> -> seq<nat>)
    requires AllFit(pool) && Coefficients(coeffs) && |Patterns(pool)| <= INT32_MAX
    ensures forall i :: 0 <= i < |pool| ==> IsRow(pool[i]) && HeadWords(pool[i]) in Patterns(pool)
    ensures forall i :: 0 <= i < |Patterns(pool)| ==> |Patterns(pool)[i]| == 8
    ensures IsTable(References(Patterns(pool), pool), 4) && IsTable(PackedPatterns(Patterns(pool), coeffs), 10)
  {
    hide Patterns, PackedPattern, HeadWords, IsRow;
    var patterns := Patterns(pool);
    forall i | 0 <= i < |pool| ensures IsRow(pool[i]) && HeadWords(pool[i]) in patterns {
      assert Fits(pool[i]);
      PatternsHold(pool, HeadWords(pool[i]));
    }
    forall i | 0 <= i < |patterns| ensures |patterns[i]| == 8 && IsTableRow(PackedPattern(patterns[i], coeffs(patterns[i])), 10) {
      assert patterns[i] in patterns;
      PatternsHold(pool, patterns[i]);
      var k :| 0 <= k < |pool| && HeadWords(pool[k]) == patterns[i];
      WordsRoundTrip(pool[k]);
      PackedFits(patterns[i], coeffs(patterns[i]));
    }
    forall i | 0 <= i < |pool| ensures IsTableRow(Reference(patterns, pool[i]), 4) {
      assert Fits(pool[i]);
    }
  }

  lemma PackedFits(words: seq<nat>, coeff: seq<nat>)
    requires |words| == 8 && IsCoeff(coeff) && forall i :: 0 <= i < 8 ==> words[i] < WIDTH
    ensures IsTableRow(PackedPattern(words, coeff), 10)
  {
    hide Half;
    PatternRoundTrip(words, coeff);
  }

  method Pack(frontiers: seq<seq<Row>>, digest: seq<Row> -> int, coeffs: seq<nat> -> seq<nat>) returns (bundle: Bundle, ghost unique: seq<nat>, ghost ids: seq<nat>)
    requires (forall i :: 0 <= i < |frontiers| ==> AllFit(frontiers[i])) && Coefficients(coeffs)
    ensures |ids| == |frontiers| && AreSegments(frontiers, unique, ids) && AllFit(Pool(frontiers, unique))
    ensures bundle == Refused <==> |HeadsOf(frontiers)| > INT32_MAX
    ensures bundle == Refused <==> |Patterns(Pool(frontiers, unique))| > INT32_MAX
    ensures bundle != Refused ==> IsPacked(frontiers, unique, ids, coeffs, bundle)
    ensures bundle.Bundle? ==> HoldsAll(bundle, frontiers)
    ensures bundle.Bundle? && bundle.rows <= INT32_MAX ==> NarrowsExactly(bundle)
  {
    hide AreSegments, BytePlanes, Patterns, References, PackedPatterns, Pool, HoldsAll, HeadsOf;
    var u, s := SegmentIds(frontiers, digest);
    unique, ids := u, s;
    SegmentBounds(frontiers, u, s);
    var offsets, pool := PoolOf(frontiers, u);
    PoolFits(frontiers, u);
    PoolHeads(frontiers, u, s);
    var patterns := Patterns(pool);
    if |patterns| > INT32_MAX { return Refused, unique, ids; }
    TablesFit(pool, coeffs);
    bundle := Bundle(seq(|frontiers|, i requires 0 <= i < |frontiers| => offsets[s[i]]), seq(|frontiers|, i requires 0 <= i < |frontiers| => |frontiers[i]|),
                     BytePlanes(References(patterns, pool), 4), BytePlanes(PackedPatterns(patterns, coeffs), 10), |pool|, |patterns|);
    PackedHolds(frontiers, u, s, coeffs, bundle);
    StartsWithin(frontiers, u, s, coeffs, bundle);
  }

  /** A value narrowed to 32 bits, wrapping around. */
  function Narrow32(x: int): int { (x + 0x8000_0000) % WIDTH - 0x8000_0000 }

  /** Stored in 32 bits, the bundle's offsets and counts are unchanged. */
  ghost predicate NarrowsExactly(b: Bundle) {
    && b.Bundle? && (forall f :: 0 <= f < |b.offsets| ==> Narrow32(b.offsets[f]) == b.offsets[f])
    && forall f :: 0 <= f < |b.counts| ==> Narrow32(b.counts[f]) == b.counts[f]
  }

  lemma StartsWithin(frontiers: seq<seq<Row>>, unique: seq<nat>, ids: seq<nat>, coeffs: seq<nat> -> seq<nat>, b: Bundle)
    requires Coefficients(coeffs) && b.Bundle?
    requires |ids| == |frontiers| && AreSegments(frontiers, unique, ids) && AllFit(Pool(frontiers, unique))
    requires |Patterns(Pool(frontiers, unique))| <= INT32_MAX && IsPacked(frontiers, unique, ids, coeffs, b)
    ensures b.rows <= INT32_MAX ==> NarrowsExactly(b)
  {
    hide Pool, Patterns, IsPacked, AllFit, AreSegments, Coefficients;
    forall f: nat | f < |frontiers| ensures |b.offsets| == |b.counts| == |frontiers| && b.offsets[f] + b.counts[f] <= b.rows {
      PackedShape(frontiers, unique, ids, coeffs, b, f);
    }
    PackedSizes(frontiers, unique, ids, coeffs, b);
  }

  lemma PackedSizes(frontiers: seq<seq<Row>>, unique: seq<nat>, ids: seq<nat>, coeffs: seq<nat> -> seq<nat>, b: Bundle)
    requires Coefficients(coeffs) && b.Bundle?
    requires |ids| == |frontiers| && AreSegments(frontiers, unique, ids) && AllFit(Pool(frontiers, unique))
    requires |Patterns(Pool(frontiers, unique))| <= INT32_MAX && IsPacked(frontiers, unique, ids, coeffs, b)
    ensures |b.offsets| == |b.counts| == |frontiers|
  {
    hide Pool, Patterns, AllFit;
    TablesFit(Pool(frontiers, unique), coeffs);
  }

  ghost predicate IsPacked(frontiers: seq<seq<Row>>, unique: seq<nat>, ids: seq<nat>, coeffs: seq<nat> -> seq<nat>, b: Bundle)
    requires |ids| == |frontiers| && AreSegments(frontiers, unique, ids) && b.Bundle? && Coefficients(coeffs)
    requires AllFit(Pool(frontiers, unique)) && |Patterns(Pool(frontiers, unique))| <= INT32_MAX
  {
    var pool := Pool(frontiers, unique);
    TablesFit(pool, coeffs);
    var refs, packed := References(Patterns(pool), pool), PackedPatterns(Patterns(pool), coeffs);
    && |b.offsets| == |b.counts| == |frontiers| && b.rows == |pool| && b.patterns == |packed|
    && (forall i :: 0 <= i < |frontiers| ==> b.offsets[i] == Offset(frontiers, unique, ids[i]) && b.counts[i] == |frontiers[i]|)
    && b.surfaceRows == BytePlanes(refs, 4) && b.surfacePatterns == BytePlanes(packed, 10)
  }

  lemma SegmentBounds(frontiers: seq<seq<Row>>, unique: seq<nat>, ids: seq<nat>)
    requires |ids| == |frontiers| && AreSegments(frontiers, unique, ids)
    ensures (forall u :: 0 <= u < |unique| ==> unique[u] < |frontiers|) && forall i :: 0 <= i < |ids| ==> ids[i] < |unique|
  {
  }

  lemma {:induction false} PoolFits(frontiers: seq<seq<Row>>, unique: seq<nat>)
    requires (forall u :: 0 <= u < |unique| ==> unique[u] < |frontiers|) && forall i :: 0 <= i < |frontiers| ==> AllFit(frontiers[i])
    ensures AllFit(Pool(frontiers, unique))
  {
    hide Fits;
    if unique != [] { PoolFits(frontiers, unique[..|unique| - 1]); }
  }

  /** The head words some frontier's row has. */
  ghost function HeadsOf(frontiers: seq<seq<Row>>): set<seq<nat>>
    requires forall i :: 0 <= i < |frontiers| ==> AllFit(frontiers[i])
  {
    set f, k | 0 <= f < |frontiers| && 0 <= k < |frontiers[f]| :: HeadWords(Checked(frontiers, f)[k])
  }

  /** Frontier f, known to fit. */
  ghost function Checked(frontiers: seq<seq<Row>>, f: nat): (rows: seq<Row>)
    requires f < |frontiers| && AllFit(frontiers[f])
    ensures rows == frontiers[f] && forall k :: 0 <= k < |rows| ==> IsRow(rows[k])
  {
    assert forall k :: 0 <= k < |frontiers[f]| ==> Fits(frontiers[f][k]);
    frontiers[f]
  }

  lemma {:induction false} InPool(frontiers: seq<seq<Row>>, unique: seq<nat>, r: Row)
    requires forall u :: 0 <= u < |unique| ==> unique[u] < |frontiers|
    ensures r in Pool(frontiers, unique) <==> exists u :: 0 <= u < |unique| && r in frontiers[unique[u]]
  {
    if unique != [] {
      var last, front := |unique| - 1, unique[..|unique| - 1];
      InPool(frontiers, front, r);
      if r in Pool(frontiers, front) {
        var u :| 0 <= u < |front| && r in frontiers[front[u]];
        assert r in frontiers[unique[u]];
      }
    }
  }

  /** The pool's heads are the frontiers' heads. */
  lemma PoolHeads(frontiers: seq<seq<Row>>, unique: seq<nat>, ids: seq<nat>)
    requires |ids| == |frontiers| && AreSegments(frontiers, unique, ids) && forall i :: 0 <= i < |frontiers| ==> AllFit(frontiers[i])
    ensures AllFit(Pool(frontiers, unique)) && (forall k :: 0 <= k < |Pool(frontiers, unique)| ==> IsRow(Pool(frontiers, unique)[k]))
    ensures Heads(Pool(frontiers, unique)) == HeadsOf(frontiers) && |Patterns(Pool(frontiers, unique))| == |HeadsOf(frontiers)|
  {
    hide HeadWords, Pool, Patterns, IsRow;
    PoolFits(frontiers, unique);
    var pool := Pool(frontiers, unique);
    forall k | 0 <= k < |pool| ensures IsRow(pool[k]) {
      assert Fits(pool[k]);
    }
    PatternsAreHeads(pool);
    forall p | p in Heads(pool) ensures p in HeadsOf(frontiers) {
      var k :| 0 <= k < |pool| && HeadWords(pool[k]) == p;
      InPool(frontiers, unique, pool[k]);
      var u :| 0 <= u < |unique| && pool[k] in frontiers[unique[u]];
      var j :| 0 <= j < |frontiers[unique[u]]| && frontiers[unique[u]][j] == pool[k];
      assert Checked(frontiers, unique[u])[j] == pool[k];
    }
    forall p | p in HeadsOf(frontiers) ensures p in Heads(pool) {
      var f, k :| 0 <= f < |frontiers| && 0 <= k < |frontiers[f]| && HeadWords(Checked(frontiers, f)[k]) == p;
      var r := frontiers[f][k];
      assert r in frontiers[unique[ids[f]]];
      InPool(frontiers, unique, r);
      var j :| 0 <= j < |pool| && pool[j] == r;
    }
  }

  /** Converts the segments one after another, remembering where each starts. */
  method PoolOf(frontiers: seq<seq<Row>>, unique: seq<nat>) returns (offsets: seq<nat>, pool: seq<Row>)
    requires forall u :: 0 <= u < |unique| ==> unique[u] < |frontiers|
    ensures pool == Pool(frontiers, unique) && |offsets| == |unique|
    ensures forall u :: 0 <= u < |unique| ==> offsets[u] == Offset(frontiers, unique, u)
  {
    offsets, pool := [], [];
    for u := 0 to |unique|
      invariant pool == Pool(frontiers, unique[..u]) && |offsets| == u
      invariant forall v :: 0 <= v < u ==> offsets[v] == Offset(frontiers, unique, v)
    {
      assert unique[..u + 1][..u] == unique[..u];
      offsets := offsets + [|pool|];
      pool := pool + frontiers[unique[u]];
    }
    assert unique[..|unique|] == unique;
  }

  /** The planes of both tables, each a byte a row. */
  predicate Shaped(b: Bundle) {
    && b.Bundle? && |b.offsets| == |b.counts| && |b.surfaceRows| == 16 && |b.surfacePatterns| == 40
    && (forall p :: 0 <= p < 16 ==> |b.surfaceRows[p]| == b.rows) && (forall p :: 0 <= p < 40 ==> |b.surfacePatterns[p]| == b.patterns)
  }

  predicate Readable(b: Bundle, i: nat) { Shaped(b) && i < b.rows && Columns(b.surfaceRows, b.rows)[0][i] < b.patterns }

  function StoredRow(b: Bundle, i: nat): Row
    requires Readable(b, i)
  {
    RowAt(Columns(b.surfaceRows, b.rows), Columns(b.surfacePatterns, b.patterns), i)
  }

  ghost predicate ReadableRange(b: Bundle, start: nat, count: nat) { forall i :: start <= i < start + count ==> Readable(b, i) }

  /** The stored rows from `start` on. */
  ghost predicate AreStored(b: Bundle, start: nat, rows: seq<Row>) {
    forall i :: start <= i < start + |rows| ==> Readable(b, i) && rows[i - start] == StoredRow(b, i)
  }

  method SegmentRows(b: Bundle, start: nat, count: nat) returns (rows: seq<Row>)
    requires ReadableRange(b, start, count)
    ensures |rows| == count && AreStored(b, start, rows)
  {
    hide StoredRow, Readable;
    rows := [];
    for i := start to start + count
      invariant |rows| == i - start && forall j :: start <= j < i ==> Readable(b, j) && rows[j - start] == StoredRow(b, j)
    {
      rows := rows + [StoredRow(b, i)];
    }
  }

  /** Every frontier's rows; a segment two frontiers share is expanded once. */
  method UnpackFrontiers(b: Bundle) returns (frontiers: seq<seq<Row>>)
    requires Shaped(b) && forall f :: 0 <= f < |b.offsets| ==> ReadableRange(b, b.offsets[f], b.counts[f])
    ensures |frontiers| == |b.offsets|
    ensures forall f :: 0 <= f < |frontiers| ==> |frontiers[f]| == b.counts[f] && AreStored(b, b.offsets[f], frontiers[f])
  {
    hide ReadableRange, AreStored;
    frontiers := [];
    var segments: map<(nat, nat), seq<Row>> := map[];
    for f := 0 to |b.offsets|
      invariant |frontiers| == f
      invariant forall g :: 0 <= g < f ==> |frontiers[g]| == b.counts[g] && AreStored(b, b.offsets[g], frontiers[g])
      invariant forall key :: key in segments ==> |segments[key]| == key.1 && AreStored(b, key.0, segments[key])
    {
      var key := (b.offsets[f], b.counts[f]);
      if key !in segments {
        var rows := SegmentRows(b, b.offsets[f], b.counts[f]);
        segments := segments[key := rows];
      }
      frontiers := frontiers + [segments[key]];
    }
  }

  /** A pool row comes back from the stored columns. */
  lemma PoolRowReturns(pool: seq<Row>, coeffs: seq<nat> -> seq<nat>, i: nat)
    requires AllFit(pool) && Coefficients(coeffs) && |Patterns(pool)| <= INT32_MAX && i < |pool|
    ensures forall k :: 0 <= k < |pool| ==> IsRow(pool[k]) && HeadWords(pool[k]) in Patterns(pool)
    ensures forall k :: 0 <= k < |Patterns(pool)| ==> |Patterns(pool)[k]| == 8
    ensures IsTable(References(Patterns(pool), pool), 4) && IsTable(PackedPatterns(Patterns(pool), coeffs), 10)
    ensures var refs, packed := References(Patterns(pool), pool), PackedPatterns(Patterns(pool), coeffs);
            var columns, patterns := Columns(BytePlanes(refs, 4), |refs|), Columns(BytePlanes(packed, 10), |packed|);
            columns[0][i] < |packed| && RowAt(columns, patterns, i) == pool[i]
  {
    hide Patterns, FromWords, HeadWords, BytePlanes, Columns, IsTable, Half, IsRow;
    TablesFit(pool, coeffs);
    var refs, packed := References(Patterns(pool), pool), PackedPatterns(Patterns(pool), coeffs);
    ColumnsReturn(refs, 4, i);
    var p := refs[i][0];
    ColumnsReturn(packed, 10, p);
    assert Fits(pool[i]);
    var words := HeadWords(pool[i]);
    assert Patterns(pool)[p] == words;
    assert [packed[p][0], packed[p][1], packed[p][2], packed[p][3], packed[p][4], packed[p][5], packed[p][6], packed[p][7]] == words;
    WordsRoundTrip(pool[i]);
  }

  lemma ColumnsReturn(table: seq<seq<nat>>, k: nat, i: nat)
    requires IsTable(table, k) && i < |table|
    ensures |Columns(BytePlanes(table, k), |table|)| == k && |table[i]| == k
    ensures forall j :: 0 <= j < k ==> |Columns(BytePlanes(table, k), |table|)[j]| == |table| && Columns(BytePlanes(table, k), |table|)[j][i] == table[i][j]
  {
    hide BytePlanes, Columns;
    assert IsTableRow(table[i], k);
    forall j: nat | j < k { PlanesRoundTrip(table, k, j, i); }
  }

  lemma PoolRowStored(pool: seq<Row>, coeffs: seq<nat> -> seq<nat>, b: Bundle, i: nat)
    requires AllFit(pool) && Coefficients(coeffs) && |Patterns(pool)| <= INT32_MAX && i < |pool|
    requires b.Bundle? && |b.offsets| == |b.counts| && b.rows == |pool| && b.patterns == |Patterns(pool)|
    requires (forall k :: 0 <= k < |pool| ==> IsRow(pool[k]) && HeadWords(pool[k]) in Patterns(pool))
    requires (forall k :: 0 <= k < |Patterns(pool)| ==> |Patterns(pool)[k]| == 8)
    requires IsTable(References(Patterns(pool), pool), 4) && IsTable(PackedPatterns(Patterns(pool), coeffs), 10)
    requires b.surfaceRows == BytePlanes(References(Patterns(pool), pool), 4)
    requires b.surfacePatterns == BytePlanes(PackedPatterns(Patterns(pool), coeffs), 10)
    ensures Readable(b, i) && StoredRow(b, i) == pool[i]
  {
    hide Patterns, HeadWords, BytePlanes, Columns, IsRow, RowAt, Fits, IsTable;
    PoolRowReturns(pool, coeffs, i);
  }

  /** Every frontier comes back row for row, in order. */
  lemma FrontiersReturn(frontiers: seq<seq<Row>>, unique: seq<nat>, ids: seq<nat>, coeffs: seq<nat> -> seq<nat>, b: Bundle, f: nat, k: nat)
    requires (forall i :: 0 <= i < |frontiers| ==> AllFit(frontiers[i])) && Coefficients(coeffs) && b.Bundle?
    requires |ids| == |frontiers| && AreSegments(frontiers, unique, ids) && AllFit(Pool(frontiers, unique))
    requires |Patterns(Pool(frontiers, unique))| <= INT32_MAX && IsPacked(frontiers, unique, ids, coeffs, b)
    requires f < |frontiers| && k < |frontiers[f]|
    ensures f < |b.offsets| == |b.counts| && b.counts[f] == |frontiers[f]|
    ensures Readable(b, b.offsets[f] + k) && StoredRow(b, b.offsets[f] + k) == frontiers[f][k]
  {
    hide Pool, Patterns, IsPacked, Readable, StoredRow, BytePlanes, References, PackedPatterns, IsTable, Coefficients, AllFit;
    var pool := Pool(frontiers, unique);
    PackedShape(frontiers, unique, ids, coeffs, b, f);
    SliceAt(pool, b.offsets[f], b.counts[f], k);
    PoolRowStored(pool, coeffs, b, b.offsets[f] + k);
  }

  lemma SliceAt(pool: seq<Row>, o: nat, n: nat, k: nat)
    requires o + n <= |pool| && k < n
    ensures pool[o + k] == pool[o..o + n][k]
  {
  }

  lemma PackedShape(frontiers: seq<seq<Row>>, unique: seq<nat>, ids: seq<nat>, coeffs: seq<nat> -> seq<nat>, b: Bundle, f: nat)
    requires Coefficients(coeffs) && b.Bundle? && f < |frontiers|
    requires |ids| == |frontiers| && AreSegments(frontiers, unique, ids) && AllFit(Pool(frontiers, unique))
    requires |Patterns(Pool(frontiers, unique))| <= INT32_MAX && IsPacked(frontiers, unique, ids, coeffs, b)
    ensures |b.offsets| == |b.counts| == |frontiers| && b.counts[f] == |frontiers[f]| && b.offsets[f] + b.counts[f] <= b.rows
    ensures var pool := Pool(frontiers, unique);
            && b.rows == |pool| && pool[b.offsets[f]..b.offsets[f] + b.counts[f]] == frontiers[f] && b.patterns == |Patterns(pool)|
            && (forall i :: 0 <= i < |pool| ==> IsRow(pool[i]) && HeadWords(pool[i]) in Patterns(pool))
            && (forall i :: 0 <= i < |Patterns(pool)| ==> |Patterns(pool)[i]| == 8)
            && IsTable(References(Patterns(pool), pool), 4) && IsTable(PackedPatterns(Patterns(pool), coeffs), 10)
            && b.surfaceRows == BytePlanes(References(Patterns(pool), pool), 4)
            && b.surfacePatterns == BytePlanes(PackedPatterns(Patterns(pool), coeffs), 10)
  {
    hide Pool, Patterns, BytePlanes, HeadWords, IsRow;
    TablesFit(Pool(frontiers, unique), coeffs);
    SegmentBounds(frontiers, unique, ids);
    SegmentInPool(frontiers, unique, ids[f]);
  }

  /** Frontier f's rows are the ones stored in its range. */
  ghost predicate HoldsFrontier(b: Bundle, f: nat, rows: seq<Row>)
    requires b.Bundle? && f < |b.offsets| && f < |b.counts|
  {
    b.counts[f] == |rows| && AreStored(b, b.offsets[f], rows)
  }

  /** Every frontier's range holds its rows. */
  ghost predicate HoldsAll(b: Bundle, frontiers: seq<seq<Row>>) {
    && Shaped(b) && |b.offsets| == |frontiers|
    && forall f :: 0 <= f < |frontiers| ==> HoldsFrontier(b, f, frontiers[f])
  }

  lemma HeldReadable(b: Bundle, frontiers: seq<seq<Row>>)
    requires HoldsAll(b, frontiers)
    ensures Shaped(b) && |b.offsets| == |frontiers| && forall f :: 0 <= f < |b.offsets| ==> ReadableRange(b, b.offsets[f], b.counts[f])
  {
    hide Readable, StoredRow;
    forall f | 0 <= f < |b.offsets| ensures ReadableRange(b, b.offsets[f], b.counts[f]) {
      assert HoldsFrontier(b, f, frontiers[f]);
    }
  }

  lemma PackedHolds(frontiers: seq<seq<Row>>, unique: seq<nat>, ids: seq<nat>, coeffs: seq<nat> -> seq<nat>, b: Bundle)
    requires (forall i :: 0 <= i < |frontiers| ==> AllFit(frontiers[i])) && Coefficients(coeffs) && b.Bundle?
    requires |ids| == |frontiers| && AreSegments(frontiers, unique, ids) && AllFit(Pool(frontiers, unique))
    requires |Patterns(Pool(frontiers, unique))| <= INT32_MAX && IsPacked(frontiers, unique, ids, coeffs, b)
    ensures HoldsAll(b, frontiers)
  {
    hide Pool, Patterns, IsPacked, Readable, StoredRow, Coefficients, AllFit;
    PackedShaped(frontiers, unique, ids, coeffs, b);
    forall f | 0 <= f < |frontiers| ensures HoldsFrontier(b, f, frontiers[f]) {
      CountsReturn(frontiers, unique, ids, coeffs, b, f);
      var rows, o := frontiers[f], b.offsets[f];
      forall i | o <= i < o + |rows| ensures Readable(b, i) && rows[i - o] == StoredRow(b, i) {
        var k: nat := i - o;
        FrontiersReturn(frontiers, unique, ids, coeffs, b, f, k);
        assert o + k == i;
      }
    }
  }

  lemma PackedShaped(frontiers: seq<seq<Row>>, unique: seq<nat>, ids: seq<nat>, coeffs: seq<nat> -> seq<nat>, b: Bundle)
    requires Coefficients(coeffs) && b.Bundle?
    requires |ids| == |frontiers| && AreSegments(frontiers, unique, ids) && AllFit(Pool(frontiers, unique))
    requires |Patterns(Pool(frontiers, unique))| <= INT32_MAX && IsPacked(frontiers, unique, ids, coeffs, b)
    ensures Shaped(b) && |b.offsets| == |frontiers|
  {
    hide Pool, Patterns;
    TablesFit(Pool(frontiers, unique), coeffs);
  }

  /** Unpacking what was packed gives back the frontiers, every row unchanged and in order. */
  lemma PackedReturns(b: Bundle, frontiers: seq<seq<Row>>, unpacked: seq<seq<Row>>)
    requires HoldsAll(b, frontiers)
    requires |unpacked| == |b.offsets|
    requires forall f :: 0 <= f < |unpacked| ==> |unpacked[f]| == b.counts[f] && AreStored(b, b.offsets[f], unpacked[f])
    ensures forall f :: 0 <= f < |b.offsets| ==> ReadableRange(b, b.offsets[f], b.counts[f])
    ensures unpacked == frontiers
  {
    hide Readable, StoredRow;
    forall f | 0 <= f < |frontiers| ensures ReadableRange(b, b.offsets[f], b.counts[f]) && unpacked[f] == frontiers[f] {
      assert HoldsFrontier(b, f, frontiers[f]);
      var rows, o := frontiers[f], b.offsets[f];
      forall k | 0 <= k < |rows| ensures unpacked[f][k] == rows[k] {
        assert unpacked[f][o + k - o] == StoredRow(b, o + k) && rows[o + k - o] == StoredRow(b, o + k);
      }
    }
  }

  lemma CountsReturn(frontiers: seq<seq<Row>>, unique: seq<nat>, ids: seq<nat>, coeffs: seq<nat> -> seq<nat>, b: Bundle, f: nat)
    requires Coefficients(coeffs) && b.Bundle? && f < |frontiers|
    requires |ids| == |frontiers| && AreSegments(frontiers, unique, ids) && AllFit(Pool(frontiers, unique))
    requires |Patterns(Pool(frontiers, unique))| <= INT32_MAX && IsPacked(frontiers, unique, ids, coeffs, b)
    ensures f < |b.counts| && b.counts[f] == |frontiers[f]|
  {
    hide Pool, Patterns, IsPacked;
    PackedShape(frontiers, unique, ids, coeffs, b, f);
  }
}
