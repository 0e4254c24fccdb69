/** The head coefficients of a pattern (gear_optimizer/frontier/fg_cache_patterns.py): counts and position sums of its head
    notes, added up from 16-bit halves. */
module HeadCoeffs {
  import opened Words
  import BundleCodec
  import SurfaceRows

  /** Set bits below n, and the sum of their 1-based places. */
  function CountBelow(w: nat, n: nat): nat {
    if n == 0 then 0 else CountBelow(w, n - 1) + (if Bit(w, n - 1) then 1 else 0)
  }

  function PlacesBelow(w: nat, n: nat): nat {
    if n == 0 then 0 else PlacesBelow(w, n - 1) + (if Bit(w, n - 1) then n else 0)
  }

  /** The table entries of a 16-bit half. */
  function Count16(half: nat): nat { CountBelow(half, 16) }

  function Places16(half: nat): nat { PlacesBelow(half, 16) }

  // ---- Note by note.

  predicate InFever(words: seq<nat>, note: nat)
    requires |words| == 8 && note < 128
  {
    Bit(words[note / 32], note % 32)
  }

  /** Normal and fever notes of the first n, and the sums of their 1-based positions. */
  function ByNote(words: seq<nat>, n: nat): (c: seq<nat>)
    requires |words| == 8 && n <= 128
    ensures |c| == 4
  {
    if n == 0 then [0, 0, 0, 0]
    else
      var c := ByNote(words, n - 1);
      if InFever(words, n - 1) then [c[0], c[1] + 1, c[2], c[3] + n] else [c[0] + 1, c[1], c[2] + n, c[3]]
  }

  lemma {:induction false} ByNoteBounds(words: seq<nat>, n: nat)
    requires |words| == 8 && n <= 100
    ensures var c := ByNote(words, n); c[0] + c[1] == n && 2 * (c[2] + c[3]) == n * (n + 1) && BundleCodec.IsCoeff(c)
  {
    hide Bit;
    if n > 0 {
      ByNoteBounds(words, n - 1);
      assert n * (n + 1) == (n - 1) * n + 2 * n;
    }
    AtMost(n);
  }

  lemma AtMost(n: nat)
    requires n <= 100
    ensures n * (n + 1) <= 10100
  {
    assert (100 - n) * (n + 101) >= 0;
    assert (100 - n) * (n + 101) == 10100 - n - n * n;
  }

  // ---- Halves.

  lemma {:induction false} CountMasked(w: nat, n: nat, k: nat)
    ensures CountBelow(And(w, Pow2(n) - 1), k) == CountBelow(w, if k < n then k else n)
    ensures PlacesBelow(And(w, Pow2(n) - 1), k) == PlacesBelow(w, if k < n then k else n)
    decreases k
  {
    hide And, Bit, Pow2;
    if k > 0 {
      CountMasked(w, n, k - 1);
      AndLowMask(w, n);
      BitMod(w, n, k - 1);
    }
  }

  lemma {:induction false} CountShifted(w: nat, n: nat)
    ensures CountBelow(w, 16 + n) == CountBelow(w, 16) + CountBelow(Shr(w, 16), n)
    ensures PlacesBelow(w, 16 + n) == PlacesBelow(w, 16) + PlacesBelow(Shr(w, 16), n) + 16 * CountBelow(Shr(w, 16), n)
  {
    hide Shr, Bit;
    if n > 0 {
      CountShifted(w, n - 1);
      BitShr(w, 16, n - 1);
    }
  }

  /** A block's first `take` notes from its two halves. */
  lemma BlockFromHalves(w: nat, take: nat)
    requires take <= 32
    ensures take <= 16 ==> CountBelow(w, take) == Count16(And(w, Pow2(take) - 1)) && PlacesBelow(w, take) == Places16(And(w, Pow2(take) - 1))
    ensures take > 16 ==>
              var low, high := And(w, Pow2(16) - 1), And(Shr(w, 16), Pow2(take - 16) - 1);
              CountBelow(w, take) == Count16(low) + Count16(high) && PlacesBelow(w, take) == Places16(low) + Places16(high) + 16 * Count16(high)
  {
    hide And, Shr, Bit, Pow2, CountBelow, PlacesBelow;
    if take <= 16 {
      CountMasked(w, take, 16);
    } else {
      CountMasked(w, 16, 16);
      CountMasked(Shr(w, 16), take - 16, 16);
      CountShifted(w, take - 16);
    }
  }

  /** A block adds its notes to those before it. */
  lemma {:induction false} BlockAdds(words: seq<nat>, block: nat, take: nat)
    requires |words| == 8 && block < 4 && take <= 32
    ensures var before, c := ByNote(words, 32 * block), ByNote(words, 32 * block + take);
            var fever := CountBelow(words[block], take);
            var places := PlacesBelow(words[block], take) + 32 * block * fever;
            && c[1] == before[1] + fever && c[3] == before[3] + places
            && c[0] == before[0] + take - fever && 2 * (c[2] + places) == 2 * before[2] + take * (64 * block + take + 1)
  {
    hide Bit;
    if take > 0 {
      BlockAdds(words, block, take - 1);
      NoteOfBlock(block, take - 1);
      Products(block, take, CountBelow(words[block], take - 1));
    }
  }

  lemma NoteOfBlock(block: nat, j: nat)
    requires j < 32
    ensures (32 * block + j) / 32 == block && (32 * block + j) % 32 == j
  {
  }

  lemma Products(block: nat, take: nat, fever: nat)
    requires take > 0
    ensures take * (64 * block + take + 1) == (take - 1) * (64 * block + take) + 2 * (32 * block + take)
    ensures 32 * block * (fever + 1) == 32 * block * fever + 32 * block
  {
    assert take * (64 * block + take + 1) == (take - 1) * (64 * block + take + 1) + (64 * block + take + 1);
    assert (take - 1) * (64 * block + take + 1) == (take - 1) * (64 * block + take) + (take - 1);
  }

  /** A head has no notes below none and at most 100. */
  function Clamp(headLen: int): (head: nat)
    ensures head <= 100 && (headLen <= 0 ==> head == 0) && (0 <= headLen <= 100 ==> head == headLen) && (headLen > 100 ==> head == 100)
  {
    if headLen < 0 then 0 else if headLen > 100 then 100 else headLen
  }

  /** The coefficients, block by block, are those counted note by note; each fits 16 bits. */
  method SurfaceHeadCoeffs(words: seq<nat>, headLen: int) returns (coeffs: seq<nat>)
    requires |words| == 8
    ensures coeffs == ByNote(words, Clamp(headLen)) && BundleCodec.IsCoeff(coeffs)
  {
    hide And, Shr, Bit, Pow2, CountBelow, PlacesBelow, ByNote, BundleCodec.IsCoeff;
    var head := Clamp(headLen);
    var normal, fever, normalPlaces, feverPlaces := 0, 0, 0, 0;
    NoNotes(words);
    var block := 0;
    while block < 4 && 32 * block < head
      invariant block <= 4
      invariant [normal, fever, normalPlaces, feverPlaces] == ByNote(words, if 32 * block < head then 32 * block else head)
      decreases 4 - block
    {
      var start := 32 * block;
      var take := if head - start < 32 then head - start else 32;
      var w := words[block];
      BlockFromHalves(w, take);
      BlockAdds(words, block, take);
      var low := And(w, Pow2(if take < 16 then take else 16) - 1);
      var count, places := Count16(low), Places16(low);
      if take > 16 {
        var high := And(Shr(w, 16), Pow2(take - 16) - 1);
        count, places := count + Count16(high), places + Places16(high) + 16 * Count16(high);
      }
      places := places + start * count;
      var next := ByNote(words, start + take);
      normal, fever, normalPlaces, feverPlaces :=
        normal + take - count, fever + count, normalPlaces + take * (2 * start + take + 1) / 2 - places, feverPlaces + places;
      FourOf(next, normal, fever, normalPlaces, feverPlaces);
      block := block + 1;
    }
    ByNoteBounds(words, head);
    coeffs := [normal, fever, normalPlaces, feverPlaces];
  }

  lemma FourOf(c: seq<nat>, a: nat, b: nat, d: nat, e: nat)
    requires |c| == 4 && c[0] == a && c[1] == b && c[2] == d && c[3] == e
    ensures [a, b, d, e] == c
  {
  }

  lemma NoNotes(words: seq<nat>)
    requires |words| == 8
    ensures ByNote(words, 0) == [0, 0, 0, 0]
  {
  }

  // ---- The bundle with these coefficients.

  /** What a bundle stores beside each pattern, for a head of this length. */
  function OfHead(headLen: int): seq<nat> -> seq<nat> { words => if |words| == 8 then ByNote(words, Clamp(headLen)) else [] }

  lemma OfHeadFits(headLen: int)
    ensures BundleCodec.Coefficients(OfHead(headLen))
  {
    hide ByNote, BundleCodec.IsCoeff;
    forall words | |words| == 8 ensures BundleCodec.IsCoeff(OfHead(headLen)(words)) {
      ByNoteBounds(words, Clamp(headLen));
    }
  }

  /** Frontiers packed with their heads' coefficients and unpacked again are the frontiers, unless they have more distinct
      heads than there are pattern IDs. */
  method PackAndUnpack(frontiers: seq<seq<SurfaceRows.Row>>, digest: seq<SurfaceRows.Row> -> int, headLen: int)
    returns (bundle: BundleCodec.Bundle, unpacked: seq<seq<SurfaceRows.Row>>)
    requires forall i :: 0 <= i < |frontiers| ==> BundleCodec.AllFit(frontiers[i])
    ensures bundle == BundleCodec.Refused <==> |BundleCodec.HeadsOf(frontiers)| > BundleCodec.INT32_MAX
    ensures bundle != BundleCodec.Refused ==> unpacked == frontiers
  {
    hide BundleCodec.HoldsAll, BundleCodec.IsPacked, BundleCodec.AreSegments, BundleCodec.Pool, BundleCodec.Patterns, BundleCodec.HeadsOf,
         BundleCodec.ReadableRange, BundleCodec.AreStored, BundleCodec.Coefficients, BundleCodec.AllFit;
    OfHeadFits(headLen);
    ghost var unique, ids;
    bundle, unique, ids := BundleCodec.Pack(frontiers, digest, OfHead(headLen));
    unpacked := [];
    if bundle != BundleCodec.Refused {
      BundleCodec.HeldReadable(bundle, frontiers);
      unpacked := BundleCodec.UnpackFrontiers(bundle);
      BundleCodec.PackedReturns(bundle, frontiers, unpacked);
    }
  }
}
