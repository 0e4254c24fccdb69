/** A frontier row's 64-bit head masks and body counts, and the surface of eight 32-bit words it is stored and scored as
    (gear_optimizer/frontier/producer_surfaces.py). */
module SurfaceRows {
  import opened Words
  import Scoring

  /** Fever and Great masks of the head notes, low and high word; body fever notes, Greats, and notes that are both. */
  datatype Row = Row(fever: seq<nat>, great: seq<nat>, bodyFever: nat, bodyGreat: nat, bodyFeverGreat: nat)

  predicate IsMask(mask: seq<nat>) { |mask| == 2 && IsWord(mask[0]) && IsWord(mask[1]) }

  predicate IsRow(r: Row) { IsMask(r.fever) && IsMask(r.great) && r.bodyFeverGreat <= r.bodyGreat }

  function Low32(w: nat): nat { And(w, Pow2(32) - 1) }

  function High32(w: nat): nat { Shr(w, 32) }

  /** A mask as four 32-bit words. */
  function Split(mask: seq<nat>): seq<nat>
    requires IsMask(mask)
  {
    [Low32(mask[0]), High32(mask[0]), Low32(mask[1]), High32(mask[1])]
  }

  function ToSurface(r: Row): (s: Scoring.Surface)
    requires IsRow(r)
    ensures |s.words| == 8
  {
    Scoring.Surface(Split(r.fever) + Split(r.great), r.bodyFever, r.bodyGreat, r.bodyFeverGreat)
  }

  predicate MaskBit(mask: seq<nat>, note: nat)
    requires |mask| == 2 && note < 128
  {
    Bit(mask[note / 64], note % 64)
  }

  lemma SplitBit(mask: seq<nat>, note: nat)
    requires IsMask(mask) && note < 128
    ensures Bit(Split(mask)[note / 32], note % 32) <==> MaskBit(mask, note)
  {
    hide Bit, And, Shr, Pow2;
    var w, b := mask[note / 64], note % 32;
    if note % 64 < 32 {
      AndLowMask(w, 32);
      BitMod(w, 32, b);
      assert Split(mask)[note / 32] == Low32(w) && note % 64 == b;
    } else {
      BitShr(w, 32, b);
      assert Split(mask)[note / 32] == High32(w) && note % 64 == b + 32;
    }
  }

  /** The surface scores the note the mask marks. */
  lemma SurfaceBits(r: Row, note: nat)
    requires IsRow(r) && note < Scoring.HEAD_NOTES
    ensures Scoring.InFever(ToSurface(r), note) <==> MaskBit(r.fever, note)
    ensures Scoring.IsGreat(ToSurface(r), note) <==> MaskBit(r.great, note)
  {
    hide Bit, Split, MaskBit;
    SplitBit(r.fever, note);
    SplitBit(r.great, note);
    SplitLength(r.fever);
    SplitLength(r.great);
  }

  lemma SplitLength(mask: seq<nat>)
    requires IsMask(mask)
    ensures |Split(mask)| == 4
  {
  }
}
