/** The packed-word table of the exact lane-prefix test (gear_optimizer/frontier/producer_kernels.py): one row of Great
    bits per event count, shifted and or-ed option by option. */
module LaneTable {
  import opened Words

  /** Every entry is a 64-bit word. */
  ghost predicate Packed(t: array2<nat>)
    reads t
  {
    forall c, w :: 0 <= c < t.Length0 && 0 <= w < t.Length1 ==> IsWord(t[c, w])
  }

  /** The bit of an event count and a Great count. */
  ghost predicate CellBit(t: array2<nat>, c: nat, g: nat)
    requires c < t.Length0 && g < WORD_BITS * t.Length1
    reads t
  {
    Bit(t[c, g / WORD_BITS], g % WORD_BITS)
  }

  /** Bit b of word w of a row shifted up by `words` words and `bits` bits, from its words below `limit` only. */
  ghost predicate ShiftedBit(row: seq<nat>, limit: nat, words: nat, bits: nat, w: nat, b: nat)
    requires limit <= |row| && bits < WORD_BITS
  {
    if b >= bits then words <= w < words + limit && Bit(row[w - words], b - bits)
    else words + 1 <= w < words + 1 + limit && Bit(row[w - words - 1], b + WORD_BITS - bits)
  }

  lemma OrBits(x: nat, y: nat)
    requires IsWord(x) && IsWord(y)
    ensures IsWord(Or(x, y)) && forall b: nat :: Bit(Or(x, y), b) <==> Bit(x, b) || Bit(y, b)
  {
    hide Bit, Or, Pow2;
    OrWord(x, y, WORD_BITS);
    forall b: nat ensures Bit(Or(x, y), b) <==> Bit(x, b) || Bit(y, b) { BitOr(x, y, b); }
  }

  /** What one source word puts into the word it starts in and, past its top, into the next. */
  lemma ShiftParts(bits: nat, shift: nat, up: nat, down: nat)
    requires IsWord(bits) && shift < WORD_BITS && up == Shl(bits, shift) && down == Shr(bits, WORD_BITS - shift)
    ensures IsWord(up) && IsWord(down)
    ensures forall b: nat :: Bit(up, b) <==> shift <= b < WORD_BITS && Bit(bits, b - shift)
    ensures forall b: nat :: Bit(down, b) <==> b < shift && Bit(bits, b + WORD_BITS - shift)
  {
    hide Bit, Shl, Shr, Pow2;
    forall b: nat ensures Bit(up, b) <==> shift <= b < WORD_BITS && Bit(bits, b - shift) { BitShl(bits, shift, b); }
    forall b: nat ensures Bit(down, b) <==> b < shift && Bit(bits, b + WORD_BITS - shift) {
      BitShr(bits, WORD_BITS - shift, b);
      if b >= shift { BitHigh(bits, WORD_BITS, b + WORD_BITS - shift); }
    }
    BitShl(bits, shift, 0);
    BoundFromBits(down, WORD_BITS);
  }

  lemma NoBits(b: nat)
    ensures !Bit(0, b)
  {
    BitZero(b);
  }

  ghost function RowOf(t: array2<nat>, c: nat): (row: seq<nat>)
    requires c < t.Length0
    reads t
    ensures |row| == t.Length1 && forall w :: 0 <= w < |row| ==> row[w] == t[c, w]
  {
    seq(t.Length1, w requires 0 <= w < t.Length1 reads t => t[c, w])
  }

  /** Ors one row, shifted, into a row of the merged table. */
  method ShiftRow(src: array2<nat>, dst: array2<nat>, prior: nat, output: nat, words: nat, bits: nat)
    requires src != dst && Packed(src) && Packed(dst) && src.Length1 == dst.Length1
    requires prior < src.Length0 && output < dst.Length0 && bits < WORD_BITS
    modifies dst
    ensures Packed(dst)
    ensures forall c, w :: 0 <= c < dst.Length0 && 0 <= w < dst.Length1 && c != output ==> dst[c, w] == old(dst[c, w])
    ensures forall w: nat, b: nat :: w < dst.Length1 && b < WORD_BITS ==>
              (Bit(dst[output, w], b) <==> Bit(old(dst[output, w]), b) || ShiftedBit(RowOf(src, prior), src.Length1, words, bits, w, b))
  {
    hide Bit, Or, Shl, Shr, Pow2, IsWord;
    ghost var row := RowOf(src, prior);
    for s := 0 to src.Length1
      invariant Packed(dst) && row == RowOf(src, prior)
      invariant forall c, w :: 0 <= c < dst.Length0 && 0 <= w < dst.Length1 && c != output ==> dst[c, w] == old(dst[c, w])
      invariant forall w: nat, b: nat :: w < dst.Length1 && b < WORD_BITS ==>
                  (Bit(dst[output, w], b) <==> Bit(old(dst[output, w]), b) || ShiftedBit(row, s, words, bits, w, b))
    {
      var word := src[prior, s];
      if word == 0 {
        forall b: nat { NoBits(b); }
      } else {
        var up, down := Shl(word, bits), Shr(word, WORD_BITS - bits);
        ShiftParts(word, bits, up, down);
        if s + words < dst.Length1 {
          OrBits(dst[output, s + words], up);
          dst[output, s + words] := Or(dst[output, s + words], up);
        }
        if bits != 0 && s + words + 1 < dst.Length1 {
          OrBits(dst[output, s + words + 1], down);
          dst[output, s + words + 1] := Or(dst[output, s + words + 1], down);
        }
      }
    }
  }

  /** The same in Great counts: the row's Greats, each `greats` more. */
  lemma ShiftedGreat(src: array2<nat>, prior: nat, greats: nat, g: nat)
    requires prior < src.Length0 && g < WORD_BITS * src.Length1
    ensures ShiftedBit(RowOf(src, prior), src.Length1, greats / WORD_BITS, greats % WORD_BITS, g / WORD_BITS, g % WORD_BITS)
            <==> g >= greats && CellBit(src, prior, g - greats)
  {
    hide Bit;
    var words, bits, w, b := greats / WORD_BITS, greats % WORD_BITS, g / WORD_BITS, g % WORD_BITS;
    if g >= greats {
      if b >= bits {
        assert g - greats == WORD_BITS * (w - words) + (b - bits);
      } else {
        assert g - greats == WORD_BITS * (w - words - 1) + (b + WORD_BITS - bits);
      }
    }
  }

  /** Every kept count with an option of `count` events and `greats` Greats added, or-ed into the merged table. */
  method MergeOption(src: array2<nat>, dst: array2<nat>, count: nat, greats: nat)
    requires src != dst && Packed(src) && Packed(dst) && src.Length0 == dst.Length0 && src.Length1 == dst.Length1
    requires count < dst.Length0
    modifies dst
    ensures Packed(dst)
    ensures forall c: nat, g: nat :: c < dst.Length0 && g < WORD_BITS * dst.Length1 ==>
              (CellBit(dst, c, g) <==> old(CellBit(dst, c, g)) || (c >= count && g >= greats && CellBit(src, c - count, g - greats)))
  {
    hide Bit, Pow2, IsWord, ShiftedBit;
    var words, bits := greats / WORD_BITS, greats % WORD_BITS;
    for prior := 0 to src.Length0 - count
      invariant Packed(dst)
      invariant forall c, w :: 0 <= c < dst.Length0 && 0 <= w < dst.Length1 && !(count <= c < count + prior) ==> dst[c, w] == old(dst[c, w])
      invariant forall c: nat, w: nat, b: nat :: count <= c < count + prior && w < dst.Length1 && b < WORD_BITS ==>
                  (Bit(dst[c, w], b) <==> Bit(old(dst[c, w]), b) || ShiftedBit(RowOf(src, c - count), src.Length1, words, bits, w, b))
    {
      ShiftRow(src, dst, prior, prior + count, words, bits);
    }
    forall c: nat, g: nat | c < dst.Length0 && g < WORD_BITS * dst.Length1
      ensures CellBit(dst, c, g) <==> old(CellBit(dst, c, g)) || (c >= count && g >= greats && CellBit(src, c - count, g - greats))
    {
      if c >= count { ShiftedGreat(src, c - count, greats, g); }
    }
  }
}
