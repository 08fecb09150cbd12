/** The twelve packed bytes of a Q4K block: eight six-bit scales and eight
    six-bit mins. */
module KScales {

  predicate Packed12(s: seq<bv8>) { |s| == 12 }

  function SixBit(b: bv8): bv8 { b & 0x3F }

  /** The low half of one byte under the top two bits of another. */
  function LowUnder(b: bv8, top: bv8): bv8 { (b & 0x0F) | ((top >> 6) << 4) }

  /** The high half of one byte under the top two bits of another. */
  function HighUnder(b: bv8, top: bv8): bv8 { (b >> 4) | ((top >> 6) << 4) }

  /** Scale `i` of the block format. */
  function Scale(s: seq<bv8>, i: nat): bv8
    requires Packed12(s) && i < 8
  {
    if i < 4 then SixBit(s[i]) else LowUnder(s[i + 4], s[i - 4])
  }

  /** Min `i` of the block format. */
  function Min(s: seq<bv8>, i: nat): bv8
    requires Packed12(s) && i < 8
  {
    if i < 4 then SixBit(s[i + 4]) else HighUnder(s[i + 4], s[i])
  }

  function Word(b0: bv8, b1: bv8, b2: bv8, b3: bv8): bv32 {
    (b0 as bv32) | ((b1 as bv32) << 8) | ((b2 as bv32) << 16) | ((b3 as bv32) << 24)
  }

  function Byte0(w: bv32): bv8 { (w & 0xFF) as bv8 }
  function Byte1(w: bv32): bv8 { ((w >> 8) & 0xFF) as bv8 }
  function Byte2(w: bv32): bv8 { ((w >> 16) & 0xFF) as bv8 }
  function Byte3(w: bv32): bv8 { ((w >> 24) & 0xFF) as bv8 }

  /** The bytes of a word, the least significant first. */
  function Bytes(w: bv32): (r: seq<bv8>)
    ensures |r| == 4
  {
    [Byte0(w), Byte1(w), Byte2(w), Byte3(w)]
  }

  function Masked(w: bv32): bv32 { w & 0x3f3f3f3f }
  function LowMixed(w: bv32, top: bv32): bv32 { (w & 0x0f0f0f0f) | (((top >> 6) & 0x03030303) << 4) }
  function HighMixed(w: bv32, top: bv32): bv32 { ((w >> 4) & 0x0f0f0f0f) | (((top >> 6) & 0x03030303) << 4) }

  lemma MaskedBytes(w: bv32)
    ensures Byte0(Masked(w)) == SixBit(Byte0(w)) && Byte1(Masked(w)) == SixBit(Byte1(w))
    ensures Byte2(Masked(w)) == SixBit(Byte2(w)) && Byte3(Masked(w)) == SixBit(Byte3(w))
  {}

  lemma LowMixedBytes(w: bv32, top: bv32)
    ensures Byte0(LowMixed(w, top)) == LowUnder(Byte0(w), Byte0(top))
    ensures Byte1(LowMixed(w, top)) == LowUnder(Byte1(w), Byte1(top))
    ensures Byte2(LowMixed(w, top)) == LowUnder(Byte2(w), Byte2(top))
    ensures Byte3(LowMixed(w, top)) == LowUnder(Byte3(w), Byte3(top))
  {}

  lemma HighMixedBytes(w: bv32, top: bv32)
    ensures Byte0(HighMixed(w, top)) == HighUnder(Byte0(w), Byte0(top))
    ensures Byte1(HighMixed(w, top)) == HighUnder(Byte1(w), Byte1(top))
    ensures Byte2(HighMixed(w, top)) == HighUnder(Byte2(w), Byte2(top))
    ensures Byte3(HighMixed(w, top)) == HighUnder(Byte3(w), Byte3(top))
  {}

  lemma WordBytes(b0: bv8, b1: bv8, b2: bv8, b3: bv8)
    ensures var w := Word(b0, b1, b2, b3); Byte0(w) == b0 && Byte1(w) == b1 && Byte2(w) == b2 && Byte3(w) == b3
  {}

  lemma WordAt(s: seq<bv8>, at: nat)
    requires at + 4 <= |s|
    ensures Bytes(Word(s[at], s[at + 1], s[at + 2], s[at + 3])) == s[at..at + 4]
  {
    hide Byte0, Byte1, Byte2, Byte3, Word;
    WordBytes(s[at], s[at + 1], s[at + 2], s[at + 3]);
  }

  /** The four words as sixteen bytes: eight scales, then eight mins. */
  function Unpacked(utmp: seq<bv32>): (r: seq<bv8>)
    requires |utmp| == 4
    ensures |r| == 16
  {
    Bytes(utmp[0]) + Bytes(utmp[1]) + Bytes(utmp[2]) + Bytes(utmp[3])
  }

  /** Unpack by rewriting four words in order, each step reading what the
      earlier ones have left. */
  method UnpackKScales(scales: seq<bv8>) returns (utmp: seq<bv32>)
    requires Packed12(scales)
    ensures |utmp| == 4 && Unpacked(utmp) == Scales(scales) + Mins(scales)
  {
    hide Bytes, Masked, LowMixed, HighMixed, Word, Scale, Min;
    utmp := [0, 0, 0, 0];
    for slot := 0 to 3
      invariant |utmp| == 4 && forall k :: 0 <= k < slot ==> Bytes(utmp[k]) == scales[4 * k..4 * k + 4]
    {
      var at := 4 * slot;
      utmp := utmp[slot := Word(scales[at], scales[at + 1], scales[at + 2], scales[at + 3])];
      WordAt(scales, at);
    }
    ghost var raw := utmp;
    assert Bytes(raw[0]) == scales[0..4] && Bytes(raw[1]) == scales[4..8] && Bytes(raw[2]) == scales[8..12];
    utmp := utmp[3 := HighMixed(utmp[2], utmp[1])];
    var uaux := Masked(utmp[1]);
    utmp := utmp[1 := LowMixed(utmp[2], utmp[0])];
    utmp := utmp[2 := uaux];
    utmp := utmp[0 := Masked(utmp[0])];
    ScaleBytes(scales, raw[0], raw[2]);
    MinBytes(scales, raw[1], raw[2]);
  }

  lemma BytesAt(w: bv32, s: seq<bv8>, at: nat)
    requires at + 4 <= |s| && Bytes(w) == s[at..at + 4]
    ensures Byte0(w) == s[at] && Byte1(w) == s[at + 1] && Byte2(w) == s[at + 2] && Byte3(w) == s[at + 3]
  {
    hide Byte0, Byte1, Byte2, Byte3;
    var b := Bytes(w);
    assert b[0] == s[at] && b[1] == s[at + 1] && b[2] == s[at + 2] && b[3] == s[at + 3];
  }

  lemma ScaleBytes(s: seq<bv8>, a: bv32, c: bv32)
    requires Packed12(s) && Bytes(a) == s[0..4] && Bytes(c) == s[8..12]
    ensures Bytes(Masked(a)) + Bytes(LowMixed(c, a)) == Scales(s)
  {
    hide Byte0, Byte1, Byte2, Byte3, Masked, LowMixed, SixBit, LowUnder;
    BytesAt(a, s, 0);
    BytesAt(c, s, 8);
    MaskedBytes(a);
    LowMixedBytes(c, a);
    Eight(Bytes(Masked(a)), Bytes(LowMixed(c, a)), Scales(s));
  }

  lemma MinBytes(s: seq<bv8>, b: bv32, c: bv32)
    requires Packed12(s) && Bytes(b) == s[4..8] && Bytes(c) == s[8..12]
    ensures Bytes(Masked(b)) + Bytes(HighMixed(c, b)) == Mins(s)
  {
    hide Byte0, Byte1, Byte2, Byte3, Masked, HighMixed, SixBit, HighUnder;
    BytesAt(b, s, 4);
    BytesAt(c, s, 8);
    MaskedBytes(b);
    HighMixedBytes(c, b);
    Eight(Bytes(Masked(b)), Bytes(HighMixed(c, b)), Mins(s));
  }

  lemma Eight(x: seq<bv8>, y: seq<bv8>, z: seq<bv8>)
    requires |x| == 4 && |y| == 4 && |z| == 8
    requires x[0] == z[0] && x[1] == z[1] && x[2] == z[2] && x[3] == z[3]
    requires y[0] == z[4] && y[1] == z[5] && y[2] == z[6] && y[3] == z[7]
    ensures x + y == z
  {}

  // ----- packing -----

  /** Eight six-bit values. */
  predicate SixBits(v: seq<bv8>) { |v| == 8 && forall i :: 0 <= i < 8 ==> v[i] < 64 }

  function Scales(s: seq<bv8>): (r: seq<bv8>)
    requires Packed12(s)
  {
    seq(8, i requires 0 <= i < 8 => Scale(s, i))
  }

  function Mins(s: seq<bv8>): (r: seq<bv8>)
    requires Packed12(s)
  {
    seq(8, i requires 0 <= i < 8 => Min(s, i))
  }

  function PackedByte(scales: seq<bv8>, mins: seq<bv8>, i: nat): bv8
    requires SixBits(scales) && SixBits(mins) && i < 12
  {
    if i < 4 then scales[i] | ((scales[i + 4] >> 4) << 6)
    else if i < 8 then mins[i - 4] | ((mins[i] >> 4) << 6)
    else (scales[i - 4] & 0x0F) | ((mins[i - 4] & 0x0F) << 4)
  }

  function Pack(scales: seq<bv8>, mins: seq<bv8>): (s: seq<bv8>)
    requires SixBits(scales) && SixBits(mins)
    ensures Packed12(s)
  {
    seq(12, i requires 0 <= i < 12 => PackedByte(scales, mins, i))
  }

  lemma UnpackedAreSixBits(s: seq<bv8>)
    requires Packed12(s)
    ensures SixBits(Scales(s)) && SixBits(Mins(s))
  {
    forall i | 0 <= i < 8 ensures Scale(s, i) < 64 && Min(s, i) < 64 {
      if i < 4 { SixBitsOf(s[i]); SixBitsOf(s[i + 4]); } else { Mixed(s[i + 4], s[i - 4]); Mixed(s[i + 4], s[i]); }
    }
  }

  lemma SixBitsOf(b: bv8)
    ensures SixBit(b) < 64
  {}

  lemma Mixed(b: bv8, top: bv8)
    ensures LowUnder(b, top) < 64 && HighUnder(b, top) < 64
  {}

  /** Twelve bytes and sixteen six-bit values determine each other. */
  lemma PackUnpacked(s: seq<bv8>)
    requires Packed12(s)
    ensures SixBits(Scales(s)) && SixBits(Mins(s)) && Pack(Scales(s), Mins(s)) == s
  {
    UnpackedAreSixBits(s);
    forall i | 0 <= i < 12 ensures Pack(Scales(s), Mins(s))[i] == s[i] {
      if i < 4 { Rejoined(s[i], s[i + 8]); }
      else if i < 8 { RejoinedHigh(s[i], s[i + 4]); }
      else { Halves(s[i], s[i - 8], s[i - 4]); }
    }
  }

  lemma Rejoined(b: bv8, other: bv8)
    ensures SixBit(b) | ((LowUnder(other, b) >> 4) << 6) == b
  {}

  lemma RejoinedHigh(b: bv8, other: bv8)
    ensures SixBit(b) | ((HighUnder(other, b) >> 4) << 6) == b
  {}

  lemma Halves(b: bv8, x: bv8, y: bv8)
    ensures (LowUnder(b, x) & 0x0F) | ((HighUnder(b, y) & 0x0F) << 4) == b
  {}

  lemma UnpackPacked(scales: seq<bv8>, mins: seq<bv8>)
    requires SixBits(scales) && SixBits(mins)
    ensures Scales(Pack(scales, mins)) == scales && Mins(Pack(scales, mins)) == mins
  {
    var s := Pack(scales, mins);
    forall i | 0 <= i < 8 ensures Scale(s, i) == scales[i] && Min(s, i) == mins[i] {
      if i < 4 {
        FirstFour(scales[i], scales[i + 4]);
        FirstFour(mins[i], mins[i + 4]);
      } else {
        LastFour(scales[i], mins[i], scales[i - 4], mins[i - 4]);
      }
    }
  }

  lemma FirstFour(v: bv8, w: bv8)
    requires v < 64 && w < 64
    ensures SixBit(v | ((w >> 4) << 6)) == v
  {}

  lemma LastFour(v: bv8, w: bv8, x: bv8, y: bv8)
    requires v < 64 && w < 64 && x < 64 && y < 64
    ensures LowUnder((v & 0x0F) | ((w & 0x0F) << 4), x | ((v >> 4) << 6)) == v
    ensures HighUnder((v & 0x0F) | ((w & 0x0F) << 4), y | ((w >> 4) << 6)) == w
  {}
}
