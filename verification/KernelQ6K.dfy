/** The integer part of the Q6K tile: six-bit weights offset by thirty-two,
    under one signed scale for every sixteen. */
module KernelQ6K {
  import opened Simd
  import opened LaneSums

  datatype Q6KBlock = Q6KBlock(ql: seq<bv8>, qh: seq<bv8>, scales: seq<i8>)

  predicate Sized(w: Q6KBlock) { |w.ql| == 128 && |w.qh| == 64 && |w.scales| == 16 }

  // ----- the block format -----

  /** The `i`-th pair of bits of a byte. */
  function Pair(b: bv8, i: nat): bv8
    requires i < 4
  {
    if i == 0 then b & 3 else ByteRight(b, 2 * i) & 3
  }

  /** Weight `e`: four low bits, two high bits, less thirty-two. */
  function Weight(w: Q6KBlock, e: nat): int
    requires Sized(w) && e < 256
  {
    var low := Nibble(w.ql[64 * (e / 128) + e % 64], e % 128 >= 64) as int;
    var high := Pair(w.qh[32 * (e / 128) + e % 32], e % 128 / 32) as int;
    low + 16 * high - 32
  }

  /** The exact products, one a weight. */
  function Products(w: Q6KBlock, y: Q8KBlock): (x: seq<int>)
    requires Sized(w) && InputSized(y)
    ensures |x| == 256
  {
    seq(256, e requires 0 <= e < 256 => w.scales[e / 16] * (Weight(w, e) * y.qs[e]))
  }

  lemma PairBound(b: bv8, i: nat)
    requires i < 4
    ensures Pair(b, i) < 4 && 0 <= Pair(b, i) as int < 4
  {
    hide ByteRight;
    if i == 0 { TwoBits(b); } else { TwoBits(ByteRight(b, 2 * i)); }
  }

  lemma TwoBits(b: bv8)
    ensures b & 3 < 4 && 0 <= (b & 3) as int < 4
  {}

  lemma WeightBound(w: Q6KBlock, e: nat)
    requires Sized(w) && e < 256
    ensures -32 <= Weight(w, e) < 32
  {
    hide Nibble, Pair;
    NibbleBound(w.ql[64 * (e / 128) + e % 64], e % 128 >= 64);
    PairBound(w.qh[32 * (e / 128) + e % 32], e % 128 / 32);
  }

  // ----- decoding -----

  /** The four low bits of group `i`: the low halves of two runs of bytes, then
      their high halves. */
  function LowBits(w: Q6KBlock, j: nat, i: nat): (r: seq<bv8>)
    requires Sized(w) && j < 2 && i < 4
    ensures |r| == 32
  {
    var bytes := if i % 2 == 0 then w.ql[64 * j..64 * j + 32] else w.ql[64 * j + 32..64 * j + 64];
    if i < 2 then And(bytes, 15) else And(Srl16(bytes, 4), 15)
  }

  /** The two high bits of group `i`. */
  function HighBits(w: Q6KBlock, j: nat, i: nat): (r: seq<bv8>)
    requires Sized(w) && j < 2 && i < 4
    ensures |r| == 32
  {
    var bytes := w.qh[32 * j..32 * j + 32];
    if i == 0 then And(bytes, 3) else And(Srl16(bytes, 2 * i), 3)
  }

  function Decoded(w: Q6KBlock, j: nat, i: nat): (r: seq<bv8>)
    requires Sized(w) && j < 2 && i < 4
    ensures |r| == 32
  {
    Or(LowBits(w, j, i), Sll16By4(HighBits(w, j, i)))
  }

  lemma LowBitsAre(w: Q6KBlock, j: nat, i: nat, t: nat)
    requires Sized(w) && j < 2 && i < 4 && t < 32
    ensures LowBits(w, j, i)[t] == Nibble(w.ql[64 * j + 32 * (i % 2) + t], i >= 2)
  {
    hide ByteRight;
    var bytes := if i % 2 == 0 then w.ql[64 * j..64 * j + 32] else w.ql[64 * j + 32..64 * j + 64];
    assert bytes[t] == w.ql[64 * j + 32 * (i % 2) + t];
    NibblesShifted(bytes);
  }

  lemma HighBitsAre(w: Q6KBlock, j: nat, i: nat)
    requires Sized(w) && j < 2 && i < 4
    ensures forall t :: 0 <= t < 32 ==> HighBits(w, j, i)[t] == Pair(w.qh[32 * j + t], i)
    ensures forall t :: 0 <= t < 32 ==> HighBits(w, j, i)[t] < 4
  {
    hide ByteRight, Srl16;
    var bytes := w.qh[32 * j..32 * j + 32];
    if i > 0 { PairsShifted(bytes, 2 * i); }
    forall t | 0 <= t < 32 ensures HighBits(w, j, i)[t] == Pair(w.qh[32 * j + t], i) && HighBits(w, j, i)[t] < 4 {
      assert bytes[t] == w.qh[32 * j + t];
      PairBound(w.qh[32 * j + t], i);
    }
  }

  lemma Joined(low: bv8, high: bv8)
    requires low < 16 && high < 4
    ensures (low | ByteLeft4(high)) as int == (low as int) + 16 * (high as int)
  {}

  lemma WeightAt(w: Q6KBlock, j: nat, i: nat, t: nat)
    requires Sized(w) && j < 2 && i < 4 && t < 32
    ensures 128 * j + 32 * i + t < 256
    ensures Weight(w, 128 * j + 32 * i + t)
         == (Nibble(w.ql[64 * j + 32 * (i % 2) + t], i >= 2) as int) + 16 * (Pair(w.qh[32 * j + t], i) as int) - 32
  {
    hide Nibble, Pair;
    IndexParts(j, i, t);
  }

  lemma IndexParts(j: nat, i: nat, t: nat)
    requires j < 2 && i < 4 && t < 32
    ensures var e := 128 * j + 32 * i + t;
      e / 128 == j && e % 128 == 32 * i + t && e % 64 == 32 * (i % 2) + t && e % 32 == t && (32 * i + t) / 32 == i
  {}

  /** The bytes the kernel puts together are the weights, plus thirty-two. */
  lemma DecodedAre(w: Q6KBlock, j: nat, i: nat)
    requires Sized(w) && j < 2 && i < 4
    ensures forall t :: 0 <= t < 32 ==> ByteLanes(Decoded(w, j, i))[t] == Weight(w, 128 * j + 32 * i + t) + 32
  {
    hide Nibble, Pair, LowBits, HighBits, Weight, ByteLeft4, Sll16By4;
    HighBitsAre(w, j, i);
    PairsRaised(HighBits(w, j, i));
    forall t | 0 <= t < 32 ensures ByteLanes(Decoded(w, j, i))[t] == Weight(w, 128 * j + 32 * i + t) + 32 {
      LowBitsAre(w, j, i, t);
      NibbleBound(w.ql[64 * j + 32 * (i % 2) + t], i >= 2);
      Joined(LowBits(w, j, i)[t], HighBits(w, j, i)[t]);
      WeightAt(w, j, i, t);
    }
  }

  // ----- scales -----

  predicate IsShuffleTable(table: seq<int>) { forall b :: 0 <= b < |table| ==> table[b] == b / 8 }

  /** The shuffle table, filled in as the program fills it. */
  method ScaleShuffleTable() returns (table: seq<int>)
    ensures |table| == 128 && IsShuffleTable(table)
  {
    table := Splat(0, 128);
    var byte := 0;
    while byte < 128
      invariant 0 <= byte <= 128 && |table| == 128 && forall b :: 0 <= b < byte ==> table[b] == b / 8
    {
      table := table[byte := byte / 8];
      byte := byte + 1;
    }
  }

  /** Two scales, eight lanes each. */
  function ScaleVector(scales: seq<i8>, table: seq<int>, index: nat): (r: seq<int>)
    requires |scales| == 16 && |table| == 128 && index < 8
    ensures |r| == 16
  {
    var entry := table[16 * index..16 * index + 16];
    seq(16, t requires 0 <= t < 16 => scales[entry[t] % 16])
  }

  lemma ScaleLanes(scales: seq<i8>, table: seq<int>, index: nat, t: nat)
    requires |scales| == 16 && |table| == 128 && index < 8 && IsShuffleTable(table) && t < 16
    ensures ScaleVector(scales, table, index)[t] == scales[2 * index + t / 8]
  {
    var entry := table[16 * index..16 * index + 16];
    assert entry[t] == table[16 * index + t];
  }

  // ----- one group -----

  /** The products of one group as the kernel forms them: the offset is taken
      off after the multiplication. */
  function GroupPairs(q: seq<int>, y: seq<i8>): (r: seq<int>)
    requires |q| == 32 && |y| == 32
    ensures |r| == 16
  {
    Sub16(MaddUbs(q, y), MaddUbs(Splat(32, 32), y))
  }

  lemma PairExact(q: seq<int>, v: seq<int>, y: seq<i8>, k: nat)
    requires |q| == 32 && |v| == 32 && |y| == 32 && k < 16
    requires forall t :: 0 <= t < 32 ==> q[t] == v[t] + 32 && -32 <= v[t] < 32
    ensures GroupPairs(q, y)[k] == PairDot(v, y, k) && -8192 <= PairDot(v, y, k) <= 8192
  {
    var a, b := 2 * k, 2 * k + 1;
    ProductWithin(q[a], y[a], 63, 128);
    ProductWithin(q[b], y[b], 63, 128);
    ProductWithin(v[a], y[a], 32, 128);
    ProductWithin(v[b], y[b], 32, 128);
    Offset(v[a], y[a]);
    Offset(v[b], y[b]);
  }

  lemma Offset(v: int, y: int)
    ensures (v + 32) * y == v * y + 32 * y
  {}

  lemma GroupExact(s: seq<int>, first: int, second: int, q: seq<int>, v: seq<int>, y: seq<i8>, x: seq<int>, g: nat)
    requires |s| == 16 && |q| == 32 && |v| == 32 && |y| == 32 && GROUP * g + GROUP <= |x|
    requires -128 <= first < 128 && -128 <= second < 128
    requires forall t :: 0 <= t < 16 ==> s[t] == if t < 8 then first else second
    requires forall t :: 0 <= t < 32 ==> q[t] == v[t] + 32 && -32 <= v[t] < 32
    requires forall t :: 0 <= t < 32 ==> x[GROUP * g + t] == (if t < 16 then first else second) * (v[t] * y[t])
    ensures Madd(s, GroupPairs(q, y)) == Quads(x, g)
  {
    hide Madd, GroupPairs, Quad, PairDot;
    var p := GroupPairs(q, y);
    var r := Madd(s, p);
    forall k | 0 <= k < 8 ensures r[k] == Quad(x, g, k) {
      PairExact(q, v, y, 2 * k);
      PairExact(q, v, y, 2 * k + 1);
      MaddLane(s, p, k);
      QuadIs(if k < 4 then first else second, v, y, x, g, k);
    }
  }

  lemma GroupProducts(w: Q6KBlock, y: Q8KBlock, table: seq<int>, j: nat, i: nat)
    requires Sized(w) && InputSized(y) && |table| == 128 && IsShuffleTable(table) && j < 2 && i < 4
    ensures Madd(ScaleVector(w.scales, table, 4 * j + i), GroupPairs(ByteLanes(Decoded(w, j, i)), Activations(y, 4 * j + i)))
         == Quads(Products(w, y), 4 * j + i)
  {
    hide Madd, GroupPairs, Quads, Weight, ScaleVector, IsShuffleTable, Decoded, ByteLanes;
    var g := 4 * j + i;
    var s, q := ScaleVector(w.scales, table, g), ByteLanes(Decoded(w, j, i));
    var v := seq(32, t requires 0 <= t < 32 => Weight(w, 32 * g + t));
    DecodedAre(w, j, i);
    forall t | 0 <= t < 16 ensures s[t] == w.scales[2 * g + t / 8] {
      ScaleLanes(w.scales, table, g, t);
    }
    forall t | 0 <= t < 32
      ensures q[t] == v[t] + 32 && -32 <= v[t] < 32
      ensures Products(w, y)[32 * g + t] == w.scales[if t < 16 then 2 * g else 2 * g + 1] * (v[t] * Activations(y, g)[t])
    {
      WeightBound(w, 32 * g + t);
    }
    GroupExact(s, w.scales[2 * g], w.scales[2 * g + 1], q, v, Activations(y, g), Products(w, y), g);
  }

  lemma ProductsNarrow(w: Q6KBlock, y: Q8KBlock)
    requires Sized(w) && InputSized(y)
    ensures Narrow(Products(w, y), 524288)
  {
    hide Weight;
    forall e | 0 <= e < 256 ensures -524288 <= Products(w, y)[e] <= 524288 {
      WeightBound(w, e);
      ProductWithin(Weight(w, e), y.qs[e], 32, 128);
      ProductWithin(w.scales[e / 16], Weight(w, e) * y.qs[e], 128, 4096);
    }
  }

  // ----- the block -----

  /** One block against every input row. */
  method BlockSums(w: Q6KBlock, inputs: seq<Q8KBlock>) returns (sumi: seq<seq<int>>)
    requires Sized(w) && forall l :: 0 <= l < |inputs| ==> InputSized(inputs[l])
    ensures |sumi| == |inputs|
    ensures forall l :: 0 <= l < |inputs| ==> sumi[l] == Lanes(Products(w, inputs[l]), 8)
  {
    hide Madd, MaddUbs, Sub16, Add32, GroupPairs, Quads, Products, Lane, Narrow, ByteLanes, And, Or, Srl16, Sll16By4, IsShuffleTable,
      ScaleVector, Activations, Decoded;
    var table := ScaleShuffleTable();
    sumi := seq(|inputs|, _ => Splat(0, 8));
    NoGroups(w, inputs, sumi);
    for j := 0 to 2
      invariant |sumi| == |inputs| && forall l :: 0 <= l < |inputs| ==> sumi[l] == Lanes(Products(w, inputs[l]), 4 * j)
    {
      var q0, q1, q2, q3 := Decode(w, j);
      var scale0 := ScaleVector(w.scales, table, 4 * j);
      var scale1 := ScaleVector(w.scales, table, 4 * j + 1);
      var scale2 := ScaleVector(w.scales, table, 4 * j + 2);
      var scale3 := ScaleVector(w.scales, table, 4 * j + 3);
      for lane := 0 to |inputs|
        invariant |sumi| == |inputs|
        invariant forall l :: 0 <= l < |inputs| ==>
          sumi[l] == Lanes(Products(w, inputs[l]), if l < lane then 4 * j + 4 else 4 * j)
      {
        var y := inputs[lane];
        var p0 := Madd(scale0, GroupPairs(ByteLanes(q0), Activations(y, 4 * j)));
        var p1 := Madd(scale1, GroupPairs(ByteLanes(q1), Activations(y, 4 * j + 1)));
        var p2 := Madd(scale2, GroupPairs(ByteLanes(q2), Activations(y, 4 * j + 2)));
        var p3 := Madd(scale3, GroupPairs(ByteLanes(q3), Activations(y, 4 * j + 3)));
        GroupProducts(w, y, table, j, 0);
        GroupProducts(w, y, table, j, 1);
        GroupProducts(w, y, table, j, 2);
        GroupProducts(w, y, table, j, 3);
        ProductsNarrow(w, y);
        FourGroups(Products(w, y), 4 * j, 524288);
        sumi := sumi[lane := Add32(sumi[lane], Add32(Add32(p0, p1), Add32(p2, p3)))];
      }
    }
  }

  /** The four decoded vectors of one half of the block. */
  method Decode(w: Q6KBlock, j: nat) returns (q0: seq<bv8>, q1: seq<bv8>, q2: seq<bv8>, q3: seq<bv8>)
    requires Sized(w) && j < 2
    ensures q0 == Decoded(w, j, 0) && q1 == Decoded(w, j, 1) && q2 == Decoded(w, j, 2) && q3 == Decoded(w, j, 3)
  {
    hide And, Or, Srl16, Sll16By4;
    var q4bits1 := w.ql[64 * j..64 * j + 32];
    var q4bits2 := w.ql[64 * j + 32..64 * j + 64];
    var q4bitsH := w.qh[32 * j..32 * j + 32];
    q0 := Or(And(q4bits1, 15), Sll16By4(And(q4bitsH, 3)));
    q1 := Or(And(q4bits2, 15), Sll16By4(And(Srl16(q4bitsH, 2), 3)));
    q2 := Or(And(Srl16(q4bits1, 4), 15), Sll16By4(And(Srl16(q4bitsH, 4), 3)));
    q3 := Or(And(Srl16(q4bits2, 4), 15), Sll16By4(And(Srl16(q4bitsH, 6), 3)));
  }

  lemma NoGroups(w: Q6KBlock, inputs: seq<Q8KBlock>, sumi: seq<seq<int>>)
    requires Sized(w) && forall l :: 0 <= l < |inputs| ==> InputSized(inputs[l])
    requires |sumi| == |inputs| && forall l :: 0 <= l < |inputs| ==> sumi[l] == Splat(0, 8)
    ensures forall l :: 0 <= l < |inputs| ==> sumi[l] == Lanes(Products(w, inputs[l]), 0)
  {
    forall l | 0 <= l < |inputs| ensures sumi[l] == Lanes(Products(w, inputs[l]), 0) {
      assert Splat(0, 8) == Lanes(Products(w, inputs[l]), 0);
    }
  }

  /** The lanes add up to the block's exact scaled dot product, and each is
      small enough to be a float exactly. */
  lemma BlockExact(w: Q6KBlock, y: Q8KBlock)
    requires Sized(w) && InputSized(y)
    ensures Sum(Lanes(Products(w, y), 8), 8) == Sum(Products(w, y), 256)
    ensures forall k :: 0 <= k < 8 ==> -16777216 <= Lanes(Products(w, y), 8)[k] <= 16777216
  {
    hide Products, Narrow;
    ProductsNarrow(w, y);
    LanesTotal(Products(w, y), 8);
    forall k | 0 <= k < 8 ensures -16777216 <= Lanes(Products(w, y), 8)[k] <= 16777216 {
      NarrowLane(Products(w, y), k, 8, 524288);
    }
  }
}
