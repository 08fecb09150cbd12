/** The integer part of the Q4K tile: four-bit weights, six-bit scales and
    mins, against signed activations. */
module KernelQ4K {
  import opened Indexing
  import opened Simd
  import opened LaneSums
  import KScales

  datatype Q4KBlock = Q4KBlock(scales: seq<bv8>, qs: seq<bv8>)

  predicate Sized(w: Q4KBlock) { |w.scales| == 12 && |w.qs| == 128 }

  // ----- the block format -----

  /** Weight `e`: low halves of a run of thirty-two bytes, then high halves. */
  function Weight(w: Q4KBlock, e: nat): int
    requires Sized(w) && e < 256
  {
    Nibble(w.qs[32 * (e / 64) + e % 32], e % 64 >= 32) as int
  }

  function ScaleOf(w: Q4KBlock, g: nat): int
    requires Sized(w) && g < 8
  {
    KScales.Scale(w.scales, g) as int
  }

  function MinOf(w: Q4KBlock, g: nat): int
    requires Sized(w) && g < 8
  {
    KScales.Min(w.scales, g) as int
  }

  /** The exact products, one a weight. */
  function Products(w: Q4KBlock, y: Q8KBlock): (x: seq<int>)
    requires Sized(w) && InputSized(y)
    ensures |x| == 256
  {
    seq(256, e requires 0 <= e < 256 => ScaleOf(w, e / 32) * (Weight(w, e) * y.qs[e]))
  }

  /** The exact corrections for the mins. */
  function Corrections(w: Q4KBlock, y: Q8KBlock): (x: seq<int>)
    requires Sized(w) && InputSized(y)
    ensures |x| == 256
  {
    seq(256, e requires 0 <= e < 256 => MinOf(w, e / 32) * y.qs[e])
  }

  lemma SixBound(b: bv8)
    requires b < 64
    ensures 0 <= b as int < 64
  {}

  lemma ScaleBounds(w: Q4KBlock, g: nat)
    requires Sized(w) && g < 8
    ensures 0 <= ScaleOf(w, g) < 64 && 0 <= MinOf(w, g) < 64
  {
    KScales.UnpackedAreSixBits(w.scales);
    assert KScales.Scales(w.scales)[g] < 64 && KScales.Mins(w.scales)[g] < 64;
    SixBound(KScales.Scale(w.scales, g));
    SixBound(KScales.Min(w.scales, g));
  }

  // ----- broadcasting a scale -----

  /** The shuffle table, filled in as the program fills it. */
  method ScaleShuffleTable() returns (table: seq<int>)
    ensures |table| == 256 && IsShuffleTable(table)
  {
    table := Splat(0, 256);
    var index := 0;
    while index < 8
      invariant 0 <= index <= 8 && |table| == 256
      invariant forall i :: 0 <= i < 32 * index ==> table[i] == 2 * (i / 32) + i % 2
    {
      var byte := 0;
      while byte < 32
        invariant 0 <= byte <= 32 && byte % 2 == 0 && |table| == 256
        invariant forall i :: 0 <= i < 32 * index + byte ==> table[i] == 2 * (i / 32) + i % 2
      {
        table := table[index * 32 + byte := index * 2];
        table := table[index * 32 + byte + 1 := index * 2 + 1];
        byte := byte + 2;
      }
      index := index + 1;
    }
  }

  /** The bytes of 16-bit lanes. */
  function LaneBytes(v: seq<int>): (r: seq<int>)
    ensures |r| == 2 * |v|
  {
    seq(2 * |v|, i requires 0 <= i < 2 * |v| => if i % 2 == 0 then v[i / 2] % 256 else v[i / 2] / 256 % 256)
  }

  /** `shuffle_epi8` on a vector whose two halves are both `v`. */
  function Shuffle(v: seq<int>, index: seq<int>): (r: seq<int>)
    requires |v| == 16
    ensures |r| == |index|
  {
    seq(|index|, i requires 0 <= i < |index| => v[index[i] % 16])
  }

  function WordLanes(v: seq<int>): (r: seq<int>)
    requires |v| % 2 == 0
    ensures |r| == |v| / 2
  {
    seq(|v| / 2, t requires 0 <= t < |v| / 2 => Wrap16(v[2 * t] + 256 * v[2 * t + 1]))
  }

  /** The scale of one group, in every lane. */
  function ScaleVector(scales: seq<int>, table: seq<int>, index: nat): (r: seq<int>)
    requires |scales| == 8 && |table| == 256 && index < 8
    ensures |r| == 16
  {
    WordLanes(Shuffle(LaneBytes(scales), table[32 * index..32 * index + 32]))
  }

  predicate IsShuffleTable(table: seq<int>) {
    forall i :: 0 <= i < |table| ==> table[i] == 2 * (i / 32) + i % 2
  }

  lemma TableEntry(table: seq<int>, index: nat, t: nat)
    requires |table| == 256 && IsShuffleTable(table) && index < 8 && t < 16
    ensures var entry := table[32 * index..32 * index + 32]; entry[2 * t] == 2 * index && entry[2 * t + 1] == 2 * index + 1
  {
    var entry := table[32 * index..32 * index + 32];
    assert entry[2 * t] == table[32 * index + 2 * t];
    assert entry[2 * t + 1] == table[32 * index + 2 * t + 1];
  }

  lemma ScaleBytesAt(scales: seq<int>, index: nat)
    requires |scales| == 8 && index < 8 && 0 <= scales[index] < 64
    ensures LaneBytes(scales)[2 * index] == scales[index] && LaneBytes(scales)[2 * index + 1] == 0
  {}

  /** A shuffle entry copies one scale to every lane. */
  lemma Broadcast(scales: seq<int>, table: seq<int>, index: nat)
    requires |scales| == 8 && index < 8 && 0 <= scales[index] < 64 && |table| == 256 && IsShuffleTable(table)
    ensures ScaleVector(scales, table, index) == Splat(scales[index], 16)
  {
    hide LaneBytes, IsShuffleTable;
    var entry := table[32 * index..32 * index + 32];
    var lanes := WordLanes(Shuffle(LaneBytes(scales), entry));
    ScaleBytesAt(scales, index);
    forall t | 0 <= t < 16 ensures lanes[t] == scales[index] {
      TableEntry(table, index, t);
    }
  }

  // ----- one group -----

  /** One group is exact: no pair of products saturates and no scaled pair
      wraps around. */
  lemma GroupExact(scale: int, q: seq<int>, y: seq<i8>, x: seq<int>, g: nat)
    requires 0 <= scale < 64 && |q| == 32 && |y| == 32 && forall i :: 0 <= i < 32 ==> 0 <= q[i] < 16
    requires 32 * g + 32 <= |x| && forall i :: 0 <= i < 32 ==> x[32 * g + i] == scale * (q[i] * y[i])
    ensures Madd(Splat(scale, 16), MaddUbs(q, y)) == Quads(x, g)
  {
    hide Madd, MaddUbs, Quad;
    var p := MaddUbs(q, y);
    var r := Madd(Splat(scale, 16), p);
    forall k | 0 <= k < 8 ensures r[k] == Quad(x, g, k) {
      PairExact(q, y, 2 * k);
      PairExact(q, y, 2 * k + 1);
      MaddLane(Splat(scale, 16), p, k);
      QuadIs(scale, q, y, x, g, k);
    }
  }

  lemma PairExact(q: seq<int>, y: seq<i8>, k: nat)
    requires |q| == 32 && |y| == 32 && k < 16 && forall i :: 0 <= i < 32 ==> 0 <= q[i] < 16
    ensures MaddUbs(q, y)[k] == q[2 * k] * y[2 * k] + q[2 * k + 1] * y[2 * k + 1]
    ensures -3840 <= MaddUbs(q, y)[k] <= 3840
  {
    ProductWithin(q[2 * k], y[2 * k], 15, 128);
    ProductWithin(q[2 * k + 1], y[2 * k + 1], 15, 128);
  }

  function LowNibbles(w: Q4KBlock, j: nat): (r: seq<bv8>)
    requires Sized(w) && j < 4
    ensures |r| == 32
  {
    And(w.qs[32 * j..32 * j + 32], 15)
  }

  function HighNibbles(w: Q4KBlock, j: nat): (r: seq<bv8>)
    requires Sized(w) && j < 4
    ensures |r| == 32
  {
    And(Srl16(w.qs[32 * j..32 * j + 32], 4), 15)
  }

  lemma WeightAt(w: Q4KBlock, j: nat, i: nat)
    requires Sized(w) && j < 4 && i < 32
    ensures Weight(w, 64 * j + i) == Nibble(w.qs[32 * j + i], false) as int
    ensures Weight(w, 64 * j + 32 + i) == Nibble(w.qs[32 * j + i], true) as int
  {
    hide Nibble;
  }

  /** The nibbles the kernel splits off are the weights of groups `2j` and
      `2j + 1`. */
  lemma SplitNibbles(w: Q4KBlock, j: nat)
    requires Sized(w) && j < 4
    ensures forall i :: 0 <= i < 32 ==> ByteLanes(LowNibbles(w, j))[i] == Weight(w, 64 * j + i)
    ensures forall i :: 0 <= i < 32 ==> ByteLanes(HighNibbles(w, j))[i] == Weight(w, 64 * j + 32 + i)
  {
    hide ByteRight, Weight, Srl16;
    var bytes := w.qs[32 * j..32 * j + 32];
    NibblesShifted(bytes);
    forall i | 0 <= i < 32
      ensures ByteLanes(LowNibbles(w, j))[i] == Weight(w, 64 * j + i)
      ensures ByteLanes(HighNibbles(w, j))[i] == Weight(w, 64 * j + 32 + i)
    {
      WeightAt(w, j, i);
      assert bytes[i] == w.qs[32 * j + i];
      assert And(Srl16(bytes, 4), 15)[i] == ByteRight(bytes[i], 4) & 15;
    }
  }

  /** The multiplications of one pass over thirty-two weight bytes. */
  lemma PassExact(w: Q4KBlock, y: Q8KBlock, scales: seq<int>, table: seq<int>, j: nat)
    requires Sized(w) && InputSized(y) && j < 4 && |table| == 256 && IsShuffleTable(table)
    requires |scales| == 8 && forall g :: 0 <= g < 8 ==> scales[g] == ScaleOf(w, g)
    ensures Madd(ScaleVector(scales, table, 2 * j), MaddUbs(ByteLanes(LowNibbles(w, j)), Activations(y, 2 * j))) == Quads(Products(w, y), 2 * j)
    ensures Madd(ScaleVector(scales, table, 2 * j + 1), MaddUbs(ByteLanes(HighNibbles(w, j)), Activations(y, 2 * j + 1)))
         == Quads(Products(w, y), 2 * j + 1)
  {
    hide Madd, MaddUbs, ScaleVector, IsShuffleTable, LowNibbles, HighNibbles, Quads, ScaleOf, Products, Weight, Activations;
    ScaleBounds(w, 2 * j);
    ScaleBounds(w, 2 * j + 1);
    Broadcast(scales, table, 2 * j);
    Broadcast(scales, table, 2 * j + 1);
    SplitNibbles(w, j);
    GroupProducts(w, y, 2 * j, ByteLanes(LowNibbles(w, j)));
    GroupProducts(w, y, 2 * j + 1, ByteLanes(HighNibbles(w, j)));
  }

  lemma GroupProducts(w: Q4KBlock, y: Q8KBlock, g: nat, q: seq<int>)
    requires Sized(w) && InputSized(y) && g < 8 && |q| == 32
    requires forall i :: 0 <= i < 32 ==> q[i] == Weight(w, 32 * g + i)
    ensures Madd(Splat(ScaleOf(w, g), 16), MaddUbs(q, Activations(y, g))) == Quads(Products(w, y), g)
  {
    hide Madd, MaddUbs, Quads, ScaleOf, Weight;
    ScaleBounds(w, g);
    forall i | 0 <= i < 32
      ensures 0 <= q[i] < 16 && Products(w, y)[32 * g + i] == ScaleOf(w, g) * (q[i] * y.qs[32 * g..32 * g + 32][i])
    {
      WeightBound(w, 32 * g + i);
    }
    GroupExact(ScaleOf(w, g), q, y.qs[32 * g..32 * g + 32], Products(w, y), g);
  }

  lemma WeightBound(w: Q4KBlock, e: nat)
    requires Sized(w) && e < 256
    ensures 0 <= Weight(w, e) < 16
  {
    NibbleBound(w.qs[32 * (e / 64) + e % 32], e % 64 >= 32);
  }

  lemma ProductsNarrow(w: Q4KBlock, y: Q8KBlock)
    requires Sized(w) && InputSized(y)
    ensures Narrow(Products(w, y), 120960)
  {
    hide ScaleOf, Weight;
    forall e | 0 <= e < 256 ensures -120960 <= Products(w, y)[e] <= 120960 {
      ScaleBounds(w, e / 32);
      WeightBound(w, e);
      ProductWithin(Weight(w, e), y.qs[e], 15, 128);
      ProductWithin(ScaleOf(w, e / 32), Weight(w, e) * y.qs[e], 63, 1920);
    }
  }

  /** One block against every input row: the decode is shared, the lanes are
      exact, and the min sums ride along. */
  method BlockSums(w: Q4KBlock, inputs: seq<Q8KBlock>) returns (sumi: seq<seq<int>>, prods: seq<seq<int>>)
    requires Sized(w) && forall l :: 0 <= l < |inputs| ==> InputSized(inputs[l]) && Summed(inputs[l])
    ensures |sumi| == |inputs| && |prods| == |inputs|
    ensures forall l :: 0 <= l < |inputs| ==> sumi[l] == Lanes(Products(w, inputs[l]), 8)
    ensures forall l :: 0 <= l < |inputs| ==> prods[l] == MinLanes(w, inputs[l])
  {
    hide Madd, MaddUbs, ScaleVector, Activations, IsShuffleTable, Quads, ScaleOf, MinOf, Products, Weight, Lane, Hadd16,
      KScales.Scale, KScales.Min, Summed, MinLanes, Add32, Narrow, ByteLanes, And, Srl16, KScales.Unpacked;
    var utmp := KScales.UnpackKScales(w.scales);
    var unpacked := ByteLanes(KScales.Unpacked(utmp));
    var scales, mins := unpacked[..8], unpacked[8..];
    UnpackedLanes(w, utmp);
    var table := ScaleShuffleTable();
    sumi := seq(|inputs|, _ => Splat(0, 8));
    NoGroups(w, inputs, sumi);
    for j := 0 to 4
      invariant |sumi| == |inputs| && forall l :: 0 <= l < |inputs| ==> sumi[l] == Lanes(Products(w, inputs[l]), 2 * j)
    {
      var q4bits := w.qs[32 * j..32 * j + 32];
      var q4l := And(q4bits, 15);
      var q4h := And(Srl16(q4bits, 4), 15);
      var scaleL := ScaleVector(scales, table, 2 * j);
      var scaleH := ScaleVector(scales, table, 2 * j + 1);
      for lane := 0 to |inputs|
        invariant |sumi| == |inputs|
        invariant forall l :: 0 <= l < |inputs| ==>
          sumi[l] == Lanes(Products(w, inputs[l]), if l < lane then 2 * j + 2 else 2 * j)
      {
        var y := inputs[lane];
        PassExact(w, y, scales, table, j);
        ProductsNarrow(w, y);
        TwoGroups(Products(w, y), 2 * j, 120960);
        var p16l := Madd(scaleL, MaddUbs(ByteLanes(q4l), Activations(y, 2 * j)));
        var p16h := Madd(scaleH, MaddUbs(ByteLanes(q4h), Activations(y, 2 * j + 1)));
        sumi := sumi[lane := Add32(sumi[lane], Add32(p16l, p16h))];
      }
    }
    prods := [];
    for lane := 0 to |inputs|
      invariant |prods| == lane && forall l :: 0 <= l < lane ==> prods[l] == MinLanes(w, inputs[l])
    {
      var y := inputs[lane];
      MinsExact(w, y, mins);
      prods := prods + [Madd(mins, Hadd16(y.bsums[..8], y.bsums[8..]))];
    }
  }

  lemma NoGroups(w: Q4KBlock, inputs: seq<Q8KBlock>, sumi: seq<seq<int>>)
    requires Sized(w) && forall l :: 0 <= l < |inputs| ==> InputSized(inputs[l])
    requires |sumi| == |inputs| && forall l :: 0 <= l < |inputs| ==> sumi[l] == Splat(0, 8)
    ensures forall l :: 0 <= l < |inputs| ==> sumi[l] == Lanes(Products(w, inputs[l]), 0)
  {
    forall l | 0 <= l < |inputs| ensures sumi[l] == Lanes(Products(w, inputs[l]), 0) {
      assert Splat(0, 8) == Lanes(Products(w, inputs[l]), 0);
    }
  }

  lemma UnpackedLanes(w: Q4KBlock, utmp: seq<bv32>)
    requires Sized(w) && |utmp| == 4 && KScales.Unpacked(utmp) == KScales.Scales(w.scales) + KScales.Mins(w.scales)
    ensures forall g :: 0 <= g < 8 ==> ByteLanes(KScales.Unpacked(utmp))[..8][g] == ScaleOf(w, g)
    ensures forall g :: 0 <= g < 8 ==> ByteLanes(KScales.Unpacked(utmp))[8..][g] == MinOf(w, g)
  {
    hide KScales.Scale, KScales.Min, KScales.Unpacked;
  }

  // ----- the mins -----

  /** The activations' sums of sixteen, as their quantizer stores them. */
  predicate Summed(y: Q8KBlock)
    requires InputSized(y)
  {
    forall i :: 0 <= i < 16 ==> y.bsums[i] == Sum(y.qs[16 * i..16 * i + 16], 16)
  }

  /** Lane `k` of the min term: the corrections of two groups. */
  function MinLanes(w: Q4KBlock, y: Q8KBlock): (r: seq<int>)
    requires Sized(w) && InputSized(y)
    ensures |r| == 4
  {
    seq(4, k requires 0 <= k < 4 => Sum(Corrections(w, y)[64 * k..64 * k + 64], 64))
  }

  lemma {:induction false} ScaledSum(m: int, y: seq<int>, c: seq<int>, n: nat)
    requires n <= |y| == |c| && forall i :: 0 <= i < n ==> c[i] == m * y[i]
    ensures Sum(c, n) == m * Sum(y, n)
  {
    if n > 0 { ScaledSum(m, y, c, n - 1); }
  }

  lemma {:induction false} SumJoin(x: seq<int>, a: nat, b: nat)
    requires a + b <= |x|
    ensures Sum(x, a + b) == Sum(x[..a], a) + Sum(x[a..a + b], b)
    decreases a + b
  {
    if b > 0 {
      SumJoin(x, a, b - 1);
      SumPrefix(x[a..a + b], x[a..a + (b - 1)], b - 1);
    } else {
      SumPrefix(x, x[..a], a);
    }
  }

  lemma {:induction false} SumPrefix(x: seq<int>, y: seq<int>, n: nat)
    requires n <= |x| && n <= |y| && x[..n] == y[..n]
    ensures Sum(x, n) == Sum(y, n)
  {
    if n > 0 {
      assert x[n - 1] == x[..n][n - 1] == y[n - 1];
      assert x[..n - 1] == x[..n][..n - 1] == y[..n - 1];
      SumPrefix(x, y, n - 1);
    }
  }

  lemma {:induction false} SumWithin(y: seq<i8>, n: nat)
    requires n <= |y|
    ensures -128 * n <= Sum(y, n) <= 128 * n
  {
    if n > 0 { SumWithin(y, n - 1); }
  }

  lemma GroupCorrections(w: Q4KBlock, y: Q8KBlock, g: nat)
    requires Sized(w) && InputSized(y) && g < 8
    ensures Sum(Corrections(w, y)[32 * g..32 * g + 32], 32) == MinOf(w, g) * Sum(Activations(y, g), 32)
  {
    hide MinOf;
    var ys, cs := Activations(y, g), Corrections(w, y)[32 * g..32 * g + 32];
    forall i | 0 <= i < 32 ensures cs[i] == MinOf(w, g) * ys[i] {
      assert cs[i] == Corrections(w, y)[32 * g + i] && ys[i] == y.qs[32 * g + i];
    }
    ScaledSum(MinOf(w, g), ys, cs, 32);
  }

  lemma GroupSums(y: Q8KBlock, g: nat)
    requires InputSized(y) && Summed(y) && g < 8
    ensures -2048 <= y.bsums[2 * g] <= 2048 && -2048 <= y.bsums[2 * g + 1] <= 2048
    ensures y.bsums[2 * g] + y.bsums[2 * g + 1] == Sum(Activations(y, g), 32)
  {
    hide Sum;
    SliceOfSlice(y.qs, 32 * g, 32 * g + 32, 0, 16);
    SliceOfSlice(y.qs, 32 * g, 32 * g + 32, 16, 16);
    var ys := Activations(y, g);
    assert ys[..16] == ys[0..0 + 16];
    SumJoin(ys, 16, 16);
    SumWithin(ys[..16], 16);
    SumWithin(ys[16..16 + 16], 16);
  }

  lemma MinsExact(w: Q4KBlock, y: Q8KBlock, mins: seq<int>)
    requires Sized(w) && InputSized(y) && Summed(y)
    requires |mins| == 8 && forall g :: 0 <= g < 8 ==> mins[g] == MinOf(w, g)
    ensures Madd(mins, Hadd16(y.bsums[..8], y.bsums[8..])) == MinLanes(w, y)
  {
    hide MinOf, Corrections, Summed, Sum;
    var sums := Hadd16(y.bsums[..8], y.bsums[8..]);
    var r := Madd(mins, sums);
    forall k | 0 <= k < 4 ensures r[k] == MinLanes(w, y)[k] {
      MinLane(w, y, k, sums);
    }
  }

  lemma MinLane(w: Q4KBlock, y: Q8KBlock, k: nat, sums: seq<int>)
    requires Sized(w) && InputSized(y) && Summed(y) && k < 4
    requires sums == Hadd16(y.bsums[..8], y.bsums[8..])
    ensures Wrap32(MinOf(w, 2 * k) * sums[2 * k] + MinOf(w, 2 * k + 1) * sums[2 * k + 1]) == Sum(Corrections(w, y)[64 * k..64 * k + 64], 64)
  {
    hide MinOf, Corrections, Summed, Sum, Hadd16, Activations;
    MinTerm(w, y, 2 * k, sums);
    MinTerm(w, y, 2 * k + 1, sums);
    TwoRuns(Corrections(w, y), k);
  }

  lemma MinTerm(w: Q4KBlock, y: Q8KBlock, g: nat, sums: seq<int>)
    requires Sized(w) && InputSized(y) && Summed(y) && g < 8
    requires sums == Hadd16(y.bsums[..8], y.bsums[8..])
    ensures MinOf(w, g) * sums[g] == Sum(Corrections(w, y)[32 * g..32 * g + 32], 32)
    ensures -258048 <= MinOf(w, g) * sums[g] <= 258048
  {
    hide MinOf, Corrections, Summed, Sum, Hadd16, Activations;
    GroupCorrections(w, y, g);
    GroupSums(y, g);
    HaddAt(y.bsums, g);
    ScaleBounds(w, g);
    ProductWithin(MinOf(w, g), sums[g], 63, 4096);
  }

  lemma TwoRuns(x: seq<int>, k: nat)
    requires |x| == 256 && k < 4
    ensures Sum(x[64 * k..64 * k + 64], 64)
         == Sum(x[32 * (2 * k)..32 * (2 * k) + 32], 32) + Sum(x[32 * (2 * k + 1)..32 * (2 * k + 1) + 32], 32)
  {
    hide Sum;
    var c := x[64 * k..64 * k + 64];
    SumJoin(c, 32, 32);
    SliceOfSlice(x, 64 * k, 64 * k + 64, 0, 32);
    SliceOfSlice(x, 64 * k, 64 * k + 64, 32, 32);
    assert c[..32] == c[0..0 + 32];
  }

  lemma HaddAt(bsums: seq<int>, g: nat)
    requires |bsums| == 16 && g < 8 && -2048 <= bsums[2 * g] <= 2048 && -2048 <= bsums[2 * g + 1] <= 2048
    ensures Hadd16(bsums[..8], bsums[8..])[g] == bsums[2 * g] + bsums[2 * g + 1]
  {}

  // ----- what the block adds up to -----

  /** The lanes add up to the block's exact scaled dot product, and each is
      small enough to be a float exactly. */
  lemma BlockExact(w: Q4KBlock, y: Q8KBlock)
    requires Sized(w) && InputSized(y)
    ensures Sum(Lanes(Products(w, y), 8), 8) == Sum(Products(w, y), 256)
    ensures forall k :: 0 <= k < 8 ==> -16777216 <= Lanes(Products(w, y), 8)[k] <= 16777216
  {
    hide Products, Narrow;
    ProductsNarrow(w, y);
    LanesTotal(Products(w, y), 8);
    forall k | 0 <= k < 8 ensures -16777216 <= Lanes(Products(w, y), 8)[k] <= 16777216 {
      NarrowLane(Products(w, y), k, 8, 120960);
    }
  }

  lemma MinLanesTotal(w: Q4KBlock, y: Q8KBlock)
    requires Sized(w) && InputSized(y)
    ensures Sum(MinLanes(w, y), 4) == Sum(Corrections(w, y), 256)
  {
    hide Corrections, Sum;
    var c, m := Corrections(w, y), MinLanes(w, y);
    NextSum(m, 0);
    NextSum(c, 0);
    for k := 0 to 4
      invariant Sum(m, k) == Sum(c, 64 * k)
    {
      SumJoin(c, 64 * k, 64);
      SumPrefix(c, c[..64 * k], 64 * k);
      NextSum(m, k);
    }
  }

  /** Weight `e` as the format means it. */
  function Dequantized(w: Q4KBlock, d: real, dmin: real, e: nat): real
    requires Sized(w) && e < 256
  {
    d * (ScaleOf(w, e / 32) as real) * (Weight(w, e) as real) - dmin * (MinOf(w, e / 32) as real)
  }

  function DequantizedDot(w: Q4KBlock, y: Q8KBlock, d: real, dmin: real, n: nat): real
    requires Sized(w) && InputSized(y) && n <= 256
  {
    if n == 0 then 0.0 else DequantizedDot(w, y, d, dmin, n - 1) + Dequantized(w, d, dmin, n - 1) * (y.qs[n - 1] as real)
  }

  function Combined(d: real, dmin: real, p: int, c: int): real { d * (p as real) - dmin * (c as real) }

  /** The two integer sums are all a dequantized dot product needs. */
  lemma {:induction false} TwoSumsSuffice(w: Q4KBlock, y: Q8KBlock, d: real, dmin: real, n: nat)
    requires Sized(w) && InputSized(y) && n <= 256
    ensures DequantizedDot(w, y, d, dmin, n) == Combined(d, dmin, Sum(Products(w, y), n), Sum(Corrections(w, y), n))
  {
    hide Combined, Dequantized, Products, Corrections;
    if n == 0 {
      CombinedZero(d, dmin);
    } else {
      TwoSumsSuffice(w, y, d, dmin, n - 1);
      TermCombined(w, y, d, dmin, n - 1, Sum(Products(w, y), n - 1), Sum(Corrections(w, y), n - 1));
    }
  }

  lemma CombinedZero(d: real, dmin: real)
    ensures Combined(d, dmin, 0, 0) == 0.0
  {}

  lemma TermCombined(w: Q4KBlock, y: Q8KBlock, d: real, dmin: real, e: nat, p: int, c: int)
    requires Sized(w) && InputSized(y) && e < 256
    ensures Combined(d, dmin, p, c) + Dequantized(w, d, dmin, e) * (y.qs[e] as real)
         == Combined(d, dmin, p + Products(w, y)[e], c + Corrections(w, y)[e])
  {
    hide ScaleOf, MinOf, Weight;
    RealStep(d, dmin, ScaleOf(w, e / 32), Weight(w, e), MinOf(w, e / 32), y.qs[e], p, c);
  }

  lemma RealStep(d: real, dmin: real, s: int, q: int, m: int, y: int, p: int, c: int)
    ensures d * (p as real) - dmin * (c as real) + (d * (s as real) * (q as real) - dmin * (m as real)) * (y as real)
         == d * ((p + s * (q * y)) as real) - dmin * ((c + m * y) as real)
  {
    assert (p + s * (q * y)) as real == (p as real) + (s as real) * ((q as real) * (y as real));
    assert (c + m * y) as real == (c as real) + (m as real) * (y as real);
  }
}
