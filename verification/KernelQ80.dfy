/** The integer part of the Q8_0 tile: signed by signed bytes, through the
    weights' absolute values and the activations with the weights' signs. */
module KernelQ80 {
  import opened Simd
  import opened LaneSums

  datatype Q80Block = Q80Block(qs: seq<i8>)

  predicate Sized(b: Q80Block) { |b.qs| == 32 }

  function Multiply(a: int, b: int): int { a * b }

  /** The exact products. */
  function Products(w: Q80Block, y: Q80Block): (x: seq<int>)
    requires Sized(w) && Sized(y)
    ensures |x| == 32
  {
    seq(32, i requires 0 <= i < 32 => Multiply(w.qs[i], y.qs[i]))
  }

  /** The one pair the sign trick gets wrong: minus 128 has no opposite in a
      byte. */
  predicate Unnegatable(weight: i8, activation: i8) { activation == -128 && weight < 0 }

  /** The products the sign trick forms. */
  function SignedProducts(w: Q80Block, y: Q80Block): (x: seq<int>)
    requires Sized(w) && Sized(y)
    ensures |x| == 32
  {
    seq(32, i requires 0 <= i < 32 => Multiply(Unsigned(Sign8(w.qs[i], w.qs[i])), Sign8(y.qs[i], w.qs[i])))
  }

  lemma SignedProduct(weight: i8, activation: i8)
    ensures Multiply(Unsigned(Sign8(weight, weight)), Sign8(activation, weight))
         == Multiply(weight, activation) + if Unnegatable(weight, activation) then 256 * (weight as int) else 0
    ensures 0 <= Unsigned(Sign8(weight, weight)) <= 128 && -128 <= Sign8(activation, weight) < 128
  {
    var x: int, y: int := weight, activation;
    if x < 0 { Opposites(-x, y); }
  }

  lemma Opposites(x: int, y: int)
    ensures x * -y == -x * y && x * -128 == -128 * x
  {}

  lemma ProductAtMost(a: int, b: int)
    requires 0 <= a <= 128 && -128 <= b < 128
    ensures -16384 <= a * b <= 16256
  {
    if b >= 0 { NaturalWithin(a, b, 128, 127); } else { NaturalWithin(a, b, 128, 128); NotPositive(a, b); }
  }

  lemma NotPositive(a: int, b: int)
    requires 0 <= a && b <= 0
    ensures a * b <= 0
  {}

  lemma PairFits(a: int, b: int, c: int, d: int)
    requires 0 <= a <= 128 && 0 <= c <= 128 && -128 <= b < 128 && -128 <= d < 128
    ensures -32768 <= a * b + c * d <= 32512
  {
    ProductAtMost(a, b);
    ProductAtMost(c, d);
  }

  /** One block against every input row. Nothing ever saturates. */
  method BlockDots(w: Q80Block, inputs: seq<Q80Block>) returns (dots: seq<seq<int>>)
    requires Sized(w) && forall l :: 0 <= l < |inputs| ==> Sized(inputs[l])
    ensures |dots| == |inputs|
    ensures forall l :: 0 <= l < |inputs| ==> dots[l] == Quads(SignedProducts(w, inputs[l]), 0)
  {
    hide Madd, MaddUbs, Sign, UnsignedLanes, Quads, SignedProducts;
    var ones := Splat(1, 16);
    var ax := UnsignedLanes(Sign(w.qs, w.qs));
    dots := [];
    for lane := 0 to |inputs|
      invariant |dots| == lane
      invariant forall l :: 0 <= l < lane ==> dots[l] == Quads(SignedProducts(w, inputs[l]), 0)
    {
      var sy := Sign(inputs[lane].qs, w.qs);
      DotIs(w, inputs[lane]);
      dots := dots + [Madd(ones, MaddUbs(ax, sy))];
    }
  }

  lemma DotIs(w: Q80Block, y: Q80Block)
    requires Sized(w) && Sized(y)
    ensures Madd(Splat(1, 16), MaddUbs(UnsignedLanes(Sign(w.qs, w.qs)), Sign(y.qs, w.qs))) == Quads(SignedProducts(w, y), 0)
  {
    hide Madd, Unsigned, Sign8, Quad, PairDot;
    var a, b := UnsignedLanes(Sign(w.qs, w.qs)), Sign(y.qs, w.qs);
    var x, p := SignedProducts(w, y), MaddUbs(a, b);
    forall i | 0 <= i < 32 ensures a[i] * b[i] == x[i] && 0 <= a[i] <= 128 && -128 <= b[i] < 128 {
      SignedProduct(w.qs[i], y.qs[i]);
    }
    var r := Madd(Splat(1, 16), p);
    forall k | 0 <= k < 8 ensures r[k] == Quad(x, 0, k) {
      PairIs(a, b, 2 * k);
      PairIs(a, b, 2 * k + 1);
      MaddLane(Splat(1, 16), p, k);
      QuadIs(1, a, b, x, 0, k);
    }
  }

  lemma PairIs(a: seq<int>, b: seq<int>, k: nat)
    requires |a| == 32 && |b| == 32 && k < 16
    requires forall i :: 0 <= i < 32 ==> 0 <= a[i] <= 128 && -128 <= b[i] < 128
    ensures MaddUbs(a, b)[k] == PairDot(a, b, k) && -32768 <= PairDot(a, b, k) <= 32512
  {
    PairFits(a[2 * k], b[2 * k], a[2 * k + 1], b[2 * k + 1]);
  }

  /** The sign trick's products never come out too high, so errors cannot
      cancel. */
  lemma {:induction false} NeverHigher(w: Q80Block, y: Q80Block, n: nat)
    requires Sized(w) && Sized(y) && n <= 32
    ensures Sum(SignedProducts(w, y), n) <= Sum(Products(w, y), n)
    ensures Sum(SignedProducts(w, y), n) == Sum(Products(w, y), n)
       <==> forall i :: 0 <= i < n ==> !Unnegatable(w.qs[i], y.qs[i])
  {
    hide Unsigned, Sign8;
    if n > 0 {
      NeverHigher(w, y, n - 1);
      SignedProduct(w.qs[n - 1], y.qs[n - 1]);
    }
  }

  /** The block's lanes add up to its exact dot product if and only if no
      activation is minus 128 under a negative weight. */
  lemma ExactIff(w: Q80Block, y: Q80Block)
    requires Sized(w) && Sized(y)
    ensures Sum(Quads(SignedProducts(w, y), 0), 8) == Sum(Products(w, y), 32)
       <==> forall i :: 0 <= i < 32 ==> !Unnegatable(w.qs[i], y.qs[i])
  {
    NeverHigher(w, y, 32);
    NextSum(SignedProducts(w, y), 0);
    SumOfGroup(SignedProducts(w, y), 0);
  }

  /** What the quantizer stores, from minus 127 to 127, is always exact, lane by
      lane. */
  lemma QuantizedExact(w: Q80Block, y: Q80Block)
    requires Sized(w) && Sized(y) && forall i :: 0 <= i < 32 ==> y.qs[i] != -128
    ensures SignedProducts(w, y) == Products(w, y)
  {
    forall i | 0 <= i < 32 ensures SignedProducts(w, y)[i] == Products(w, y)[i] {
      SignedProduct(w.qs[i], y.qs[i]);
    }
  }

  /** The smallest failure: one weight of minus one, one activation of minus
      128. */
  lemma MinusOneTwentyEightFails()
    ensures var w, y := Q80Block(Splat(0, 32)[0 := -1]), Q80Block(Splat(0, 32)[0 := -128]);
      Sized(w) && Sized(y) && Sum(Quads(SignedProducts(w, y), 0), 8) != Sum(Products(w, y), 32)
  {
    var w, y := Q80Block(Splat(0, 32)[0 := -1]), Q80Block(Splat(0, 32)[0 := -128]);
    ExactIff(w, y);
    assert Unnegatable(w.qs[0], y.qs[0]);
  }
}
