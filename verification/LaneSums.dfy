/** Eight lanes accumulating groups of thirty-two products, four adjacent
    products to a lane. */
module LaneSums {
  import opened Simd

  const LANES := 8
  const GROUP := 32

  /** Activations as the quantizer leaves them: bytes, and the sums of each
      sixteen. */
  datatype Q8KBlock = Q8KBlock(qs: seq<i8>, bsums: seq<int>)

  predicate InputSized(y: Q8KBlock) { |y.qs| == 256 && |y.bsums| == 16 }

  /** The activations of one group. */
  function Activations(y: Q8KBlock, g: nat): (r: seq<i8>)
    requires InputSized(y) && g < 8
    ensures |r| == GROUP
  {
    y.qs[GROUP * g..GROUP * g + GROUP]
  }

  /** The plain sum the lanes must add up to. */
  function Sum(x: seq<int>, n: nat): int
    requires n <= |x|
  {
    if n == 0 then 0 else Sum(x, n - 1) + x[n - 1]
  }

  predicate Groups(x: seq<int>, groups: nat) { |x| == GROUP * groups }

  /** Lane `k`'s share of group `g`. */
  function Quad(x: seq<int>, g: nat, k: nat): int
    requires k < LANES && GROUP * g + GROUP <= |x|
  {
    var at := GROUP * g + 4 * k;
    x[at] + x[at + 1] + (x[at + 2] + x[at + 3])
  }

  function Quads(x: seq<int>, g: nat): (r: seq<int>)
    requires GROUP * g + GROUP <= |x|
    ensures |r| == LANES
  {
    seq(LANES, k requires 0 <= k < LANES => Quad(x, g, k))
  }

  /** Lane `k` after the first `g` groups. */
  function Lane(x: seq<int>, k: nat, g: nat): int
    requires k < LANES && GROUP * g <= |x|
  {
    if g == 0 then 0 else Lane(x, k, g - 1) + Quad(x, g - 1, k)
  }

  function Lanes(x: seq<int>, g: nat): (r: seq<int>)
    requires GROUP * g <= |x|
    ensures |r| == LANES
  {
    seq(LANES, k requires 0 <= k < LANES => Lane(x, k, g))
  }

  lemma {:induction false} SumOfFour(x: seq<int>, at: nat)
    requires at + 4 <= |x|
    ensures Sum(x, at + 4) == Sum(x, at) + (x[at] + x[at + 1] + (x[at + 2] + x[at + 3]))
  {
    assert Sum(x, at + 4) == Sum(x, at + 3) + x[at + 3];
    assert Sum(x, at + 3) == Sum(x, at + 2) + x[at + 2];
    assert Sum(x, at + 2) == Sum(x, at + 1) + x[at + 1];
    assert Sum(x, at + 1) == Sum(x, at) + x[at];
  }

  lemma SumOfGroup(x: seq<int>, g: nat)
    requires GROUP * g + GROUP <= |x|
    ensures Sum(x, GROUP * g + GROUP) == Sum(x, GROUP * g) + Sum(Quads(x, g), LANES)
  {
    hide Sum;
    NextSum(Quads(x, g), 0);
    for k := 0 to LANES
      invariant Sum(x, GROUP * g + 4 * k) == Sum(x, GROUP * g) + Sum(Quads(x, g), k)
    {
      SumOfFour(x, GROUP * g + 4 * k);
      NextSum(Quads(x, g), k);
    }
  }

  lemma NextSum(x: seq<int>, n: nat)
    requires n < |x|
    ensures Sum(x, n + 1) == Sum(x, n) + x[n] && Sum(x, 0) == 0
  {}

  lemma {:induction false} SumsAdd(a: seq<int>, b: seq<int>, c: seq<int>, n: nat)
    requires n <= |a| == |b| == |c| && forall k :: 0 <= k < n ==> c[k] == a[k] + b[k]
    ensures Sum(c, n) == Sum(a, n) + Sum(b, n)
  {
    if n > 0 { SumsAdd(a, b, c, n - 1); }
  }

  /** Whatever lane a product landed in, the lanes together hold them all. */
  lemma {:induction false} LanesTotal(x: seq<int>, g: nat)
    requires GROUP * g <= |x|
    ensures Sum(Lanes(x, g), LANES) == Sum(x, GROUP * g)
  {
    if g == 0 {
      SumsAdd(Lanes(x, 0), Lanes(x, 0), Lanes(x, 0), LANES);
    } else {
      LanesTotal(x, g - 1);
      SumsAdd(Lanes(x, g - 1), Quads(x, g - 1), Lanes(x, g), LANES);
      SumOfGroup(x, g - 1);
    }
  }

  // ----- no wrap-around -----

  lemma ProductWithin(a: int, b: int, limit: int, bound: int)
    requires -limit <= a <= limit && -bound <= b <= bound
    ensures -(limit * bound) <= a * b <= limit * bound
  {
    if a >= 0 { NaturalWithin(a, b, limit, bound); } else { NaturalWithin(-a, b, limit, bound); }
  }

  lemma NaturalWithin(a: int, b: int, limit: int, bound: int)
    requires 0 <= a <= limit && -bound <= b <= bound
    ensures -(limit * bound) <= a * b <= limit * bound
  {
    assert a * b <= a * bound <= limit * bound;
    assert a * -bound <= a * b && limit * -bound <= a * -bound;
  }

  /** A `madd` of byte-sized scales and sums of two byte products is exact. */
  lemma MaddLane(s: seq<int>, p: seq<int>, k: nat)
    requires |s| == 16 && |p| == 16 && k < LANES
    requires forall t :: 2 * k <= t < 2 * k + 2 ==> -128 <= s[t] <= 128 && -32768 <= p[t] <= 32768
    ensures Madd(s, p)[k] == s[2 * k] * p[2 * k] + s[2 * k + 1] * p[2 * k + 1]
  {
    ProductWithin(s[2 * k], p[2 * k], 128, 32768);
    ProductWithin(s[2 * k + 1], p[2 * k + 1], 128, 32768);
  }

  /** Scaling two sums of two, or the four products themselves. */
  lemma QuadIs(scale: int, q: seq<int>, y: seq<int>, x: seq<int>, g: nat, k: nat)
    requires |q| == GROUP && |y| == GROUP && GROUP * g + GROUP <= |x| && k < LANES
    requires forall i :: 4 * k <= i < 4 * k + 4 ==> x[GROUP * g + i] == scale * (q[i] * y[i])
    ensures Quad(x, g, k) == scale * PairDot(q, y, 2 * k) + scale * PairDot(q, y, 2 * k + 1)
  {
    var at := 4 * k;
    Distribute(scale, q[at] * y[at], q[at + 1] * y[at + 1], q[at + 2] * y[at + 2], q[at + 3] * y[at + 3]);
  }

  lemma Distribute(s: int, a: int, b: int, c: int, d: int)
    ensures s * (a + b) + s * (c + d) == s * a + s * b + (s * c + s * d)
  {}

  predicate Within(x: seq<int>, bound: int) { forall k :: 0 <= k < |x| ==> -bound <= x[k] <= bound }

  lemma QuadWithin(x: seq<int>, g: nat, k: nat, bound: int)
    requires k < LANES && GROUP * g + GROUP <= |x| && Within(x, bound)
    ensures -(4 * bound) <= Quad(x, g, k) <= 4 * bound
  {}

  lemma {:induction false} LaneWithin(x: seq<int>, k: nat, g: nat, bound: int)
    requires k < LANES && GROUP * g <= |x| && Within(x, bound)
    ensures -(4 * bound * g) <= Lane(x, k, g) <= 4 * bound * g
  {
    if g > 0 {
      QuadWithin(x, g - 1, k, bound);
      LaneWithin(x, k, g - 1, bound);
      assert 4 * bound * g == 4 * bound * (g - 1) + 4 * bound;
    }
  }

  /** Bounds under which eight groups stay inside an `i32`. */
  predicate Narrow(x: seq<int>, bound: int) { Groups(x, 8) && Within(x, bound) && 0 <= bound <= 524288 }

  lemma NarrowLane(x: seq<int>, k: nat, g: nat, bound: int)
    requires k < LANES && g <= 8 && Narrow(x, bound)
    ensures -(32 * bound) <= Lane(x, k, g) <= 32 * bound
    ensures g < 8 ==> -(4 * bound) <= Quad(x, g, k) <= 4 * bound
  {
    hide Quad;
    LaneWithin(x, k, g, bound);
    if g < 8 { QuadWithin(x, g, k, bound); }
    assert 4 * bound * g <= 32 * bound by { if g < 8 { assert 4 * bound * g + 4 * bound * (8 - g) == 32 * bound; } }
  }

  /** Adding two groups at once. */
  lemma TwoGroups(x: seq<int>, g: nat, bound: int)
    requires g + 2 <= 8 && Narrow(x, bound)
    ensures Add32(Lanes(x, g), Add32(Quads(x, g), Quads(x, g + 1))) == Lanes(x, g + 2)
  {
    hide Quad, Within;
    var r := Add32(Lanes(x, g), Add32(Quads(x, g), Quads(x, g + 1)));
    forall k | 0 <= k < LANES ensures r[k] == Lane(x, k, g + 2) {
      NarrowLane(x, k, g, bound);
      NarrowLane(x, k, g + 1, bound);
    }
  }

  /** Adding four groups at once. */
  lemma FourGroups(x: seq<int>, g: nat, bound: int)
    requires g + 4 <= 8 && Narrow(x, bound)
    ensures Add32(Lanes(x, g), Add32(Add32(Quads(x, g), Quads(x, g + 1)), Add32(Quads(x, g + 2), Quads(x, g + 3)))) == Lanes(x, g + 4)
  {
    hide Quad, Within, Wrap32, Lane;
    var r := Add32(Lanes(x, g), Add32(Add32(Quads(x, g), Quads(x, g + 1)), Add32(Quads(x, g + 2), Quads(x, g + 3))));
    forall k | 0 <= k < LANES ensures r[k] == Lane(x, k, g + 4) {
      NarrowLane(x, k, g, bound);
      NarrowLane(x, k, g + 1, bound);
      NarrowLane(x, k, g + 2, bound);
      NarrowLane(x, k, g + 3, bound);
      LaneSteps(x, k, g);
      NoWrap(Lane(x, k, g), Quad(x, g, k), Quad(x, g + 1, k), Quad(x, g + 2, k), Quad(x, g + 3, k));
    }
  }

  lemma NoWrap(lane: int, a: int, b: int, c: int, d: int)
    requires -16777216 <= lane <= 16777216 && -2097152 <= a <= 2097152 && -2097152 <= b <= 2097152
    requires -2097152 <= c <= 2097152 && -2097152 <= d <= 2097152
    ensures Wrap32(lane + Wrap32(Wrap32(a + b) + Wrap32(c + d))) == lane + a + b + c + d
  {}

  lemma LaneSteps(x: seq<int>, k: nat, g: nat)
    requires k < LANES && GROUP * (g + 4) <= |x|
    ensures Lane(x, k, g + 4) == Lane(x, k, g) + Quad(x, g, k) + Quad(x, g + 1, k) + Quad(x, g + 2, k) + Quad(x, g + 3, k)
  {
    hide Quad;
    assert Lane(x, k, g + 4) == Lane(x, k, g + 3) + Quad(x, g + 3, k);
    assert Lane(x, k, g + 3) == Lane(x, k, g + 2) + Quad(x, g + 2, k);
    assert Lane(x, k, g + 2) == Lane(x, k, g + 1) + Quad(x, g + 1, k);
  }
}
