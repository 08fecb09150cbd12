/** The key-value cache scan: one work item per query head, and the blocked
    form that reads each cache row once per group of heads. Floating-point
    operations are uninterpreted, so only the order of the operations can make
    the two forms agree. */
module Attention {
  import opened Indexing
  import opened Buffers

  const DOT_LANES: pos := 8
  const MAX_GROUP: pos := 32
  const SCORE_BUDGET: nat := 0x10_0000
  const MIN_PAST_BLOCK: pos := 128
  const MIN_COLUMN_BLOCK: pos := 16
  const KV_BLOCKING_BYTES: nat := 0x100_0000

  /** A pass of `rows` tokens over `existing` cached positions, with its
      per-token per-head queries and gates and the cache including the pass. */
  datatype Pass = Pass(rows: nat, existing: nat, kvHeads: pos, groups: pos, headDim: pos, scale: F32,
                       queries: seq<seq<seq<F32>>>, gates: seq<seq<seq<F32>>>, keys: seq<F32>, values: seq<F32>)

  function QueryHeads(p: Pass): pos { Product(p.kvHeads, p.groups) }

  function Product(a: pos, b: pos): (r: pos)
    ensures r == a * b
  {
    ProductGrows(1, a, b);
    a * b
  }

  function Depth(p: Pass): nat { p.existing + p.rows }

  ghost predicate Heads(p: Pass, rows: seq<seq<seq<F32>>>) {
    && |rows| == p.rows
    && forall t :: 0 <= t < p.rows ==> |rows[t]| == QueryHeads(p) && forall h :: 0 <= h < |rows[t]| ==> |rows[t][h]| == p.headDim
  }

  ghost predicate WellFormed(p: Pass) {
    && Heads(p, p.queries) && Heads(p, p.gates)
    && |p.keys| == |p.values| == Depth(p) * p.kvHeads * p.headDim
  }

  // ----- what attention computes -----

  /** Lane `lane` after the first `n` whole chunks. */
  function LaneSum(f: Ops, query: seq<F32>, key: seq<F32>, lane: nat, n: nat): F32
    requires lane < DOT_LANES && n * DOT_LANES <= |query| == |key|
  {
    if n == 0 then f.zero
    else
      var i := (n - 1) * DOT_LANES + lane;
      f.add(LaneSum(f, query, key, lane, n - 1), f.mul(query[i], key[i]))
  }

  function TailSum(f: Ops, query: seq<F32>, key: seq<F32>, from: nat, n: nat): F32
    requires from <= n <= |query| == |key|
    decreases n
  {
    if n == from then f.emptySum else f.add(TailSum(f, query, key, from, n - 1), f.mul(query[n - 1], key[n - 1]))
  }

  function LanesAdded(f: Ops, query: seq<F32>, key: seq<F32>, lanes: nat): F32
    requires lanes <= DOT_LANES && |query| == |key|
  {
    var chunks := |query| / DOT_LANES;
    if lanes == 0 then TailSum(f, query, key, chunks * DOT_LANES, |query|)
    else f.add(LanesAdded(f, query, key, lanes - 1), LaneSum(f, query, key, lanes - 1, chunks))
  }

  /** The lane sums, added to the remainder's sum in lane order. */
  function DotOf(f: Ops, query: seq<F32>, key: seq<F32>): F32
    requires |query| == |key|
  {
    LanesAdded(f, query, key, DOT_LANES)
  }

  method Dot(f: Ops, query: seq<F32>, key: seq<F32>) returns (total: F32)
    requires |query| == |key|
    ensures total == DotOf(f, query, key)
  {
    var lanes := seq(DOT_LANES, _ => f.zero);
    var chunks := |query| / DOT_LANES;
    for n := 0 to chunks
      invariant |lanes| == DOT_LANES
      invariant forall l :: 0 <= l < DOT_LANES ==> lanes[l] == LaneSum(f, query, key, l, n)
    {
      for l := 0 to DOT_LANES
        invariant |lanes| == DOT_LANES
        invariant forall x :: 0 <= x < DOT_LANES ==> lanes[x] == LaneSum(f, query, key, x, if x < l then n + 1 else n)
      {
        var i := n * DOT_LANES + l;
        lanes := lanes[l := f.add(lanes[l], f.mul(query[i], key[i]))];
      }
    }
    total := f.emptySum;
    for i := chunks * DOT_LANES to |query|
      invariant total == TailSum(f, query, key, chunks * DOT_LANES, i)
    {
      total := f.add(total, f.mul(query[i], key[i]));
    }
    for l := 0 to DOT_LANES
      invariant total == LanesAdded(f, query, key, l)
    {
      total := f.add(total, lanes[l]);
    }
  }

  function Base(p: Pass, past: nat, kvHead: nat): nat { At(At(past, p.kvHeads, kvHead), p.headDim, 0) }

  lemma RowFits(p: Pass, past: nat, kvHead: nat)
    requires past < Depth(p) && kvHead < p.kvHeads
    ensures Base(p, past, kvHead) + p.headDim <= Depth(p) * p.kvHeads * p.headDim
  {
    AtFits(past, Depth(p), p.kvHeads, kvHead);
    AtFits(At(past, p.kvHeads, kvHead), Depth(p) * p.kvHeads, p.headDim, 0);
  }

  function KeyRow(p: Pass, past: nat, kvHead: nat): (row: seq<F32>)
    requires WellFormed(p) && past < Depth(p) && kvHead < p.kvHeads
    ensures |row| == p.headDim
  {
    RowFits(p, past, kvHead);
    p.keys[Base(p, past, kvHead)..Base(p, past, kvHead) + p.headDim]
  }

  function ValueRow(p: Pass, past: nat, kvHead: nat): (row: seq<F32>)
    requires WellFormed(p) && past < Depth(p) && kvHead < p.kvHeads
    ensures |row| == p.headDim
  {
    RowFits(p, past, kvHead);
    p.values[Base(p, past, kvHead)..Base(p, past, kvHead) + p.headDim]
  }

  function HeadOf(p: Pass, kvHead: nat, lane: nat): (head: nat)
    requires kvHead < p.kvHeads && lane < p.groups
    ensures head < QueryHeads(p)
  {
    AtFits(kvHead, p.kvHeads, p.groups, lane);
    At(kvHead, p.groups, lane)
  }

  function Score(f: Ops, p: Pass, token: nat, kvHead: nat, lane: nat, past: nat): F32
    requires WellFormed(p) && token < p.rows && kvHead < p.kvHeads && lane < p.groups && past <= p.existing + token
  {
    f.mul(DotOf(f, p.queries[token][HeadOf(p, kvHead, lane)], KeyRow(p, past, kvHead)), p.scale)
  }

  /** One query head's scores over the positions it may attend to. */
  function Scores(f: Ops, p: Pass, token: nat, kvHead: nat, lane: nat): (s: seq<F32>)
    requires WellFormed(p) && token < p.rows && kvHead < p.kvHeads && lane < p.groups
    ensures |s| == p.existing + token + 1
  {
    seq(p.existing + token + 1, past requires 0 <= past <= p.existing + token => Score(f, p, token, kvHead, lane, past))
  }

  function MaxOf(f: Ops, s: seq<F32>, n: nat): F32
    requires n <= |s|
  {
    if n == 0 then f.negInf else f.max(MaxOf(f, s, n - 1), s[n - 1])
  }

  function Weight(f: Ops, s: seq<F32>, i: nat): F32
    requires i < |s|
  {
    f.exp(f.sub(s[i], MaxOf(f, s, |s|)))
  }

  function Denominator(f: Ops, s: seq<F32>, n: nat): F32
    requires n <= |s|
  {
    if n == 0 then f.zero else f.add(Denominator(f, s, n - 1), Weight(f, s, n - 1))
  }

  function Weights(f: Ops, s: seq<F32>): (w: seq<F32>)
    ensures |w| == |s|
  {
    seq(|s|, i requires 0 <= i < |s| => Weight(f, s, i))
  }

  function Softmax(f: Ops, s: seq<F32>): (w: seq<F32>)
    ensures |w| == |s|
  {
    seq(|s|, i requires 0 <= i < |s| => f.div(Weight(f, s, i), Denominator(f, s, |s|)))
  }

  /** The first `n` positions' values in one column, weighted and added in order. */
  function WeightedSum(f: Ops, p: Pass, w: seq<F32>, kvHead: nat, column: nat, n: nat): F32
    requires WellFormed(p) && n <= |w| <= Depth(p) && kvHead < p.kvHeads && column < p.headDim
  {
    if n == 0 then f.zero
    else f.add(WeightedSum(f, p, w, kvHead, column, n - 1), f.mul(w[n - 1], ValueRow(p, n - 1, kvHead)[column]))
  }

  /** One element of the attention output. */
  function Attended(f: Ops, p: Pass, token: nat, kvHead: nat, lane: nat, column: nat): F32
    requires WellFormed(p) && token < p.rows && kvHead < p.kvHeads && lane < p.groups && column < p.headDim
  {
    var w := Softmax(f, Scores(f, p, token, kvHead, lane));
    f.mul(WeightedSum(f, p, w, kvHead, column, |w|), Sigmoid(f, p.gates[token][HeadOf(p, kvHead, lane)][column]))
  }

  // ----- the phases of the blocked scan, one plane at a time -----

  /** How wide a block of `total` should be, never finer than `grain`. */
  function Split(total: nat, planes: nat, threads: nat, grain: pos): (width: pos)
    ensures grain <= width <= if total < grain then grain else total
  {
    var per := if planes == 0 then 1 else planes;
    var parts := (2 * threads + per - 1) / per;
    var parts' := if parts == 0 then 1 else parts;
    var even := (total + parts' - 1) / parts';
    var rounded := (even + grain - 1) / grain * grain;
    var most: nat := if total < grain then grain else total;
    if rounded < grain then grain else if rounded > most then most else rounded
  }

  lemma CeilIs(a: nat, b: pos)
    ensures var c := (a + b - 1) / b;
      c * b >= a && (c > 0 ==> (c - 1) * b < a)
  {
    var x := a + b - 1;
    var c := x / b;
    assert x == c * b + x % b;
    if c > 0 { assert (c - 1) * b == c * b - b; }
  }

  /** With `parts` the fewest blocks a plane needs to keep every thread busy
      twice over, the width is the least multiple of the grain, or the whole, at
      which that many blocks cover everything. */
  lemma SplitIsLeast(total: nat, planes: pos, threads: nat, grain: pos, parts: pos)
    requires planes * parts >= 2 * threads && (parts == 1 || planes * (parts - 1) < 2 * threads)
    ensures var width := Split(total, planes, threads, grain);
      && width * parts >= total && (width == grain || (width - grain) * parts < total)
      && (width % grain == 0 || width == total)
  {
    hide Split;
    var even := (total + parts - 1) / parts;
    var c := (even + grain - 1) / grain;
    SplitClamps(total, planes, threads, grain, parts);
    CeilIs(total, parts);
    RoundedIs(even, grain);
    WidthIs(total, parts, grain, even, c * grain);
    GrainDivides(c, grain);
    GrainDivides(1, grain);
  }

  lemma GrainDivides(c: nat, grain: pos)
    ensures c * grain % grain == 0
  {
    AtInverse(c, grain, 0);
  }

  lemma SplitClamps(total: nat, planes: pos, threads: nat, grain: pos, parts: pos)
    requires planes * parts >= 2 * threads && (parts == 1 || planes * (parts - 1) < 2 * threads)
    ensures
      var rounded := ((total + parts - 1) / parts + grain - 1) / grain * grain;
      var most: nat := if total < grain then grain else total;
      Split(total, planes, threads, grain) == if rounded < grain then grain else if rounded > most then most else rounded
  {
    PartsAre(planes, threads, parts);
  }

  lemma WidthIs(total: nat, parts: pos, grain: pos, even: nat, rounded: nat)
    requires even * parts >= total && (even > 0 ==> (even - 1) * parts < total)
    requires rounded >= even && (if even == 0 then rounded == 0 else grain <= rounded < even + grain)
    ensures
      var most: nat := if total < grain then grain else total;
      var width := if rounded < grain then grain else if rounded > most then most else rounded;
      width * parts >= total && (width == grain || (width - grain) * parts < total)
  {
    if even == 0 {
      ProductGrows(0, grain, parts);
    } else {
      ProductGrows(even, rounded, parts);
      ProductGrows(rounded - grain, even - 1, parts);
      var most: nat := if total < grain then grain else total;
      if rounded > most {
        WholeCovers(most, parts);
        ProductGrows(most - grain, even - 1, parts);
      }
    }
  }

  lemma WholeCovers(a: nat, b: pos)
    ensures a * b >= a
  {
    ProductGrows(1, b, a);
    assert b * a == a * b;
  }

  lemma RoundedIs(even: nat, grain: pos)
    ensures var rounded := (even + grain - 1) / grain * grain;
      rounded >= even && (even > 0 ==> grain <= rounded < even + grain) && (even == 0 ==> rounded == 0)
  {
    CeilIs(even, grain);
    var c := (even + grain - 1) / grain;
    if c > 0 {
      assert (c - 1) * grain == c * grain - grain;
      ProductGrows(1, c, grain);
    }
  }

  lemma PartsAre(planes: pos, threads: nat, parts: pos)
    requires planes * parts >= 2 * threads && (parts == 1 || planes * (parts - 1) < 2 * threads)
    ensures var c := (2 * threads + planes - 1) / planes;
      (if c == 0 then 1 else c) == parts
  {
    var c := (2 * threads + planes - 1) / planes;
    CeilIs(2 * threads, planes);
    Commutes(planes, parts);
    Commutes(planes, parts - 1);
    FewestIs(2 * threads, planes, c, parts);
  }

  lemma Commutes(a: nat, b: nat)
    ensures a * b == b * a
  {}

  /** Both count the fewest runs of `size` that hold `total`, at least one. */
  lemma FewestIs(total: nat, size: pos, c: nat, parts: pos)
    requires c * size >= total && (c > 0 ==> (c - 1) * size < total)
    requires parts * size >= total && (parts == 1 || (parts - 1) * size < total)
    ensures (if c == 0 then 1 else c) == parts
  {
    if c < parts - 1 { ProductGrows(c, parts - 1, size); }
    if c > parts { ProductGrows(parts, c - 1, size); }
  }

  function ScoreGrid(f: Ops, p: Pass, token: nat, kvHead: nat): (g: seq<seq<F32>>)
    requires WellFormed(p) && token < p.rows && kvHead < p.kvHeads
    ensures |g| == p.groups && forall l :: 0 <= l < |g| ==> |g[l]| == p.existing + token + 1
  {
    seq(p.groups, l requires 0 <= l < p.groups => Scores(f, p, token, kvHead, l))
  }

  function SoftmaxGrid(f: Ops, scores: seq<seq<F32>>): (g: seq<seq<F32>>)
    ensures |g| == |scores| && forall l :: 0 <= l < |g| ==> |g[l]| == |scores[l]|
  {
    seq(|scores|, l requires 0 <= l < |scores| => Softmax(f, scores[l]))
  }

  function WeightGrid(f: Ops, scores: seq<seq<F32>>): (g: seq<seq<F32>>)
    ensures |g| == |scores| && forall l :: 0 <= l < |g| ==> |g[l]| == |scores[l]|
  {
    seq(|scores|, l requires 0 <= l < |scores| => Weights(f, scores[l]))
  }

  /** The scores of one key against every query of its group. */
  method ScoreSlot(f: Ops, p: Pass, token: nat, kvHead: nat, past: nat, a: array<F32>, at: nat)
    requires WellFormed(p) && token < p.rows && kvHead < p.kvHeads && past <= p.existing + token
    requires at + p.groups <= a.Length
    modifies a
    ensures OutsideSame(old(a[..]), a[..], at, at + p.groups)
    ensures forall l :: 0 <= l < p.groups ==> a[at + l] == Score(f, p, token, kvHead, l, past)
  {
    var key := KeyRow(p, past, kvHead);
    for l := 0 to p.groups
      invariant OutsideSame(old(a[..]), a[..], at, at + p.groups)
      invariant forall x :: 0 <= x < l ==> a[at + x] == Score(f, p, token, kvHead, x, past)
    {
      var dot := Dot(f, p.queries[token][HeadOf(p, kvHead, l)], key);
      a[at + l] := f.mul(dot, p.scale);
    }
  }

  /** Score one plane, block of positions by block of positions. */
  method ScorePlane(f: Ops, p: Pass, token: nat, kvHead: nat, pastBlock: pos, a: array<F32>, at: nat)
    requires WellFormed(p) && token < p.rows && kvHead < p.kvHeads
    requires at + Size(p.existing + token + 1, p.groups) <= a.Length
    modifies a
    ensures OutsideSame(old(a[..]), a[..], at, at + Size(p.existing + token + 1, p.groups))
    ensures Grid(a[..], at, ScoreGrid(f, p, token, kvHead), 0, p.existing + token + 1)
  {
    hide Grid, WellFormed, Score;
    var attend := p.existing + token + 1;
    var first := 0;
    ghost var want := ScoreGrid(f, p, token, kvHead);
    GridEmpty(a[..], at, want, 0);
    while first < attend
      invariant 0 <= first <= attend
      invariant OutsideSame(old(a[..]), a[..], at, at + attend * p.groups) && Grid(a[..], at, want, 0, first)
    {
      var count := if pastBlock < attend - first then pastBlock else attend - first;
      for offset := 0 to count
        invariant OutsideSame(old(a[..]), a[..], at, at + attend * p.groups) && Grid(a[..], at, want, 0, first + offset)
      {
        var k := first + offset;
        AtFits(k, attend, p.groups, 0);
        ghost var before := a[..];
        ScoreSlot(f, p, token, kvHead, k, a, at + k * p.groups);
        GridGrows(before, a[..], at, want, 0, k);
      }
      first := first + count;
    }
  }

  /** Each lane's maximum, reduced over the positions in order. */
  method PlaneMax(f: Ops, a: array<F32>, at: nat, n: nat, g: pos, ghost scores: seq<seq<F32>>) returns (max: seq<F32>)
    requires |scores| == g <= MAX_GROUP && Even(scores, n) && Grid(a[..], at, scores, 0, n) && at + n * g <= a.Length
    ensures |max| == MAX_GROUP && forall l :: 0 <= l < g ==> max[l] == MaxOf(f, scores[l], n)
  {
    hide Grid;
    max := seq(MAX_GROUP, _ => f.negInf);
    for k := 0 to n
      invariant |max| == MAX_GROUP && forall l :: 0 <= l < g ==> max[l] == MaxOf(f, scores[l], k)
    {
      AtFits(k, n, g, 0);
      GridAt(a[..], at, scores, 0, n, k);
      ghost var row := a[..];
      for l := 0 to g
        invariant |max| == MAX_GROUP
        invariant forall x :: 0 <= x < g ==> max[x] == MaxOf(f, scores[x], if x < l then k + 1 else k)
      {
        assert row[at + k * g + l] == scores[l][k];
        max := max[l := f.max(max[l], a[at + k * g + l])];
      }
    }
  }

  /** Turn one position's scores into weights, adding them to the denominators. */
  method WeighSlot(f: Ops, a: array<F32>, at: nat, g: pos, max: seq<F32>, den: seq<F32>) returns (sums: seq<F32>)
    requires g <= MAX_GROUP == |max| == |den| && at + g <= a.Length
    modifies a
    ensures OutsideSame(old(a[..]), a[..], at, at + g) && |sums| == |den|
    ensures forall l :: 0 <= l < g ==>
      a[at + l] == f.exp(f.sub(old(a[..])[at + l], max[l])) && sums[l] == f.add(den[l], a[at + l])
  {
    sums := den;
    for l := 0 to g
      invariant OutsideSame(old(a[..]), a[..], at, at + l) && |sums| == |den|
      invariant forall x :: 0 <= x < l ==>
        a[at + x] == f.exp(f.sub(old(a[..])[at + x], max[x])) && sums[x] == f.add(den[x], a[at + x])
      invariant forall x :: l <= x < g ==> sums[x] == den[x]
    {
      a[at + l] := f.exp(f.sub(a[at + l], max[l]));
      sums := sums[l := f.add(sums[l], a[at + l])];
    }
  }

  method DivideSlot(f: Ops, a: array<F32>, at: nat, g: pos, den: seq<F32>)
    requires g <= |den| && at + g <= a.Length
    modifies a
    ensures OutsideSame(old(a[..]), a[..], at, at + g)
    ensures forall l :: 0 <= l < g ==> a[at + l] == f.div(old(a[..])[at + l], den[l])
  {
    for l := 0 to g
      invariant OutsideSame(old(a[..]), a[..], at, at + l)
      invariant forall x :: 0 <= x < l ==> a[at + x] == f.div(old(a[..])[at + x], den[x])
    {
      a[at + l] := f.div(a[at + l], den[l]);
    }
  }

  /** Weights in place, with each lane's denominator. */
  method WeighPlane(f: Ops, a: array<F32>, at: nat, n: nat, g: pos, max: seq<F32>, ghost scores: seq<seq<F32>>)
    returns (den: seq<F32>)
    requires |scores| == g <= MAX_GROUP == |max| && Even(scores, n) && Grid(a[..], at, scores, 0, n) && at + n * g <= a.Length
    requires forall l :: 0 <= l < g ==> max[l] == MaxOf(f, scores[l], n)
    modifies a
    ensures OutsideSame(old(a[..]), a[..], at, at + n * g) && |den| == MAX_GROUP
    ensures Grid(a[..], at, WeightGrid(f, scores), 0, n)
    ensures forall l :: 0 <= l < g ==> den[l] == Denominator(f, scores[l], n)
  {
    hide Grid, OutsideSame, Denominator, MaxOf, Weights, Weight;
    ghost var weights := WeightGrid(f, scores);
    NoneWeighed(f, scores);
    GridEmpty(a[..], at, weights, 0);
    OutsideSelf(a[..], at, at + n * g);
    den := seq(MAX_GROUP, _ => f.zero);
    for k := 0 to n
      invariant OutsideSame(old(a[..]), a[..], at, at + n * g) && |den| == MAX_GROUP
      invariant Grid(a[..], at, weights, 0, k) && Grid(a[..], at, scores, k, n)
      invariant forall l :: 0 <= l < g ==> den[l] == Denominator(f, scores[l], k)
    {
      AtFits(k, n, g, 0);
      ghost var before := a[..];
      GridAt(before, at, scores, k, n, k);
      ghost var was := den;
      den := WeighSlot(f, a, at + k * g, g, max, den);
      forall l | 0 <= l < g ensures a[at + k * g + l] == weights[l][k] && den[l] == Denominator(f, scores[l], k + 1) {
        assert before[at + k * g + l] == scores[l][k];
        WeighedNext(f, scores[l], k);
      }
      InPlaceStep(old(a[..]), before, a[..], at, weights, scores, 0, k, n, at, at + n * g);
    }
  }

  lemma NoneWeighed(f: Ops, scores: seq<seq<F32>>)
    ensures forall l :: 0 <= l < |scores| ==> Denominator(f, scores[l], 0) == f.zero
  {}

  lemma WeighedNext(f: Ops, s: seq<F32>, k: nat)
    requires k < |s|
    ensures Denominator(f, s, k + 1) == f.add(Denominator(f, s, k), f.exp(f.sub(s[k], MaxOf(f, s, |s|))))
    ensures Weights(f, s)[k] == f.exp(f.sub(s[k], MaxOf(f, s, |s|)))
  {}

  /** The plane's softmax, in place, ending in probabilities. */
  method SoftmaxPlane(f: Ops, a: array<F32>, at: nat, n: nat, g: pos, ghost scores: seq<seq<F32>>)
    requires |scores| == g <= MAX_GROUP && Even(scores, n) && Grid(a[..], at, scores, 0, n) && at + Size(n, g) <= a.Length
    modifies a
    ensures OutsideSame(old(a[..]), a[..], at, at + Size(n, g))
    ensures Grid(a[..], at, SoftmaxGrid(f, scores), 0, n)
  {
    hide Grid, OutsideSame;
    OutsideSelf(a[..], at, at + n * g);
    var max := PlaneMax(f, a, at, n, g, scores);
    var den := WeighPlane(f, a, at, n, g, max, scores);
    ghost var before := a[..];
    DividePlane(f, a, at, n, g, den, scores);
    OutsideChain(old(a[..]), before, a[..], at, at + Size(n, g));
  }

  /** Divide every weight by its lane's denominator, in place. */
  method DividePlane(f: Ops, a: array<F32>, at: nat, n: nat, g: pos, den: seq<F32>, ghost scores: seq<seq<F32>>)
    requires |scores| == g <= |den| && Even(scores, n) && Grid(a[..], at, WeightGrid(f, scores), 0, n)
    requires at + Size(n, g) <= a.Length && forall l :: 0 <= l < g ==> den[l] == Denominator(f, scores[l], n)
    modifies a
    ensures OutsideSame(old(a[..]), a[..], at, at + Size(n, g)) && Grid(a[..], at, SoftmaxGrid(f, scores), 0, n)
  {
    hide Grid, OutsideSame, Denominator, MaxOf;
    ghost var weights, shares := WeightGrid(f, scores), SoftmaxGrid(f, scores);
    GridEmpty(a[..], at, shares, 0);
    OutsideSelf(a[..], at, at + Size(n, g));
    for k := 0 to n
      invariant OutsideSame(old(a[..]), a[..], at, at + Size(n, g))
      invariant Grid(a[..], at, shares, 0, k) && Grid(a[..], at, weights, k, n)
    {
      AtFits(k, n, g, 0);
      ghost var before := a[..];
      GridAt(before, at, weights, k, n, k);
      DivideSlot(f, a, at + k * g, g, den);
      forall l | 0 <= l < g ensures a[at + k * g + l] == shares[l][k] {
        assert before[at + k * g + l] == weights[l][k];
      }
      InPlaceStep(old(a[..]), before, a[..], at, shares, weights, 0, k, n, at, at + Size(n, g));
    }
  }

  // ----- the weighted sum, accumulated as `[column][lane]` -----

  /** Every lane's and column's sum over the first `n` positions. */
  function SumGrid(f: Ops, p: Pass, kvHead: nat, shares: seq<seq<F32>>, n: nat): (g: seq<seq<F32>>)
    requires WellFormed(p) && kvHead < p.kvHeads && n <= Depth(p)
    requires forall l :: 0 <= l < |shares| ==> n <= |shares[l]| <= Depth(p)
    ensures |g| == |shares| && forall l :: 0 <= l < |g| ==> |g[l]| == p.headDim
  {
    seq(|shares|, l requires 0 <= l < |shares| =>
      seq(p.headDim, c requires 0 <= c < p.headDim => WeightedSum(f, p, shares[l], kvHead, c, n)))
  }

  lemma SumGridNext(f: Ops, p: Pass, kvHead: nat, shares: seq<seq<F32>>, n: nat, l: nat, c: nat)
    requires WellFormed(p) && kvHead < p.kvHeads && n < Depth(p) && l < |shares| && c < p.headDim
    requires forall x :: 0 <= x < |shares| ==> n < |shares[x]| <= Depth(p)
    ensures SumGrid(f, p, kvHead, shares, n + 1)[l][c]
         == f.add(SumGrid(f, p, kvHead, shares, n)[l][c], f.mul(shares[l][n], ValueRow(p, n, kvHead)[c]))
  {}

  method AccumulateSlot(f: Ops, out: array<F32>, at: nat, weights: seq<F32>, value: F32)
    requires at + |weights| <= out.Length
    modifies out
    ensures OutsideSame(old(out[..]), out[..], at, at + |weights|)
    ensures forall l :: 0 <= l < |weights| ==> out[at + l] == f.add(old(out[..])[at + l], f.mul(weights[l], value))
  {
    for l := 0 to |weights|
      invariant OutsideSame(old(out[..]), out[..], at, at + l)
      invariant forall x :: 0 <= x < l ==> out[at + x] == f.add(old(out[..])[at + x], f.mul(weights[x], value))
    {
      out[at + l] := f.add(out[at + l], f.mul(weights[l], value));
    }
  }

  /** One position added into every column of a block. */
  method AccumulatePosition(f: Ops, p: Pass, kvHead: nat, out: array<F32>, at: nat, first: nat, width: nat,
                            weights: seq<F32>, past: nat, ghost shares: seq<seq<F32>>)
    requires WellFormed(p) && kvHead < p.kvHeads && past < Depth(p) && first + width <= p.headDim
    requires |shares| == p.groups == |weights| && at + p.headDim * p.groups <= out.Length
    requires forall l :: 0 <= l < |shares| ==> past < |shares[l]| <= Depth(p) && weights[l] == shares[l][past]
    requires Grid(out[..], at, SumGrid(f, p, kvHead, shares, past), first, first + width)
    modifies out
    ensures OutsideSame(old(out[..]), out[..], at + first * p.groups, at + (first + width) * p.groups)
    ensures Grid(out[..], at, SumGrid(f, p, kvHead, shares, past + 1), first, first + width)
  {
    hide Grid, OutsideSame, WellFormed, SumGrid, ValueRow;
    var g := p.groups;
    var row := ValueRow(p, past, kvHead);
    ghost var was, now := SumGrid(f, p, kvHead, shares, past), SumGrid(f, p, kvHead, shares, past + 1);
    OutsideSelf(out[..], at + first * g, at + (first + width) * g);
    GridEmpty(out[..], at, now, first);
    for k := first to first + width
      invariant OutsideSame(old(out[..]), out[..], at + first * g, at + (first + width) * g)
      invariant Grid(out[..], at, now, first, k) && Grid(out[..], at, was, k, first + width)
    {
      ProductGrows(first, k, g);
      AtFits(k, first + width, g, 0);
      AtFits(k, p.headDim, g, 0);
      ghost var before := out[..];
      GridAt(before, at, was, k, first + width, k);
      AccumulateSlot(f, out, at + k * g, weights, row[k]);
      forall l | 0 <= l < g ensures out[at + k * g + l] == now[l][k] {
        SumGridNext(f, p, kvHead, shares, past, l, k);
        assert before[at + k * g + l] == was[l][k];
      }
      InPlaceStep(old(out[..]), before, out[..], at, now, was, first, k, first + width, at + first * g, at + (first + width) * g);
    }
  }

  /** One column block of one plane's weighted sum, over every attended position. */
  method WeightedSumBlock(f: Ops, p: Pass, kvHead: nat, out: array<F32>, at: nat, first: nat, width: nat,
                          w: array<F32>, wAt: nat, attend: nat, ghost shares: seq<seq<F32>>)
    requires WellFormed(p) && kvHead < p.kvHeads && attend <= Depth(p) && first + width <= p.headDim && out != w
    requires |shares| == p.groups && Even(shares, attend) && Grid(w[..], wAt, shares, 0, attend)
    requires at + p.headDim * p.groups <= out.Length && wAt + attend * p.groups <= w.Length
    requires Grid(out[..], at, SumGrid(f, p, kvHead, shares, 0), first, first + width)
    modifies out
    ensures OutsideSame(old(out[..]), out[..], at + first * p.groups, at + (first + width) * p.groups)
    ensures Grid(out[..], at, SumGrid(f, p, kvHead, shares, attend), first, first + width)
  {
    hide Grid, OutsideSame, WellFormed, SumGrid;
    OutsideSelf(out[..], at + first * p.groups, at + (first + width) * p.groups);
    for past := 0 to attend
      invariant OutsideSame(old(out[..]), out[..], at + first * p.groups, at + (first + width) * p.groups)
      invariant Grid(out[..], at, SumGrid(f, p, kvHead, shares, past), first, first + width)
    {
      AtFits(past, attend, p.groups, 0);
      GridAt(w[..], wAt, shares, 0, attend, past);
      var weights := w[wAt + past * p.groups..wAt + past * p.groups + p.groups];
      ghost var before := out[..];
      AccumulatePosition(f, p, kvHead, out, at, first, width, weights, past, shares);
      OutsideChain(old(out[..]), before, out[..], at + first * p.groups, at + (first + width) * p.groups);
    }
  }

  /** A plane's weighted sums, column block by column block, from zeroed cells. */
  method WeightedPlane(f: Ops, p: Pass, kvHead: nat, columnBlock: pos, out: array<F32>, at: nat,
                       w: array<F32>, wAt: nat, attend: nat, ghost shares: seq<seq<F32>>)
    requires WellFormed(p) && kvHead < p.kvHeads && attend <= Depth(p) && out != w
    requires |shares| == p.groups && Even(shares, attend) && Grid(w[..], wAt, shares, 0, attend)
    requires at + Size(p.headDim, p.groups) <= out.Length && wAt + Size(attend, p.groups) <= w.Length
    requires Grid(out[..], at, SumGrid(f, p, kvHead, shares, 0), 0, p.headDim)
    modifies out
    ensures OutsideSame(old(out[..]), out[..], at, at + Size(p.headDim, p.groups))
    ensures Grid(out[..], at, SumGrid(f, p, kvHead, shares, attend), 0, p.headDim)
  {
    hide Grid, OutsideSame, WellFormed, SumGrid;
    ghost var was, now := SumGrid(f, p, kvHead, shares, 0), SumGrid(f, p, kvHead, shares, attend);
    var first: nat := 0;
    OutsideSelf(out[..], at, at + p.headDim * p.groups);
    GridEmpty(out[..], at, now, 0);
    while first < p.headDim
      invariant 0 <= first <= p.headDim
      invariant OutsideSame(old(out[..]), out[..], at, at + p.headDim * p.groups)
      invariant Grid(out[..], at, now, 0, first) && Grid(out[..], at, was, first, p.headDim)
    {
      var width := if columnBlock < p.headDim - first then columnBlock else p.headDim - first;
      ghost var before := out[..];
      GridPart(before, at, was, first, first + width, p.headDim);
      WeightedSumBlock(f, p, kvHead, out, at, first, width, w, wAt, attend, shares);
      BlockDone(old(out[..]), before, out[..], at, now, was, first, first + width, p.headDim);
      first := first + width;
    }
  }

  lemma GridPart(x: seq<F32>, at: nat, want: seq<seq<F32>>, from: nat, mid: nat, to: nat)
    requires Grid(x, at, want, from, to) && from <= mid <= to
    ensures Grid(x, at, want, from, mid) && Grid(x, at, want, mid, to)
  {}

  lemma BlockDone(first: seq<F32>, x: seq<F32>, y: seq<F32>, at: nat, done: seq<seq<F32>>, rest: seq<seq<F32>>,
                  from: nat, mid: nat, to: nat)
    requires |done| == |rest| && from <= mid <= to && Grid(x, at, done, 0, from) && Grid(x, at, rest, mid, to)
    requires Grid(y, at, done, from, mid) && OutsideSame(first, x, at, at + to * |done|)
    requires OutsideSame(x, y, at + from * |done|, at + mid * |done|)
    ensures Grid(y, at, done, 0, mid) && Grid(y, at, rest, mid, to) && OutsideSame(first, y, at, at + to * |done|)
  {
    ProductGrows(mid, to, |done|);
    GridKept(x, y, at, done, 0, from, at + from * |done|, at + mid * |done|);
    GridKept(x, y, at, rest, mid, to, at + from * |done|, at + mid * |done|);
  }

  // ----- the phases over all the planes of a chunk of rows -----

  /** The token of a plane of the chunk starting at `firstRow`. */
  function Token(p: Pass, firstRow: nat, rows: nat, plane: nat): (token: nat)
    requires plane < Size(rows, p.kvHeads) && firstRow + rows <= p.rows
    ensures firstRow <= token < p.rows
  {
    PlaneInRange(plane, rows, p.kvHeads);
    firstRow + plane / p.kvHeads
  }

  function PlaneScores(f: Ops, p: Pass, firstRow: nat, rows: nat, plane: nat): (g: seq<seq<F32>>)
    requires WellFormed(p) && plane < Size(rows, p.kvHeads) && firstRow + rows <= p.rows
    ensures |g| == p.groups && Even(g, p.existing + Token(p, firstRow, rows, plane) + 1)
  {
    ScoreGrid(f, p, Token(p, firstRow, rows, plane), plane % p.kvHeads)
  }

  function PlaneShares(f: Ops, p: Pass, firstRow: nat, rows: nat, plane: nat): (g: seq<seq<F32>>)
    requires WellFormed(p) && plane < Size(rows, p.kvHeads) && firstRow + rows <= p.rows
    ensures |g| == p.groups && Even(g, p.existing + Token(p, firstRow, rows, plane) + 1)
  {
    SoftmaxGrid(f, PlaneScores(f, p, firstRow, rows, plane))
  }

  /** The plane's sums: none of them yet, or all. */
  function PlaneSums(f: Ops, p: Pass, firstRow: nat, rows: nat, plane: nat, all: bool): (g: seq<seq<F32>>)
    requires WellFormed(p) && plane < Size(rows, p.kvHeads) && firstRow + rows <= p.rows
    ensures |g| == p.groups && Even(g, p.headDim)
  {
    SumGrid(f, p, plane % p.kvHeads, PlaneShares(f, p, firstRow, rows, plane),
            if all then p.existing + Token(p, firstRow, rows, plane) + 1 else 0)
  }

  function ScoresWanted(f: Ops, p: Pass, firstRow: nat, rows: nat): (w: seq<seq<seq<F32>>>)
    requires WellFormed(p) && firstRow + rows <= p.rows
    ensures |w| == Size(rows, p.kvHeads) && forall i :: 0 <= i < |w| ==> w[i] == PlaneScores(f, p, firstRow, rows, i)
  {
    seq(Size(rows, p.kvHeads), i requires 0 <= i < Size(rows, p.kvHeads) => PlaneScores(f, p, firstRow, rows, i))
  }

  function SharesWanted(f: Ops, p: Pass, firstRow: nat, rows: nat): (w: seq<seq<seq<F32>>>)
    requires WellFormed(p) && firstRow + rows <= p.rows
    ensures |w| == Size(rows, p.kvHeads) && forall i :: 0 <= i < |w| ==> w[i] == PlaneShares(f, p, firstRow, rows, i)
  {
    seq(Size(rows, p.kvHeads), i requires 0 <= i < Size(rows, p.kvHeads) => PlaneShares(f, p, firstRow, rows, i))
  }

  function SumsWanted(f: Ops, p: Pass, firstRow: nat, rows: nat, all: bool): (w: seq<seq<seq<F32>>>)
    requires WellFormed(p) && firstRow + rows <= p.rows
    ensures |w| == Size(rows, p.kvHeads) && forall i :: 0 <= i < |w| ==> w[i] == PlaneSums(f, p, firstRow, rows, i, all)
  {
    seq(Size(rows, p.kvHeads), i requires 0 <= i < Size(rows, p.kvHeads) => PlaneSums(f, p, firstRow, rows, i, all))
  }

  method ScorePlanes(f: Ops, p: Pass, firstRow: nat, rows: nat, pastBlock: pos, a: array<F32>)
    requires WellFormed(p) && firstRow + rows <= p.rows && Start(Size(rows, p.kvHeads), Depth(p), p.groups) <= a.Length
    modifies a
    ensures Planes(a[..], Depth(p), p.groups, ScoresWanted(f, p, firstRow, rows), 0, Size(rows, p.kvHeads))
  {
    hide Start, Size, Grid, OutsideSame, WellFormed, Planes, ScoreGrid, PlaneScores;
    var items, g, planes := Depth(p), p.groups, Size(rows, p.kvHeads);
    ghost var wants := ScoresWanted(f, p, firstRow, rows);
    NoPlanes(a[..], items, g, wants, 0);
    for k := 0 to planes
      invariant Planes(a[..], items, g, wants, 0, k)
    {
      PlaneInRange(k, rows, p.kvHeads);
      var token := Token(p, firstRow, rows, k);
      PlaneBounds(k, planes, items, g, p.existing + token + 1);
      ghost var before := a[..];
      ScorePlane(f, p, token, k % p.kvHeads, pastBlock, a, Start(k, items, g));
      ScoresAre(f, p, firstRow, rows, k);
      GridWhole(a[..], Start(k, items, g), wants[k], p.existing + token + 1, items);
      OutsideWiden(before, a[..], Start(k, items, g), Start(k, items, g) + Size(p.existing + token + 1, g), Start(k, items, g) + Size(items, g));
      NoPlanes(before, items, g, [], k);
      PlaneStep(before, a[..], items, g, wants, [], k, planes);
    }
  }

  lemma ScoresAre(f: Ops, p: Pass, firstRow: nat, rows: nat, k: nat)
    requires WellFormed(p) && k < Size(rows, p.kvHeads) && firstRow + rows <= p.rows
    ensures PlaneScores(f, p, firstRow, rows, k) == ScoreGrid(f, p, Token(p, firstRow, rows, k), k % p.kvHeads)
    ensures PlaneShares(f, p, firstRow, rows, k) == SoftmaxGrid(f, PlaneScores(f, p, firstRow, rows, k))
  {}

  method SoftmaxPlanes(f: Ops, p: Pass, firstRow: nat, rows: nat, a: array<F32>)
    requires WellFormed(p) && firstRow + rows <= p.rows && Start(Size(rows, p.kvHeads), Depth(p), p.groups) <= a.Length
    requires p.groups <= MAX_GROUP && Planes(a[..], Depth(p), p.groups, ScoresWanted(f, p, firstRow, rows), 0, Size(rows, p.kvHeads))
    modifies a
    ensures Planes(a[..], Depth(p), p.groups, SharesWanted(f, p, firstRow, rows), 0, Size(rows, p.kvHeads))
  {
    hide Start, Size, Grid, OutsideSame, WellFormed, Planes, ScoreGrid, SoftmaxGrid, PlaneScores, PlaneShares;
    var items, g, planes := Depth(p), p.groups, Size(rows, p.kvHeads);
    ghost var scores, shares := ScoresWanted(f, p, firstRow, rows), SharesWanted(f, p, firstRow, rows);
    NoPlanes(a[..], items, g, shares, 0);
    for k := 0 to planes
      invariant Planes(a[..], items, g, shares, 0, k) && Planes(a[..], items, g, scores, k, planes)
    {
      var n := p.existing + Token(p, firstRow, rows, k) + 1;
      PlaneBounds(k, planes, items, g, n);
      PlaneAt(a[..], items, g, scores, k, planes, k);
      GridWhole(a[..], Start(k, items, g), scores[k], n, items);
      ghost var before := a[..];
      SoftmaxPlane(f, a, Start(k, items, g), n, g, scores[k]);
      ScoresAre(f, p, firstRow, rows, k);
      GridWhole(a[..], Start(k, items, g), shares[k], n, items);
      OutsideWiden(before, a[..], Start(k, items, g), Start(k, items, g) + Size(n, g), Start(k, items, g) + Size(items, g));
      PlaneStep(before, a[..], items, g, shares, scores, k, planes);
    }
  }

  method WeightedPlanes(f: Ops, p: Pass, firstRow: nat, rows: nat, columnBlock: pos, a: array<F32>, out: array<F32>)
    requires WellFormed(p) && firstRow + rows <= p.rows && Start(Size(rows, p.kvHeads), Depth(p), p.groups) <= a.Length
    requires a != out && Start(Size(rows, p.kvHeads), p.headDim, p.groups) <= out.Length
    requires Planes(a[..], Depth(p), p.groups, SharesWanted(f, p, firstRow, rows), 0, Size(rows, p.kvHeads))
    modifies out
    ensures Planes(out[..], p.headDim, p.groups, SumsWanted(f, p, firstRow, rows, true), 0, Size(rows, p.kvHeads))
  {
    hide Start, Size, Grid, OutsideSame, WellFormed, Planes, SumGrid, PlaneShares, PlaneSums, Token, SharesWanted, SumsWanted, Even;
    var items, g, planes := p.headDim, p.groups, Size(rows, p.kvHeads);
    ghost var shares := SharesWanted(f, p, firstRow, rows);
    ghost var none, sums := SumsWanted(f, p, firstRow, rows, false), SumsWanted(f, p, firstRow, rows, true);
    ClearSums(f, p, firstRow, rows, out);
    NoPlanes(out[..], items, g, sums, 0);
    for k := 0 to planes
      invariant Planes(out[..], items, g, sums, 0, k) && Planes(out[..], items, g, none, k, planes)
    {
      PlaneInRange(k, rows, p.kvHeads);
      var n := p.existing + Token(p, firstRow, rows, k) + 1;
      PlaneBounds(k, planes, items, g, items);
      PlaneBounds(k, planes, Depth(p), g, n);
      PlaneAt(a[..], Depth(p), g, shares, 0, planes, k);
      GridWhole(a[..], Start(k, Depth(p), g), shares[k], n, Depth(p));
      PlaneAt(out[..], items, g, none, k, planes, k);
      SumsAre(f, p, firstRow, rows, k);
      ghost var before := out[..];
      WeightedPlane(f, p, k % p.kvHeads, columnBlock, out, Start(k, items, g), a, Start(k, Depth(p), g), n, shares[k]);
      PlaneStep(before, out[..], items, g, sums, none, k, planes);
    }
  }

  lemma SumsAre(f: Ops, p: Pass, firstRow: nat, rows: nat, k: nat)
    requires WellFormed(p) && k < Size(rows, p.kvHeads) && firstRow + rows <= p.rows
    ensures
      var shares, n := PlaneShares(f, p, firstRow, rows, k), p.existing + Token(p, firstRow, rows, k) + 1;
      && PlaneSums(f, p, firstRow, rows, k, false) == SumGrid(f, p, k % p.kvHeads, shares, 0)
      && PlaneSums(f, p, firstRow, rows, k, true) == SumGrid(f, p, k % p.kvHeads, shares, n)
  {}

  /** Start every accumulator cell of the chunk at zero. */
  method ClearSums(f: Ops, p: Pass, firstRow: nat, rows: nat, out: array<F32>)
    requires WellFormed(p) && firstRow + rows <= p.rows && Start(Size(rows, p.kvHeads), p.headDim, p.groups) <= out.Length
    modifies out
    ensures Planes(out[..], p.headDim, p.groups, SumsWanted(f, p, firstRow, rows, false), 0, Size(rows, p.kvHeads))
  {
    hide WellFormed;
    var size := Start(Size(rows, p.kvHeads), p.headDim, p.groups);
    for i := 0 to size
      invariant forall x :: 0 <= x < i ==> out[x] == f.zero
    {
      out[i] := f.zero;
    }
    ZeroIsEmptySum(f, p, firstRow, rows, out[..]);
  }

  lemma ZeroIsEmptySum(f: Ops, p: Pass, firstRow: nat, rows: nat, x: seq<F32>)
    requires WellFormed(p) && firstRow + rows <= p.rows && Start(Size(rows, p.kvHeads), p.headDim, p.groups) <= |x|
    requires forall i :: 0 <= i < Start(Size(rows, p.kvHeads), p.headDim, p.groups) ==> x[i] == f.zero
    ensures Planes(x, p.headDim, p.groups, SumsWanted(f, p, firstRow, rows, false), 0, Size(rows, p.kvHeads))
  {
    hide WellFormed, Planes;
    var items, g, planes := p.headDim, p.groups, Size(rows, p.kvHeads);
    var none := SumsWanted(f, p, firstRow, rows, false);
    SizeIs(items, g);
    hide Size, Start;
    forall k | 0 <= k < planes ensures |none[k]| == g && Grid(x, Start(k, items, g), none[k], 0, items) {
      PlaneBounds(k, planes, items, g, items);
      ZeroPlane(f, p, firstRow, rows, k, x, Start(k, items, g));
    }
    PlanesAre(x, items, g, none);
  }

  lemma ZeroPlane(f: Ops, p: Pass, firstRow: nat, rows: nat, k: nat, x: seq<F32>, at: nat)
    requires WellFormed(p) && firstRow + rows <= p.rows && k < Size(rows, p.kvHeads) && at + p.headDim * p.groups <= |x|
    requires forall i :: at <= i < at + p.headDim * p.groups ==> x[i] == f.zero
    ensures Grid(x, at, PlaneSums(f, p, firstRow, rows, k, false), 0, p.headDim)
  {
    hide WellFormed, PlaneShares;
    var want := PlaneSums(f, p, firstRow, rows, k, false);
    forall l, i | 0 <= l < p.groups && 0 <= i < p.headDim && i < |want[l]|
      ensures at + At(i, p.groups, l) < |x| && x[at + At(i, p.groups, l)] == want[l][i]
    {
      AtFits(i, p.headDim, p.groups, l);
    }
  }

  // ----- the output, `[token][head][column]` -----

  function OutLength(p: Pass): nat { Size(Size(p.rows, QueryHeads(p)), p.headDim) }

  /** One output row: a token's query head. */
  function RowOutput(f: Ops, p: Pass, row: nat, column: nat): F32
    requires WellFormed(p) && row < Size(p.rows, QueryHeads(p)) && column < p.headDim
  {
    RowInRange(p, row);
    var head := row % QueryHeads(p);
    Attended(f, p, row / QueryHeads(p), head / p.groups, head % p.groups, column)
  }

  lemma RowInRange(p: Pass, row: nat)
    requires row < Size(p.rows, QueryHeads(p))
    ensures row / QueryHeads(p) < p.rows && row % QueryHeads(p) / p.groups < p.kvHeads && row % QueryHeads(p) % p.groups < p.groups
  {
    PlaneInRange(row, p.rows, QueryHeads(p));
    PlaneInRange(row % QueryHeads(p), p.kvHeads, p.groups);
  }

  function OutputRow(f: Ops, p: Pass, row: nat): (r: seq<F32>)
    requires WellFormed(p) && row < Size(p.rows, QueryHeads(p))
    ensures |r| == p.headDim
  {
    seq(p.headDim, c requires 0 <= c < p.headDim => RowOutput(f, p, row, c))
  }

  /** The attention output of a pass. */
  function Expected(f: Ops, p: Pass): (r: seq<F32>)
    requires WellFormed(p)
    ensures |r| == OutLength(p)
  {
    seq(OutLength(p), i requires 0 <= i < OutLength(p) => OutputAt(f, p, i))
  }

  function OutputAt(f: Ops, p: Pass, i: nat): F32
    requires WellFormed(p) && i < OutLength(p)
  {
    PlaneInRange(i, Size(p.rows, QueryHeads(p)), p.headDim);
    RowOutput(f, p, i / p.headDim, i % p.headDim)
  }

  /** The first `rows` output rows are in place. */
  ghost predicate RowsDone(f: Ops, p: Pass, out: seq<F32>, rows: nat)
    requires WellFormed(p)
  {
    && |out| == OutLength(p)
    && forall i :: 0 <= i < |out| && i < Size(rows, p.headDim) ==> out[i] == OutputAt(f, p, i)
  }

  lemma OneRowDone(f: Ops, p: Pass, x: seq<F32>, y: seq<F32>, row: nat)
    requires WellFormed(p) && row < Size(p.rows, QueryHeads(p)) && RowsDone(f, p, x, row)
    requires OutsideSame(x, y, Size(row, p.headDim), Size(row, p.headDim) + p.headDim)
    requires Size(row, p.headDim) + p.headDim <= |y|
    requires y[Size(row, p.headDim)..Size(row, p.headDim) + p.headDim] == OutputRow(f, p, row)
    ensures RowsDone(f, p, y, row + 1)
  {
    hide WellFormed, RowOutput;
    var at := Size(row, p.headDim);
    forall i | 0 <= i < |y| && i < Size(row + 1, p.headDim) ensures y[i] == OutputAt(f, p, i) {
      if i >= at {
        AtInverse(row, p.headDim, i - at);
        assert At(row, p.headDim, i - at) == i;
        assert y[at..at + p.headDim][i - at] == OutputRow(f, p, row)[i - at];
      }
    }
  }

  lemma RowBounds(p: Pass, row: nat)
    requires row < Size(p.rows, QueryHeads(p))
    ensures Size(row, p.headDim) + p.headDim <= OutLength(p)
  {
    ProductGrows(row + 1, Size(p.rows, QueryHeads(p)), p.headDim);
  }

  lemma AllRowsDone(f: Ops, p: Pass, out: seq<F32>)
    requires WellFormed(p) && RowsDone(f, p, out, Size(p.rows, QueryHeads(p)))
    ensures out == Expected(f, p)
  {}

  // ----- the plain scan -----

  method ScoreHead(f: Ops, p: Pass, token: nat, head: nat) returns (scores: seq<F32>)
    requires WellFormed(p) && token < p.rows && head < QueryHeads(p)
    requires head / p.groups < p.kvHeads && HeadOf(p, head / p.groups, head % p.groups) == head
    ensures scores == Scores(f, p, token, head / p.groups, head % p.groups)
  {
    hide WellFormed, DotOf;
    scores := [];
    for past := 0 to p.existing + token + 1
      invariant scores == Scores(f, p, token, head / p.groups, head % p.groups)[..past]
    {
      var dot := Dot(f, QueryRow(p, token, head), KeyRow(p, past, head / p.groups));
      scores := scores + [f.mul(dot, p.scale)];
    }
  }

  function QueryRow(p: Pass, token: nat, head: nat): (row: seq<F32>)
    requires WellFormed(p) && token < p.rows && head < QueryHeads(p)
    ensures |row| == p.headDim && row == p.queries[token][head]
  {
    p.queries[token][head]
  }

  /** Turn scores into weights in place, and add them up. */
  method WeighHead(f: Ops, s: seq<F32>) returns (weights: seq<F32>, den: F32)
    ensures weights == Weights(f, s) && den == Denominator(f, s, |s|)
  {
    var max := f.negInf;
    for i := 0 to |s|
      invariant max == MaxOf(f, s, i)
    {
      max := f.max(max, s[i]);
    }
    den := f.zero;
    weights := s;
    for i := 0 to |s|
      invariant |weights| == |s| && den == Denominator(f, s, i)
      invariant forall x :: 0 <= x < |s| ==> weights[x] == if x < i then Weight(f, s, x) else s[x]
    {
      weights := weights[i := f.exp(f.sub(weights[i], max))];
      den := f.add(den, weights[i]);
    }
  }

  /** Every column's sum over the first `n` positions. */
  function SumsRow(f: Ops, p: Pass, w: seq<F32>, kvHead: nat, n: nat): (r: seq<F32>)
    requires WellFormed(p) && n <= |w| <= Depth(p) && kvHead < p.kvHeads
    ensures |r| == p.headDim
  {
    seq(p.headDim, c requires 0 <= c < p.headDim => WeightedSum(f, p, w, kvHead, c, n))
  }

  lemma SumsRowNext(f: Ops, p: Pass, w: seq<F32>, kvHead: nat, n: nat, c: nat)
    requires WellFormed(p) && n < |w| <= Depth(p) && kvHead < p.kvHeads && c < p.headDim
    ensures SumsRow(f, p, w, kvHead, n + 1)[c] == f.add(SumsRow(f, p, w, kvHead, n)[c], f.mul(w[n], ValueRow(p, n, kvHead)[c]))
  {}

  /** Add one position, weighted, into every column. */
  method AddPosition(f: Ops, p: Pass, ghost w: seq<F32>, kvHead: nat, past: nat, probability: F32, out: array<F32>, at: nat)
    requires WellFormed(p) && past < |w| <= Depth(p) && kvHead < p.kvHeads && at + p.headDim <= out.Length
    requires probability == w[past] && out[at..at + p.headDim] == SumsRow(f, p, w, kvHead, past)
    modifies out
    ensures OutsideSame(old(out[..]), out[..], at, at + p.headDim)
    ensures out[at..at + p.headDim] == SumsRow(f, p, w, kvHead, past + 1)
  {
    hide WellFormed, SumsRow;
    var row := ValueRow(p, past, kvHead);
    ghost var was, now := SumsRow(f, p, w, kvHead, past), SumsRow(f, p, w, kvHead, past + 1);
    for c := 0 to p.headDim
      invariant OutsideSame(old(out[..]), out[..], at, at + c)
      invariant forall x :: 0 <= x < c ==> out[at + x] == now[x]
    {
      assert out[at + c] == old(out[..])[at + c] == old(out[at..at + p.headDim])[c] == was[c];
      SumsRowNext(f, p, w, kvHead, past, c);
      out[at + c] := f.add(out[at + c], f.mul(probability, row[c]));
    }
  }

  /** One output row of the plain scan: `head` walks its whole cache. */
  method PerHeadRow(f: Ops, p: Pass, row: nat, out: array<F32>)
    requires WellFormed(p) && row < Size(p.rows, QueryHeads(p)) && Size(row, p.headDim) + p.headDim <= out.Length
    modifies out
    ensures OutsideSame(old(out[..]), out[..], Size(row, p.headDim), Size(row, p.headDim) + p.headDim)
    ensures out[Size(row, p.headDim)..Size(row, p.headDim) + p.headDim] == OutputRow(f, p, row)
  {
    hide WellFormed, Size, SumsRow, Denominator, Weights, Scores, Softmax, OutputRow, OutsideSame, GateAt, Sigmoid;
    RowInRange(p, row);
    var token, head := row / QueryHeads(p), row % QueryHeads(p);
    var kvHead, at := head / p.groups, Size(row, p.headDim);
    HeadSplit(p, head);
    var scores := ScoreHead(f, p, token, head);
    var weights, den := WeighHead(f, scores);
    ghost var w := Softmax(f, scores);
    SoftmaxDivides(f, scores);
    AddPositions(f, p, w, kvHead, weights, den, out, at);
    ghost var before := out[..];
    GatedSums(f, p, row, token, head, w);
    GateColumns(f, p, token, head, out, at, SumsRow(f, p, w, kvHead, |w|), OutputRow(f, p, row));
    OutsideChain(old(out[..]), before, out[..], at, at + p.headDim);
  }

  method ClearRow(f: Ops, p: Pass, ghost w: seq<F32>, kvHead: nat, out: array<F32>, at: nat)
    requires WellFormed(p) && |w| <= Depth(p) && kvHead < p.kvHeads && at + p.headDim <= out.Length
    modifies out
    ensures OutsideSame(old(out[..]), out[..], at, at + p.headDim)
    ensures out[at..at + p.headDim] == SumsRow(f, p, w, kvHead, 0)
  {
    hide WellFormed;
    ghost var none := SumsRow(f, p, w, kvHead, 0);
    for c := 0 to p.headDim
      invariant OutsideSame(old(out[..]), out[..], at, at + p.headDim)
      invariant forall x :: 0 <= x < c ==> out[at + x] == none[x]
    {
      out[at + c] := f.zero;
    }
  }

  lemma HeadSplit(p: Pass, head: nat)
    requires head < QueryHeads(p)
    ensures head / p.groups < p.kvHeads && HeadOf(p, head / p.groups, head % p.groups) == head
  {
    PlaneInRange(head, p.kvHeads, p.groups);
  }

  lemma SoftmaxDivides(f: Ops, s: seq<F32>)
    ensures forall i :: 0 <= i < |s| ==> Softmax(f, s)[i] == f.div(Weights(f, s)[i], Denominator(f, s, |s|))
  {}

  /** The weighted sum over every attended position, dividing as it goes. */
  method AddPositions(f: Ops, p: Pass, ghost w: seq<F32>, kvHead: nat, weights: seq<F32>, den: F32, out: array<F32>, at: nat)
    requires WellFormed(p) && |w| == |weights| <= Depth(p) && kvHead < p.kvHeads && at + p.headDim <= out.Length
    requires forall i :: 0 <= i < |w| ==> w[i] == f.div(weights[i], den)
    modifies out
    ensures OutsideSame(old(out[..]), out[..], at, at + p.headDim)
    ensures out[at..at + p.headDim] == SumsRow(f, p, w, kvHead, |w|)
  {
    hide WellFormed, SumsRow, OutsideSame;
    ClearRow(f, p, w, kvHead, out, at);
    for past := 0 to |weights|
      invariant OutsideSame(old(out[..]), out[..], at, at + p.headDim)
      invariant out[at..at + p.headDim] == SumsRow(f, p, w, kvHead, past)
    {
      ghost var before := out[..];
      AddPosition(f, p, w, kvHead, past, f.div(weights[past], den), out, at);
      OutsideChain(old(out[..]), before, out[..], at, at + p.headDim);
    }
  }

  /** Gate a finished row, in place. */
  method GateColumns(f: Ops, p: Pass, token: nat, head: nat, out: array<F32>, at: nat, ghost was: seq<F32>, ghost now: seq<F32>)
    requires WellFormed(p) && token < p.rows && head < QueryHeads(p) && |was| == |now| == p.headDim
    requires at + p.headDim <= out.Length && out[at..at + p.headDim] == was
    requires forall c :: 0 <= c < p.headDim ==> now[c] == f.mul(was[c], Sigmoid(f, GateAt(p, token, head, c)))
    modifies out
    ensures OutsideSame(old(out[..]), out[..], at, at + p.headDim) && out[at..at + p.headDim] == now
  {
    hide WellFormed, GateAt, Sigmoid;
    for c := 0 to p.headDim
      invariant OutsideSame(old(out[..]), out[..], at, at + c)
      invariant forall x :: 0 <= x < c ==> out[at + x] == now[x]
    {
      assert out[at + c] == old(out[..])[at + c] == old(out[at..at + p.headDim])[c] == was[c];
      out[at + c] := f.mul(out[at + c], Sigmoid(f, GateAt(p, token, head, c)));
    }
  }

  /** A row's output is its weighted sums, gated. */
  lemma GatedSums(f: Ops, p: Pass, row: nat, token: nat, head: nat, w: seq<F32>)
    requires WellFormed(p) && row < Size(p.rows, QueryHeads(p)) && token < p.rows && head / p.groups < p.kvHeads
    requires row / QueryHeads(p) == token && row % QueryHeads(p) == head
    requires w == Softmax(f, Scores(f, p, token, head / p.groups, head % p.groups))
    ensures forall c :: 0 <= c < p.headDim ==>
      OutputRow(f, p, row)[c] == f.mul(SumsRow(f, p, w, head / p.groups, |w|)[c], Sigmoid(f, GateAt(p, token, head, c)))
  {
    hide WellFormed, Size, Softmax, Scores, WeightedSum, Sigmoid;
    HeadSplit(p, head);
  }

  function GateAt(p: Pass, token: nat, head: nat, column: nat): F32
    requires WellFormed(p) && token < p.rows && head < QueryHeads(p) && column < p.headDim
  {
    p.gates[token][head][column]
  }

  /** The scan with one work item per token and query head. */
  method PerHeadScan(f: Ops, p: Pass, out: array<F32>)
    requires WellFormed(p) && out.Length == OutLength(p)
    modifies out
    ensures out[..] == Expected(f, p)
  {
    hide WellFormed, Size, OutsideSame, RowsDone, OutputRow, OutLength;
    NoRowsDone(f, p, out[..]);
    for row := 0 to Size(p.rows, QueryHeads(p))
      invariant RowsDone(f, p, out[..], row)
    {
      RowBounds(p, row);
      ghost var before := out[..];
      PerHeadRow(f, p, row, out);
      OneRowDone(f, p, before, out[..], row);
    }
    AllRowsDone(f, p, out[..]);
  }

  lemma NoRowsDone(f: Ops, p: Pass, out: seq<F32>)
    requires WellFormed(p) && |out| == OutLength(p)
    ensures RowsDone(f, p, out, 0)
  {}

  // ----- the blocked scan -----

  /** A finished accumulator cell is the plain scan's sum. */
  lemma SumCell(f: Ops, p: Pass, firstRow: nat, rows: nat, row: nat, head: nat, c: nat)
    requires WellFormed(p) && firstRow + rows <= p.rows && row < rows && head < QueryHeads(p) && c < p.headDim
    ensures
      var plane := At(row, p.kvHeads, head / p.groups);
      && head / p.groups < p.kvHeads && plane < Size(rows, p.kvHeads)
      && PlaneSums(f, p, firstRow, rows, plane, true)[head % p.groups][c]
         == (var w := Softmax(f, Scores(f, p, firstRow + row, head / p.groups, head % p.groups));
             SumsRow(f, p, w, head / p.groups, |w|)[c])
  {
    hide WellFormed, Softmax, Scores, WeightedSum;
    HeadSplit(p, head);
    AtFits(row, rows, p.kvHeads, head / p.groups);
    AtInverse(row, p.kvHeads, head / p.groups);
  }

  lemma OutputRowAt(p: Pass, token: nat, head: nat)
    requires token < p.rows && head < QueryHeads(p)
    ensures
      var r := At(token, QueryHeads(p), head);
      r < Size(p.rows, QueryHeads(p)) && r / QueryHeads(p) == token && r % QueryHeads(p) == head
  {
    AtFits(token, p.rows, QueryHeads(p), head);
    AtInverse(token, QueryHeads(p), head);
  }

  /** Back into `[token][head][column]` order, gated on the way. */
  method UnpackHead(f: Ops, p: Pass, firstRow: nat, rows: nat, row: nat, head: nat, acc: array<F32>, out: array<F32>)
    requires WellFormed(p) && firstRow + rows <= p.rows && row < rows && head < QueryHeads(p) && acc != out
    requires Start(Size(rows, p.kvHeads), p.headDim, p.groups) <= acc.Length && out.Length == OutLength(p)
    requires Planes(acc[..], p.headDim, p.groups, SumsWanted(f, p, firstRow, rows, true), 0, Size(rows, p.kvHeads))
    requires RowsDone(f, p, out[..], At(firstRow + row, QueryHeads(p), head))
    modifies out
    ensures RowsDone(f, p, out[..], At(firstRow + row, QueryHeads(p), head) + 1)
  {
    hide WellFormed, Size, Start, Planes, Grid, PlaneSums, SumsRow, Softmax, Scores, OutputRow, RowsDone, OutLength,
      At, GateAt, Sigmoid, OutsideSame, SumsWanted;
    var token := firstRow + row;
    var r := At(token, QueryHeads(p), head);
    OutputRowAt(p, token, head);
    HeadSplit(p, head);
    RowBounds(p, r);
    SumCell(f, p, firstRow, rows, row, head, 0);
    var plane, lane, at := At(row, p.kvHeads, head / p.groups), head % p.groups, Size(r, p.headDim);
    ghost var want := SumsWanted(f, p, firstRow, rows, true);
    PlaneAt(acc[..], p.headDim, p.groups, want, 0, Size(rows, p.kvHeads), plane);
    UnpackedIs(f, p, firstRow, rows, row, head);
    ghost var before := out[..];
    UnpackColumns(f, p, token, head, lane, acc, Start(plane, p.headDim, p.groups), want[plane], out, at, OutputRow(f, p, r));
    OneRowDone(f, p, before, out[..], r);
  }

  lemma UnpackedIs(f: Ops, p: Pass, firstRow: nat, rows: nat, row: nat, head: nat)
    requires WellFormed(p) && firstRow + rows <= p.rows && row < rows && head < QueryHeads(p)
    ensures
      var plane, r := At(row, p.kvHeads, head / p.groups), At(firstRow + row, QueryHeads(p), head);
      && head / p.groups < p.kvHeads && plane < Size(rows, p.kvHeads) && r < Size(p.rows, QueryHeads(p))
      && forall c | 0 <= c < p.headDim ::
           OutputRow(f, p, r)[c]
           == f.mul(PlaneSums(f, p, firstRow, rows, plane, true)[head % p.groups][c], Sigmoid(f, GateAt(p, firstRow + row, head, c)))
  {
    hide WellFormed, Size, PlaneSums, SumsRow, Softmax, Scores, OutputRow, At;
    var r := At(firstRow + row, QueryHeads(p), head);
    OutputRowAt(p, firstRow + row, head);
    HeadSplit(p, head);
    SumCell(f, p, firstRow, rows, row, head, 0);
    var w := Softmax(f, Scores(f, p, firstRow + row, head / p.groups, head % p.groups));
    GatedSums(f, p, r, firstRow + row, head, w);
    forall c | 0 <= c < p.headDim
      ensures OutputRow(f, p, r)[c]
        == f.mul(PlaneSums(f, p, firstRow, rows, At(row, p.kvHeads, head / p.groups), true)[head % p.groups][c],
                 Sigmoid(f, GateAt(p, firstRow + row, head, c)))
    {
      SumCell(f, p, firstRow, rows, row, head, c);
    }
  }

  method UnpackColumns(f: Ops, p: Pass, token: nat, head: nat, lane: nat, acc: array<F32>, start: nat, ghost sums: seq<seq<F32>>,
                       out: array<F32>, at: nat, ghost now: seq<F32>)
    requires WellFormed(p) && token < p.rows && head < QueryHeads(p) && lane < p.groups && acc != out
    requires |sums| == p.groups && |sums[lane]| == p.headDim == |now| && Grid(acc[..], start, sums, 0, p.headDim)
    requires at + p.headDim <= out.Length
    requires forall c :: 0 <= c < p.headDim ==> now[c] == f.mul(sums[lane][c], Sigmoid(f, GateAt(p, token, head, c)))
    modifies out
    ensures OutsideSame(old(out[..]), out[..], at, at + p.headDim) && out[at..at + p.headDim] == now
  {
    hide WellFormed, Grid, GateAt, Sigmoid;
    for c := 0 to p.headDim
      invariant OutsideSame(old(out[..]), out[..], at, at + c)
      invariant forall x :: 0 <= x < c ==> out[at + x] == now[x]
    {
      GridAt(acc[..], start, sums, 0, p.headDim, c);
      var cell := acc[..][start + c * p.groups + lane];
      out[at + c] := f.mul(cell, Sigmoid(f, GateAt(p, token, head, c)));
    }
  }

  method UnpackRows(f: Ops, p: Pass, firstRow: nat, rows: nat, acc: array<F32>, out: array<F32>)
    requires WellFormed(p) && firstRow + rows <= p.rows && acc != out
    requires Start(Size(rows, p.kvHeads), p.headDim, p.groups) <= acc.Length && out.Length == OutLength(p)
    requires Planes(acc[..], p.headDim, p.groups, SumsWanted(f, p, firstRow, rows, true), 0, Size(rows, p.kvHeads))
    requires RowsDone(f, p, out[..], At(firstRow, QueryHeads(p), 0))
    modifies out
    ensures RowsDone(f, p, out[..], At(firstRow + rows, QueryHeads(p), 0))
  {
    hide WellFormed, Size, Start, Planes, RowsDone, OutLength, At;
    for row := 0 to rows
      invariant RowsDone(f, p, out[..], At(firstRow + row, QueryHeads(p), 0))
    {
      for head := 0 to QueryHeads(p)
        invariant RowsDone(f, p, out[..], At(firstRow + row, QueryHeads(p), head))
      {
        UnpackHead(f, p, firstRow, rows, row, head, acc, out);
        AtNext(firstRow + row, QueryHeads(p), head);
      }
      AtNext(firstRow + row, QueryHeads(p), QueryHeads(p));
    }
  }

  lemma AtNext(major: nat, size: nat, minor: nat)
    ensures At(major, size, minor) + 1 == At(major, size, minor + 1)
    ensures At(major, size, size) == At(major + 1, size, 0)
  {}

  /** One chunk of rows, in buffers an earlier chunk may have used. */
  method ScanChunk(f: Ops, p: Pass, threads: nat, firstRow: nat, rows: nat, probabilities: array<F32>, accumulator: array<F32>,
                   out: array<F32>)
    requires WellFormed(p) && firstRow + rows <= p.rows && p.groups <= MAX_GROUP && out.Length == OutLength(p)
    requires probabilities != accumulator && probabilities != out && accumulator != out
    requires Start(Size(rows, p.kvHeads), Depth(p), p.groups) <= probabilities.Length
    requires Start(Size(rows, p.kvHeads), p.headDim, p.groups) <= accumulator.Length
    requires RowsDone(f, p, out[..], At(firstRow, QueryHeads(p), 0))
    modifies probabilities, accumulator, out
    ensures RowsDone(f, p, out[..], At(firstRow + rows, QueryHeads(p), 0))
  {
    hide WellFormed, Size, Start, Planes, RowsDone, OutLength, At, Split;
    var planes := Size(rows, p.kvHeads);
    var pastBlock := Split(p.existing + firstRow + rows, planes, threads, MIN_PAST_BLOCK);
    var columnBlock := Split(p.headDim, planes, threads, MIN_COLUMN_BLOCK);
    ScorePlanes(f, p, firstRow, rows, pastBlock, probabilities);
    SoftmaxPlanes(f, p, firstRow, rows, probabilities);
    WeightedPlanes(f, p, firstRow, rows, columnBlock, probabilities, accumulator);
    UnpackRows(f, p, firstRow, rows, accumulator, out);
  }

  lemma StartGrows(a: nat, b: nat, kvHeads: nat, items: nat, lanes: nat)
    requires a <= b
    ensures Start(Size(a, kvHeads), items, lanes) <= Start(Size(b, kvHeads), items, lanes)
  {
    ProductGrows(a, b, kvHeads);
    ProductGrows(Size(a, kvHeads), Size(b, kvHeads), Size(items, lanes));
  }

  /** How many rows a chunk's scores may take. */
  function RowsPerChunk(p: Pass): (rows: pos)
    requires p.rows > 0
    ensures rows <= p.rows
  {
    PlaneIsNotEmpty(p);
    var most := SCORE_BUDGET / Size(p.kvHeads, Size(Depth(p), p.groups));
    if most < 1 then 1 else if most > p.rows then p.rows else most
  }

  lemma PlaneIsNotEmpty(p: Pass)
    requires p.rows > 0
    ensures Size(p.kvHeads, Size(Depth(p), p.groups)) > 0
  {
    ProductGrows(1, Depth(p), p.groups);
    ProductGrows(1, p.kvHeads, Size(Depth(p), p.groups));
  }

  /** The scan blocked by key-value head gives the very elements of the plain
      scan, for any number of threads. */
  method BlockedScan(f: Ops, p: Pass, threads: nat, out: array<F32>)
    requires WellFormed(p) && p.rows > 0 && p.groups <= MAX_GROUP && out.Length == OutLength(p)
    modifies out
    ensures out[..] == Expected(f, p)
  {
    hide WellFormed, Size, Start, Planes, RowsDone, OutLength, At, RowsPerChunk;
    var chunk := RowsPerChunk(p);
    var probabilities := new F32[Start(Size(chunk, p.kvHeads), Depth(p), p.groups)](_ => f.zero);
    var accumulator := new F32[Start(Size(chunk, p.kvHeads), p.headDim, p.groups)](_ => f.zero);
    var firstRow := 0;
    NoRowsDone(f, p, out[..]);
    AtZero(QueryHeads(p), p.rows);
    while firstRow < p.rows
      invariant 0 <= firstRow <= p.rows && RowsDone(f, p, out[..], At(firstRow, QueryHeads(p), 0))
    {
      var rows := if chunk < p.rows - firstRow then chunk else p.rows - firstRow;
      StartGrows(rows, chunk, p.kvHeads, Depth(p), p.groups);
      StartGrows(rows, chunk, p.kvHeads, p.headDim, p.groups);
      ScanChunk(f, p, threads, firstRow, rows, probabilities, accumulator, out);
      firstRow := firstRow + rows;
    }
    AllRowsDone(f, p, out[..]);
  }

  lemma AtZero(size: nat, rows: nat)
    ensures At(0, size, 0) == 0 && At(rows, size, 0) == Size(rows, size)
  {}

  // ----- which scan a pass takes -----

  function CacheBytes(p: Pass): nat { Size(Size(Depth(p), p.kvHeads), p.headDim) * 2 * 4 }

  predicate TakesBlocked(p: Pass) {
    p.groups > 1 && p.groups <= MAX_GROUP && CacheBytes(p) >= KV_BLOCKING_BYTES
  }

  /** Whichever scan the plan picks, the elements are the same. */
  method Scan(f: Ops, p: Pass, threads: nat, out: array<F32>)
    requires WellFormed(p) && p.rows > 0 && out.Length == OutLength(p)
    modifies out
    ensures out[..] == Expected(f, p)
  {
    if TakesBlocked(p) {
      BlockedScan(f, p, threads, out);
    } else {
      PerHeadScan(f, p, out);
    }
  }

  // ----- what a row computes does not depend on the pass it is in -----

  /** Row `t` of `p` and row `u` of `q` attend from the same position, with the
      same query and gate, over caches that agree up to that position. */
  ghost predicate SameRow(p: Pass, t: nat, q: Pass, u: nat)
    requires WellFormed(p) && WellFormed(q) && t < p.rows && u < q.rows
  {
    && p.kvHeads == q.kvHeads && p.groups == q.groups && p.headDim == q.headDim && p.scale == q.scale
    && p.existing + t == q.existing + u && p.queries[t] == q.queries[u] && p.gates[t] == q.gates[u]
    && forall past, kv :: 0 <= past <= p.existing + t && 0 <= kv < p.kvHeads ==>
         KeyRow(p, past, kv) == KeyRow(q, past, kv) && ValueRow(p, past, kv) == ValueRow(q, past, kv)
  }

  lemma SameRowScores(f: Ops, p: Pass, t: nat, q: Pass, u: nat, kv: nat, lane: nat)
    requires WellFormed(p) && WellFormed(q) && t < p.rows && u < q.rows && SameRow(p, t, q, u)
    requires kv < p.kvHeads && lane < p.groups
    ensures Scores(f, p, t, kv, lane) == Scores(f, q, u, kv, lane)
  {
    hide WellFormed, DotOf;
    var a, b := Scores(f, p, t, kv, lane), Scores(f, q, u, kv, lane);
    forall past | 0 <= past < |a| ensures a[past] == b[past] {
      assert KeyRow(p, past, kv) == KeyRow(q, past, kv);
    }
  }

  lemma {:induction false} SameRowSums(f: Ops, p: Pass, t: nat, q: Pass, u: nat, w: seq<F32>, kv: nat, c: nat, n: nat)
    requires WellFormed(p) && WellFormed(q) && t < p.rows && u < q.rows && SameRow(p, t, q, u)
    requires kv < p.kvHeads && c < p.headDim && n <= |w| == p.existing + t + 1
    ensures WeightedSum(f, p, w, kv, c, n) == WeightedSum(f, q, w, kv, c, n)
  {
    if n > 0 {
      SameRowSums(f, p, t, q, u, w, kv, c, n - 1);
      assert ValueRow(p, n - 1, kv) == ValueRow(q, n - 1, kv);
    }
  }

  lemma SameRowOutput(f: Ops, p: Pass, t: nat, q: Pass, u: nat, head: nat)
    requires WellFormed(p) && WellFormed(q) && t < p.rows && u < q.rows && SameRow(p, t, q, u) && head < QueryHeads(p)
    ensures At(t, QueryHeads(p), head) < Size(p.rows, QueryHeads(p)) && At(u, QueryHeads(p), head) < Size(q.rows, QueryHeads(q))
    ensures OutputRow(f, p, At(t, QueryHeads(p), head)) == OutputRow(f, q, At(u, QueryHeads(p), head))
  {
    hide WellFormed, SameRow, Scores, WeightedSum, Softmax, At, Size, OutputRow, Sigmoid;
    DimsAgree(p, t, q, u);
    OutputRowAt(p, t, head);
    OutputRowAt(q, u, head);
    HeadSplit(p, head);
    var kv, lane := head / p.groups, head % p.groups;
    SameRowScores(f, p, t, q, u, kv, lane);
    var w := Softmax(f, Scores(f, p, t, kv, lane));
    var a, b := OutputRow(f, p, At(t, QueryHeads(p), head)), OutputRow(f, q, At(u, QueryHeads(p), head));
    forall c | 0 <= c < p.headDim ensures a[c] == b[c] {
      SameRowSums(f, p, t, q, u, w, kv, c, |w|);
      OutputElement(f, p, t, head, c);
      OutputElement(f, q, u, head, c);
    }
  }

  lemma OutputElement(f: Ops, p: Pass, t: nat, head: nat, c: nat)
    requires WellFormed(p) && t < p.rows && head < QueryHeads(p) && c < p.headDim
    ensures head / p.groups < p.kvHeads && At(t, QueryHeads(p), head) < Size(p.rows, QueryHeads(p))
    ensures
      var w := Softmax(f, Scores(f, p, t, head / p.groups, head % p.groups));
      OutputRow(f, p, At(t, QueryHeads(p), head))[c]
      == f.mul(WeightedSum(f, p, w, head / p.groups, c, |w|), Sigmoid(f, p.gates[t][head][c]))
  {
    hide WellFormed, Scores, WeightedSum, Softmax, At, Size, Sigmoid;
    OutputRowAt(p, t, head);
    HeadSplit(p, head);
  }

  lemma DimsAgree(p: Pass, t: nat, q: Pass, u: nat)
    requires WellFormed(p) && WellFormed(q) && t < p.rows && u < q.rows && SameRow(p, t, q, u)
    ensures p.kvHeads == q.kvHeads && p.groups == q.groups && p.headDim == q.headDim
    ensures p.existing + t == q.existing + u && p.gates[t] == q.gates[u] && p.queries[t] == q.queries[u]
  {}

  /** The cache rows of the first `depth` positions. */
  function CachePrefix(p: Pass, cache: seq<F32>, depth: nat): (r: seq<F32>)
    requires depth <= Depth(p) && |cache| == Depth(p) * p.kvHeads * p.headDim
    ensures |r| == depth * p.kvHeads * p.headDim
  {
    ProductGrows(depth, Depth(p), p.kvHeads);
    ProductGrows(depth * p.kvHeads, Depth(p) * p.kvHeads, p.headDim);
    cache[..depth * p.kvHeads * p.headDim]
  }

  /** Rows `from..to` of a pass, run as a pass of their own. */
  function Part(p: Pass, from: nat, to: nat): (q: Pass)
    requires WellFormed(p) && from <= to <= p.rows
    ensures WellFormed(q) && q.rows == to - from
  {
    p.(rows := to - from, existing := p.existing + from, queries := p.queries[from..to], gates := p.gates[from..to],
       keys := CachePrefix(p, p.keys, p.existing + to), values := CachePrefix(p, p.values, p.existing + to))
  }

  lemma PartRow(p: Pass, from: nat, to: nat, t: nat)
    requires WellFormed(p) && from <= t < to <= p.rows
    ensures SameRow(p, t, Part(p, from, to), t - from)
  {
    hide WellFormed, KeyRow, ValueRow, CachePrefix;
    var q := Part(p, from, to);
    PartTokens(p, from, to, t);
    forall past, kv | 0 <= past <= p.existing + t && 0 <= kv < p.kvHeads
      ensures KeyRow(p, past, kv) == KeyRow(q, past, kv) && ValueRow(p, past, kv) == ValueRow(q, past, kv)
    {
      PartCacheRow(p, from, to, past, kv);
    }
  }

  lemma PartTokens(p: Pass, from: nat, to: nat, t: nat)
    requires WellFormed(p) && from <= t < to <= p.rows
    ensures var q := Part(p, from, to); q.queries[t - from] == p.queries[t] && q.gates[t - from] == p.gates[t]
  {}

  lemma PartCacheRow(p: Pass, from: nat, to: nat, past: nat, kv: nat)
    requires WellFormed(p) && from <= to <= p.rows && past < p.existing + to && kv < p.kvHeads
    ensures KeyRow(p, past, kv) == KeyRow(Part(p, from, to), past, kv)
    ensures ValueRow(p, past, kv) == ValueRow(Part(p, from, to), past, kv)
  {
    hide WellFormed, Base, CachePrefix;
    var q := Part(p, from, to);
    PartCaches(p, from, to);
    RowFits(p, past, kv);
    RowFits(q, past, kv);
    BaseSame(p, q, past, kv);
    PrefixSlice(p.keys, q.keys, Base(p, past, kv), Base(p, past, kv) + p.headDim);
    PrefixSlice(p.values, q.values, Base(p, past, kv), Base(p, past, kv) + p.headDim);
  }

  lemma BaseSame(p: Pass, q: Pass, past: nat, kv: nat)
    requires p.kvHeads == q.kvHeads && p.headDim == q.headDim
    ensures Base(p, past, kv) == Base(q, past, kv)
  {}

  lemma PartCaches(p: Pass, from: nat, to: nat)
    requires WellFormed(p) && from <= to <= p.rows
    ensures Part(p, from, to).keys <= p.keys && Part(p, from, to).values <= p.values
  {
    hide WellFormed, CachePrefix;
    CacheLength(p);
    PrefixIs(p, p.keys, p.existing + to);
    PrefixIs(p, p.values, p.existing + to);
  }

  lemma CacheLength(p: Pass)
    requires WellFormed(p)
    ensures |p.keys| == |p.values| == Depth(p) * p.kvHeads * p.headDim
  {}

  lemma PrefixIs(p: Pass, cache: seq<F32>, depth: nat)
    requires depth <= Depth(p) && |cache| == Depth(p) * p.kvHeads * p.headDim
    ensures CachePrefix(p, cache, depth) <= cache
  {}

  lemma PrefixSlice(s: seq<F32>, r: seq<F32>, lo: nat, hi: nat)
    requires r <= s && lo <= hi <= |r|
    ensures r[lo..hi] == s[lo..hi]
  {}

  /** Every row of a multi-row pass is what a one-row pass at the same depth
      computes. */
  lemma RowIsOneRowPass(f: Ops, p: Pass, t: nat, head: nat)
    requires WellFormed(p) && t < p.rows && head < QueryHeads(p)
    ensures At(t, QueryHeads(p), head) < Size(p.rows, QueryHeads(p)) && head < Size(1, QueryHeads(p))
    ensures OutputRow(f, p, At(t, QueryHeads(p), head)) == OutputRow(f, Part(p, t, t + 1), head)
  {
    PartRow(p, t, t + 1, t);
    SameRowOutput(f, p, t, Part(p, t, t + 1), 0, head);
  }

  /** Running a pass in two parts, the second over the cache the first filled,
      gives the same elements as running it whole. */
  lemma PassSplits(f: Ops, p: Pass, m: nat)
    requires WellFormed(p) && m <= p.rows
    ensures Expected(f, p) == Expected(f, Part(p, 0, m)) + Expected(f, Part(p, m, p.rows))
  {
    hide WellFormed, Part, Size, OutputRow, RowOutput;
    var a, b := Part(p, 0, m), Part(p, m, p.rows);
    SplitLength(p, m);
    forall i | 0 <= i < OutLength(p)
      ensures Expected(f, p)[i] == (Expected(f, a) + Expected(f, b))[i]
    {
      if i < OutLength(a) {
        PartElement(f, p, 0, m, i);
      } else {
        PartElement(f, p, m, p.rows, i - OutLength(a));
      }
    }
  }

  lemma SplitLength(p: Pass, m: nat)
    requires WellFormed(p) && m <= p.rows
    ensures OutLength(p) == OutLength(Part(p, 0, m)) + OutLength(Part(p, m, p.rows))
    ensures OutLength(Part(p, 0, m)) == Size(Size(m, QueryHeads(p)), p.headDim) && Size(Size(0, QueryHeads(p)), p.headDim) == 0
  {
    hide WellFormed;
  }

  /** Element `i` of a part is the element of the whole, further along. */
  lemma PartElement(f: Ops, p: Pass, from: nat, to: nat, i: nat)
    requires WellFormed(p) && from <= to <= p.rows && i < OutLength(Part(p, from, to))
    ensures Size(Size(from, QueryHeads(p)), p.headDim) + i < OutLength(p)
    ensures Expected(f, Part(p, from, to))[i] == Expected(f, p)[Size(Size(from, QueryHeads(p)), p.headDim) + i]
  {
    hide WellFormed, OutputRow, Part, At, Size;
    var q := Part(p, from, to);
    PartDims(p, from, to);
    var row, c := i / p.headDim, i % p.headDim;
    PlaneInRange(i, Size(q.rows, QueryHeads(q)), p.headDim);
    PlaneInRange(row, q.rows, QueryHeads(q));
    var t, head := row / QueryHeads(p), row % QueryHeads(p);
    PartRow(p, from, to, from + t);
    SameRowOutput(f, p, from + t, q, t, head);
    Recombined(row, QueryHeads(p), from);
    Recombined(i, p.headDim, Size(from, QueryHeads(p)));
    var big := At(from + t, QueryHeads(p), head);
    OutputRowAt(p, from + t, head);
    AtFits(big, Size(p.rows, QueryHeads(p)), p.headDim, c);
    ElementOfRow(f, p, big, c);
    ElementOfRow(f, q, row, c);
  }

  lemma ElementOfRow(f: Ops, p: Pass, row: nat, c: nat)
    requires WellFormed(p) && row < Size(p.rows, QueryHeads(p)) && c < p.headDim
    ensures At(row, p.headDim, c) < OutLength(p) && Expected(f, p)[At(row, p.headDim, c)] == OutputRow(f, p, row)[c]
  {
    hide WellFormed, RowOutput, At;
    AtFits(row, Size(p.rows, QueryHeads(p)), p.headDim, c);
    AtInverse(row, p.headDim, c);
  }

  lemma PartDims(p: Pass, from: nat, to: nat)
    requires WellFormed(p) && from <= to <= p.rows
    ensures var q := Part(p, from, to); q.kvHeads == p.kvHeads && q.groups == p.groups && q.headDim == p.headDim && q.rows == to - from
  {}

  lemma Recombined(i: nat, size: pos, shift: nat)
    ensures At(i / size, size, i % size) == i && At(shift + i / size, size, i % size) == Size(shift, size) + i
  {}

  // ----- the cache itself -----

  class AttentionState {
    var keys: seq<F32>
    var values: seq<F32>
    var positions: nat

    /** Every position takes `width` floats of keys and of values. */
    ghost predicate Strided(width: pos)
      reads this
    {
      |keys| == |values| == Size(positions, width)
    }

    constructor ()
      ensures keys == values == [] && positions == 0
    {
      keys, values, positions := [], [], 0;
    }

    method Append(newKeys: seq<F32>, newValues: seq<F32>, rows: nat)
      modifies this
      ensures keys == old(keys) + newKeys && values == old(values) + newValues && positions == old(positions) + rows
    {
      keys, values, positions := keys + newKeys, values + newValues, positions + rows;
    }

    /** Drop every position from `n` on. `false` is the error of extending, or
        of storage that is not a whole number of rows; then nothing changes. */
    method Truncate(n: nat, ghost width: pos) returns (ok: bool)
      modifies this
      ensures ok <==> n <= old(positions) && (n == old(positions) || n == 0
                      || (|old(keys)| % old(positions) == 0 && |old(values)| % old(positions) == 0))
      ensures !ok ==> keys == old(keys) && values == old(values) && positions == old(positions)
      ensures ok ==> positions == n
      ensures old(Strided(width)) && n <= old(positions) ==>
        && ok && Strided(width) && Size(n, width) <= |old(keys)|
        && keys == old(keys)[..Size(n, width)] && values == old(values)[..Size(n, width)]
    {
      hide Size, FirstRows;
      if Strided(width) {
        RowsOf(positions, width, n);
        if 0 < n <= positions {
          FirstRowsAre(keys, positions, width, n);
          FirstRowsAre(values, positions, width, n);
        }
      }
      if n > positions { return false; }
      if n == positions { return true; }
      if n == 0 {
        keys, values, positions := [], [], 0;
        return true;
      }
      if |keys| % positions != 0 || |values| % positions != 0 { return false; }
      keys, values, positions := FirstRows(keys, positions, n), FirstRows(values, positions, n), n;
      ok := true;
    }
  }

  /** The first `n` of `positions` equal rows. */
  function FirstRows(s: seq<F32>, positions: nat, n: nat): seq<F32>
    requires 0 < n <= positions
  {
    ProductGrows(n, positions, |s| / positions);
    Recombined(|s|, positions, 0);
    s[..n * (|s| / positions)]
  }

  lemma FirstRowsAre(s: seq<F32>, positions: nat, width: pos, n: nat)
    requires 0 < n <= positions && |s| == Size(positions, width)
    ensures Size(n, width) <= |s| && FirstRows(s, positions, n) == s[..Size(n, width)]
  {
    RowsOf(positions, width, n);
  }

  lemma RowsOf(positions: nat, width: pos, n: nat)
    ensures positions > 0 ==> Size(positions, width) % positions == 0 && Size(positions, width) / positions == width
    ensures n <= positions ==> Size(n, width) <= Size(positions, width)
    ensures Size(0, width) == 0
  {
    if positions > 0 {
      AtInverse(width, positions, 0);
      assert At(width, positions, 0) == Size(positions, width);
    }
    if n <= positions { ProductGrows(n, positions, width); }
  }

  /** Appending a pass and truncating to its first `keep` rows leaves what
      appending only those rows leaves. */
  method AppendThenTruncate(state: AttentionState, newKeys: seq<F32>, newValues: seq<F32>, rows: nat, keep: nat, width: pos)
    returns (ok: bool)
    requires state.Strided(width) && |newKeys| == |newValues| == Size(rows, width) && keep <= rows
    modifies state
    ensures ok && state.Strided(width) && state.positions == old(state.positions) + keep && Size(keep, width) <= |newKeys|
    ensures state.keys == old(state.keys) + newKeys[..Size(keep, width)]
    ensures state.values == old(state.values) + newValues[..Size(keep, width)]
  {
    SizeAdds(state.positions, rows, width);
    SizeAdds(state.positions, keep, width);
    RowsOf(rows, width, keep);
    hide Size;
    var before := state.positions;
    state.Append(newKeys, newValues, rows);
    ok := state.Truncate(before + keep, width);
  }

  lemma SizeAdds(a: nat, b: nat, width: nat)
    ensures Size(a + b, width) == Size(a, width) + Size(b, width)
  {}
}
