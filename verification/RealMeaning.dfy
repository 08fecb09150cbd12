/** What the attention scan and the delta rule compute, once their arithmetic is
    read as that of the reals: rounding aside, the orders of operation that the
    kernels fix do not matter, and the plain formulas remain. */
module RealMeaning {
  import opened Indexing
  import opened Buffers
  import opened Attention
  import D = DeltaNet
  import C = Convolution
  import M = FusedMatmul

  /** A reading of machine numbers as reals, with an exponential. */
  datatype Reading = Reading(val: F32 -> real, exp: real -> real)

  /** Under it the operations are those of the reals. Nothing is asked of the
      maximum. */
  ghost predicate Reads(f: Ops, r: Reading) {
    && (forall a, b :: r.val(f.add(a, b)) == r.val(a) + r.val(b))
    && (forall a, b :: r.val(f.sub(a, b)) == r.val(a) - r.val(b))
    && (forall a, b :: r.val(f.mul(a, b)) == r.val(a) * r.val(b))
    && (forall a, b :: r.val(b) != 0.0 ==> r.val(f.div(a, b)) == r.val(a) / r.val(b))
    && (forall a :: r.val(f.neg(a)) == 0.0 - r.val(a))
    && (forall a :: r.val(f.exp(a)) == r.exp(r.val(a)))
    && r.val(f.zero) == r.val(f.emptySum) == 0.0 && r.val(f.one) == 1.0
    && Exponential(r.exp)
  }

  ghost predicate Exponential(exp: real -> real) {
    (forall x :: exp(x) > 0.0) && forall x, y :: exp(x - y) * exp(y) == exp(x)
  }

  lemma AddIs(f: Ops, r: Reading, a: F32, b: F32)
    requires Reads(f, r)
    ensures r.val(f.add(a, b)) == r.val(a) + r.val(b) && r.val(f.sub(a, b)) == r.val(a) - r.val(b)
  {}

  lemma MulIs(f: Ops, r: Reading, a: F32, b: F32)
    requires Reads(f, r)
    ensures r.val(f.mul(a, b)) == r.val(a) * r.val(b)
  {}

  lemma DivIs(f: Ops, r: Reading, a: F32, b: F32)
    requires Reads(f, r) && r.val(b) != 0.0
    ensures r.val(f.div(a, b)) == r.val(a) / r.val(b)
  {}

  lemma ExpIs(f: Ops, r: Reading, a: F32)
    requires Reads(f, r)
    ensures r.val(f.exp(a)) == r.exp(r.val(a)) && r.exp(r.val(a)) > 0.0 && r.val(f.neg(a)) == 0.0 - r.val(a)
  {
    ExpPositive(r.exp, r.val(a));
  }

  lemma ExpPositive(exp: real -> real, x: real)
    requires Exponential(exp)
    ensures exp(x) > 0.0
  {}

  lemma ConstantsAre(f: Ops, r: Reading)
    requires Reads(f, r)
    ensures r.val(f.zero) == r.val(f.emptySum) == 0.0 && r.val(f.one) == 1.0
  {}

  lemma ExpShifts(f: Ops, r: Reading, x: real, y: real)
    requires Reads(f, r)
    ensures r.exp(x - y) * r.exp(y) == r.exp(x)
  {}

  // ----- sums -----

  function Sum(term: nat -> real, n: nat): real {
    if n == 0 then 0.0 else Sum(term, n - 1) + term(n - 1)
  }

  lemma {:induction false} SumSame(a: nat -> real, b: nat -> real, n: nat)
    requires forall i :: 0 <= i < n ==> a(i) == b(i)
    ensures Sum(a, n) == Sum(b, n)
  {
    if n > 0 { SumSame(a, b, n - 1); }
  }

  lemma {:induction false} SumBoth(a: nat -> real, b: nat -> real, c: nat -> real, n: nat)
    requires forall i :: 0 <= i < n ==> c(i) == a(i) + b(i)
    ensures Sum(c, n) == Sum(a, n) + Sum(b, n)
  {
    if n > 0 { SumBoth(a, b, c, n - 1); }
  }

  lemma {:induction false} SumTimes(a: nat -> real, x: real, b: nat -> real, n: nat)
    requires forall i :: 0 <= i < n ==> b(i) == a(i) * x
    ensures Sum(b, n) == Sum(a, n) * x
  {
    if n > 0 {
      SumTimes(a, x, b, n - 1);
      assert (Sum(a, n - 1) + a(n - 1)) * x == Sum(a, n - 1) * x + a(n - 1) * x;
    }
  }

  lemma {:induction false} SumMore(a: nat -> real, n: nat, b: nat -> real, k: nat)
    requires forall i :: 0 <= i < k ==> b(i) == a(n + i)
    ensures Sum(a, n + k) == Sum(a, n) + Sum(b, k)
  {
    if k > 0 { SumMore(a, n, b, k - 1); }
  }

  lemma {:induction false} SumPositive(a: nat -> real, n: nat)
    requires n > 0 && forall i :: 0 <= i < n ==> a(i) > 0.0
    ensures Sum(a, n) > 0.0
  {
    if n > 1 { SumPositive(a, n - 1); }
  }

  /** The terms of an inner product. */
  function Terms(r: Reading, x: seq<F32>, y: seq<F32>): nat -> real
    requires |x| == |y|
  {
    (i: nat) => if i < |x| then r.val(x[i]) * r.val(y[i]) else 0.0
  }

  function Inner(r: Reading, x: seq<F32>, y: seq<F32>): real
    requires |x| == |y|
  {
    Sum(Terms(r, x, y), |x|)
  }

  lemma TermAt(r: Reading, x: seq<F32>, y: seq<F32>, i: nat)
    requires |x| == |y| && i < |x|
    ensures Terms(r, x, y)(i) == r.val(x[i]) * r.val(y[i])
  {}

  // ----- the lanes of a dot product -----

  function LaneTerms(f: Ops, r: Reading, x: seq<F32>, y: seq<F32>, n: nat): nat -> real
    requires |x| == |y| && n * DOT_LANES <= |x|
  {
    (l: nat) => if l < DOT_LANES then r.val(LaneSum(f, x, y, l, n)) else 0.0
  }

  lemma {:induction false} LanesHold(f: Ops, r: Reading, x: seq<F32>, y: seq<F32>, n: nat)
    requires Reads(f, r) && |x| == |y| && n * DOT_LANES <= |x|
    ensures Sum(LaneTerms(f, r, x, y, n), DOT_LANES) == Sum(Terms(r, x, y), n * DOT_LANES)
    decreases n
  {
    hide Reads, Sum;
    var terms, now := Terms(r, x, y), LaneTerms(f, r, x, y, n);
    ConstantsAre(f, r);
    if n == 0 {
      forall l: nat | l < DOT_LANES ensures now(l) == 0.0 { assert LaneSum(f, x, y, l, 0) == f.zero; }
      SumSame(now, _ => 0.0, DOT_LANES);
      ZeroSum(DOT_LANES);
      NoTerms(terms);
    } else {
      LanesHold(f, r, x, y, n - 1);
      var from := (n - 1) * DOT_LANES;
      var added := (l: nat) => terms(from + l);
      forall l: nat | l < DOT_LANES ensures now(l) == LaneTerms(f, r, x, y, n - 1)(l) + added(l) {
        assert from + l < |x|;
        assert LaneSum(f, x, y, l, n) == f.add(LaneSum(f, x, y, l, n - 1), f.mul(x[from + l], y[from + l]));
        MulIs(f, r, x[from + l], y[from + l]);
        AddIs(f, r, LaneSum(f, x, y, l, n - 1), f.mul(x[from + l], y[from + l]));
      }
      SumBoth(LaneTerms(f, r, x, y, n - 1), added, now, DOT_LANES);
      SumMore(terms, from, added, DOT_LANES);
      assert n * DOT_LANES == from + DOT_LANES;
    }
  }

  lemma NoTerms(a: nat -> real)
    ensures Sum(a, 0) == 0.0
  {}

  lemma {:induction false} ZeroSum(n: nat)
    ensures Sum(_ => 0.0, n) == 0.0
  {
    if n > 0 { ZeroSum(n - 1); }
  }

  lemma {:induction false} TailHolds(f: Ops, r: Reading, x: seq<F32>, y: seq<F32>, from: nat, n: nat)
    requires Reads(f, r) && from <= n <= |x| == |y|
    ensures Sum(Terms(r, x, y), from) + r.val(TailSum(f, x, y, from, n)) == Sum(Terms(r, x, y), n)
    decreases n
  {
    hide Reads;
    ConstantsAre(f, r);
    if n > from {
      TailHolds(f, r, x, y, from, n - 1);
      MulIs(f, r, x[n - 1], y[n - 1]);
      AddIs(f, r, TailSum(f, x, y, from, n - 1), f.mul(x[n - 1], y[n - 1]));
    }
  }

  lemma {:induction false} LanesAddUp(f: Ops, r: Reading, x: seq<F32>, y: seq<F32>, lanes: nat)
    requires Reads(f, r) && |x| == |y| && lanes <= DOT_LANES
    ensures var chunks := |x| / DOT_LANES;
      r.val(LanesAdded(f, x, y, lanes))
      == r.val(TailSum(f, x, y, chunks * DOT_LANES, |x|)) + Sum(LaneTerms(f, r, x, y, chunks), lanes)
    decreases lanes
  {
    hide Reads, LaneSum, TailSum;
    if lanes > 0 {
      LanesAddUp(f, r, x, y, lanes - 1);
      AddIs(f, r, LanesAdded(f, x, y, lanes - 1), LaneSum(f, x, y, lanes - 1, |x| / DOT_LANES));
    }
  }

  /** However the lanes are split, the dot product is the inner product. */
  lemma DotIsInner(f: Ops, r: Reading, x: seq<F32>, y: seq<F32>)
    requires Reads(f, r) && |x| == |y|
    ensures r.val(DotOf(f, x, y)) == Inner(r, x, y)
  {
    hide Reads, Sum, LaneTerms, LanesAdded, TailSum;
    var chunks := |x| / DOT_LANES;
    LanesAddUp(f, r, x, y, DOT_LANES);
    LanesHold(f, r, x, y, chunks);
    TailHolds(f, r, x, y, chunks * DOT_LANES, |x|);
  }

  // ----- softmax -----

  /** The exponentials of the scores. */
  function Exps(r: Reading, s: seq<F32>): nat -> real {
    (i: nat) => if i < |s| then r.exp(r.val(s[i])) else 1.0
  }

  lemma {:induction false} DenominatorIs(f: Ops, r: Reading, s: seq<F32>, n: nat)
    requires Reads(f, r) && n <= |s|
    ensures r.val(Denominator(f, s, n)) * r.exp(r.val(MaxOf(f, s, |s|))) == Sum(Exps(r, s), n)
    decreases n
  {
    hide Reads, MaxOf, Weight;
    ConstantsAre(f, r);
    var top := r.exp(r.val(MaxOf(f, s, |s|)));
    if n > 0 {
      DenominatorIs(f, r, s, n - 1);
      WeightIs(f, r, s, n - 1);
      AddIs(f, r, Denominator(f, s, n - 1), Weight(f, s, n - 1));
      Distributes(r.val(Denominator(f, s, n - 1)), r.val(Weight(f, s, n - 1)), top);
    }
  }

  lemma Distributes(a: real, b: real, c: real)
    ensures (a + b) * c == a * c + b * c
  {}

  lemma WeightIs(f: Ops, r: Reading, s: seq<F32>, i: nat)
    requires Reads(f, r) && i < |s|
    ensures r.val(Weight(f, s, i)) * r.exp(r.val(MaxOf(f, s, |s|))) == r.exp(r.val(s[i]))
  {
    hide Reads, MaxOf;
    var top := MaxOf(f, s, |s|);
    AddIs(f, r, s[i], top);
    ExpIs(f, r, f.sub(s[i], top));
    ExpShifts(f, r, r.val(s[i]), r.val(top));
  }

  lemma ExpsPositive(f: Ops, r: Reading, s: seq<F32>)
    requires Reads(f, r) && s != []
    ensures Sum(Exps(r, s), |s|) > 0.0
  {
    hide Reads, Sum;
    forall i: nat | i < |s| ensures Exps(r, s)(i) > 0.0 { ExpIs(f, r, s[i]); }
    SumPositive(Exps(r, s), |s|);
  }

  /** Each weight is its score's share of the exponentials: subtracting the
      largest score first changes nothing. */
  lemma SoftmaxIsShare(f: Ops, r: Reading, s: seq<F32>, i: nat)
    requires Reads(f, r) && i < |s|
    ensures Sum(Exps(r, s), |s|) > 0.0 && r.val(Softmax(f, s)[i]) == r.exp(r.val(s[i])) / Sum(Exps(r, s), |s|)
  {
    hide Reads, Sum, MaxOf, Weight, Denominator, Exps;
    var top, den, weight := r.exp(r.val(MaxOf(f, s, |s|))), r.val(Denominator(f, s, |s|)), r.val(Weight(f, s, i));
    ExpsPositive(f, r, s);
    ExpIs(f, r, MaxOf(f, s, |s|));
    DenominatorIs(f, r, s, |s|);
    WeightIs(f, r, s, i);
    SameShare(weight, den, top);
    DivIs(f, r, Weight(f, s, i), Denominator(f, s, |s|));
  }

  lemma SameShare(weight: real, den: real, top: real)
    requires top > 0.0 && den * top > 0.0
    ensures den != 0.0 && weight / den == (weight * top) / (den * top)
  {
    var share := weight / den;
    assert share * den == weight;
    assert share * (den * top) == weight * top;
  }

  /** The shares add up to one. */
  lemma SharesAddUp(f: Ops, r: Reading, s: seq<F32>)
    requires Reads(f, r) && s != []
    ensures Sum(Shares(f, r, s), |s|) == 1.0
  {
    hide Reads, Sum, Softmax, Exps;
    var total := Sum(Exps(r, s), |s|);
    ExpsPositive(f, r, s);
    forall i: nat | i < |s| ensures Shares(f, r, s)(i) == Exps(r, s)(i) * (1.0 / total) {
      SoftmaxIsShare(f, r, s, i);
      ExpsAt(r, s, i);
    }
    SumTimes(Exps(r, s), 1.0 / total, Shares(f, r, s), |s|);
  }

  lemma ExpsAt(r: Reading, s: seq<F32>, i: nat)
    requires i < |s|
    ensures Exps(r, s)(i) == r.exp(r.val(s[i]))
  {}

  function Shares(f: Ops, r: Reading, s: seq<F32>): nat -> real {
    (i: nat) => if i < |s| then r.val(Softmax(f, s)[i]) else 0.0
  }

  ghost predicate ReadsMax(f: Ops, r: Reading) {
    forall a, b :: r.val(f.max(a, b)) == if r.val(a) >= r.val(b) then r.val(a) else r.val(b)
  }

  /** What is subtracted is the largest score: no exponent is above zero, and one
      is zero. */
  lemma {:induction false} MaxIsLargest(f: Ops, r: Reading, s: seq<F32>, n: nat)
    requires ReadsMax(f, r) && n <= |s| && forall i :: 0 <= i < |s| ==> r.val(f.negInf) <= r.val(s[i])
    ensures forall i :: 0 <= i < n ==> r.val(s[i]) <= r.val(MaxOf(f, s, n))
    ensures n > 0 ==> exists i :: 0 <= i < n && r.val(s[i]) == r.val(MaxOf(f, s, n))
    decreases n
  {
    if n > 0 {
      MaxIsLargest(f, r, s, n - 1);
      assert r.val(MaxOf(f, s, n)) >= r.val(s[n - 1]) && r.val(MaxOf(f, s, n)) >= r.val(MaxOf(f, s, n - 1));
      if r.val(MaxOf(f, s, n)) != r.val(s[n - 1]) {
        assert n > 1;
        var i :| 0 <= i < n - 1 && r.val(s[i]) == r.val(MaxOf(f, s, n - 1));
        assert r.val(s[i]) == r.val(MaxOf(f, s, n));
      }
    }
  }

  // ----- attention -----

  /** The score of a query head against a cached position. */
  function ScoreOf(r: Reading, p: Pass, token: nat, head: nat, kvHead: nat, past: nat): real
    requires WellFormed(p) && token < p.rows && head < QueryHeads(p) && kvHead < p.kvHeads && past < Depth(p)
  {
    Inner(r, p.queries[token][head], KeyRow(p, past, kvHead)) * r.val(p.scale)
  }

  /** The mass of each position a token may attend to: those up to its own. */
  function Masses(r: Reading, p: Pass, token: nat, head: nat, kvHead: nat): nat -> real
    requires WellFormed(p) && token < p.rows && head < QueryHeads(p) && kvHead < p.kvHeads
  {
    (past: nat) => if past <= p.existing + token then r.exp(ScoreOf(r, p, token, head, kvHead, past)) else 0.0
  }

  /** The values of one column, by mass. */
  function Moments(r: Reading, p: Pass, token: nat, head: nat, kvHead: nat, column: nat): nat -> real
    requires WellFormed(p) && token < p.rows && head < QueryHeads(p) && kvHead < p.kvHeads && column < p.headDim
  {
    (past: nat) =>
      if past <= p.existing + token then
        r.exp(ScoreOf(r, p, token, head, kvHead, past)) * r.val(ValueRow(p, past, kvHead)[column])
      else 0.0
  }

  function Gate(r: Reading, x: F32): real
    requires 1.0 + r.exp(0.0 - r.val(x)) != 0.0
  {
    1.0 / (1.0 + r.exp(0.0 - r.val(x)))
  }

  lemma GateIs(f: Ops, r: Reading, x: F32)
    requires Reads(f, r)
    ensures 1.0 + r.exp(0.0 - r.val(x)) > 1.0 && r.val(Sigmoid(f, x)) == Gate(r, x)
  {
    hide Reads;
    ConstantsAre(f, r);
    ExpIs(f, r, x);
    ExpIs(f, r, f.neg(x));
    AddIs(f, r, f.one, f.exp(f.neg(x)));
    DivIs(f, r, f.one, f.add(f.one, f.exp(f.neg(x))));
  }

  lemma ScoreIs(f: Ops, r: Reading, p: Pass, token: nat, kvHead: nat, lane: nat, past: nat)
    requires Reads(f, r) && WellFormed(p) && token < p.rows && kvHead < p.kvHeads && lane < p.groups && past <= p.existing + token
    ensures r.val(Score(f, p, token, kvHead, lane, past)) == ScoreOf(r, p, token, HeadOf(p, kvHead, lane), kvHead, past)
  {
    hide Reads, DotOf, Inner, KeyRow;
    var query, key := p.queries[token][HeadOf(p, kvHead, lane)], KeyRow(p, past, kvHead);
    DotIsInner(f, r, query, key);
    MulIs(f, r, DotOf(f, query, key), p.scale);
  }

  lemma {:induction false} WeightedIs(f: Ops, r: Reading, p: Pass, token: nat, kvHead: nat, lane: nat, column: nat, n: nat)
    requires Reads(f, r) && WellFormed(p) && token < p.rows && kvHead < p.kvHeads && lane < p.groups && column < p.headDim
    requires n <= p.existing + token + 1
    ensures
      var s, head := Scores(f, p, token, kvHead, lane), HeadOf(p, kvHead, lane);
      Sum(Exps(r, s), |s|) > 0.0
      && r.val(WeightedSum(f, p, Softmax(f, s), kvHead, column, n))
         == Sum(Moments(r, p, token, head, kvHead, column), n) / Sum(Exps(r, s), |s|)
    decreases n
  {
    hide Reads, Softmax, Exps, Score, ScoreOf, KeyRow, ValueRow, WellFormed;
    var s, head := Scores(f, p, token, kvHead, lane), HeadOf(p, kvHead, lane);
    var total, moments := Sum(Exps(r, s), |s|), Moments(r, p, token, head, kvHead, column);
    ExpsPositive(f, r, s);
    ConstantsAre(f, r);
    if n > 0 {
      WeightedIs(f, r, p, token, kvHead, lane, column, n - 1);
      var w, v := Softmax(f, s)[n - 1], ValueRow(p, n - 1, kvHead)[column];
      SoftmaxIsShare(f, r, s, n - 1);
      ScoreIs(f, r, p, token, kvHead, lane, n - 1);
      MulIs(f, r, w, v);
      AddIs(f, r, WeightedSum(f, p, Softmax(f, s), kvHead, column, n - 1), f.mul(w, v));
      OneMoreShare(Sum(moments, n - 1), r.exp(r.val(s[n - 1])), r.val(v), total);
    }
  }

  lemma OneMoreShare(sum: real, mass: real, v: real, total: real)
    requires total > 0.0
    ensures sum / total + (mass / total) * v == (sum + mass * v) / total
  {
    assert (sum / total + (mass / total) * v) * total == sum + mass * v;
  }

  lemma MassesAre(f: Ops, r: Reading, p: Pass, token: nat, kvHead: nat, lane: nat)
    requires Reads(f, r) && WellFormed(p) && token < p.rows && kvHead < p.kvHeads && lane < p.groups
    ensures
      var s, head := Scores(f, p, token, kvHead, lane), HeadOf(p, kvHead, lane);
      Sum(Exps(r, s), |s|) == Sum(Masses(r, p, token, head, kvHead), p.existing + token + 1)
  {
    hide Reads, Score, ScoreOf, KeyRow, Sum, WellFormed;
    var s, head := Scores(f, p, token, kvHead, lane), HeadOf(p, kvHead, lane);
    forall past: nat | past < |s| ensures Exps(r, s)(past) == Masses(r, p, token, head, kvHead)(past) {
      ScoreIs(f, r, p, token, kvHead, lane, past);
    }
    SumSame(Exps(r, s), Masses(r, p, token, head, kvHead), |s|);
  }

  lemma AttendedIs(f: Ops, r: Reading, p: Pass, token: nat, kvHead: nat, lane: nat, column: nat)
    requires Reads(f, r) && WellFormed(p) && token < p.rows && kvHead < p.kvHeads && lane < p.groups && column < p.headDim
    ensures
      var n, head := p.existing + token + 1, HeadOf(p, kvHead, lane);
      var gate := p.gates[token][head][column];
      && Sum(Masses(r, p, token, head, kvHead), n) > 0.0 && 1.0 + r.exp(0.0 - r.val(gate)) > 1.0
      && r.val(Attended(f, p, token, kvHead, lane, column))
         == Sum(Moments(r, p, token, head, kvHead, column), n) / Sum(Masses(r, p, token, head, kvHead), n) * Gate(r, gate)
  {
    hide Reads, Softmax, Sigmoid, WeightedSum, Masses, Moments, Sum, Exps, Scores, Gate;
    var s, n, head := Scores(f, p, token, kvHead, lane), p.existing + token + 1, HeadOf(p, kvHead, lane);
    var w, gate := Softmax(f, s), p.gates[token][head][column];
    WeightedIs(f, r, p, token, kvHead, lane, column, n);
    MassesAre(f, r, p, token, kvHead, lane);
    GateIs(f, r, gate);
    MulIs(f, r, WeightedSum(f, p, w, kvHead, column, n), Sigmoid(f, gate));
  }

  /** Softmax attention by its plain formula: each output element is the mean of
      its column over the positions up to the token's own, by the exponentials
      of their scaled scores, times the gate. A query head reads the key-value
      head of its own run of `groups` heads. */
  lemma OutputIsAttention(f: Ops, r: Reading, p: Pass, token: nat, head: nat, kvHead: nat, column: nat)
    requires Reads(f, r) && WellFormed(p) && token < p.rows && kvHead < p.kvHeads && column < p.headDim
    requires kvHead * p.groups <= head < kvHead * p.groups + p.groups && head < QueryHeads(p)
    ensures At(At(token, QueryHeads(p), head), p.headDim, column) < |Expected(f, p)|
    ensures
      var n, gate := p.existing + token + 1, p.gates[token][head][column];
      && Sum(Masses(r, p, token, head, kvHead), n) > 0.0 && 1.0 + r.exp(0.0 - r.val(gate)) > 1.0
      && r.val(Expected(f, p)[At(At(token, QueryHeads(p), head), p.headDim, column)])
         == Sum(Moments(r, p, token, head, kvHead, column), n) / Sum(Masses(r, p, token, head, kvHead), n) * Gate(r, gate)
  {
    hide Reads, Attended, Masses, Moments, Sum, WellFormed, Gate, Expected, At;
    var lane := head - kvHead * p.groups;
    LaneIs(p, kvHead, lane);
    OutputAtIs(f, p, token, kvHead, lane, column);
    AttendedIs(f, r, p, token, kvHead, lane, column);
  }

  lemma LaneIs(p: Pass, kvHead: nat, lane: nat)
    requires kvHead < p.kvHeads && lane < p.groups
    ensures HeadOf(p, kvHead, lane) == kvHead * p.groups + lane
  {}

  lemma OutputAtIs(f: Ops, p: Pass, token: nat, kvHead: nat, lane: nat, column: nat)
    requires WellFormed(p) && token < p.rows && kvHead < p.kvHeads && lane < p.groups && column < p.headDim
    ensures
      var i := At(At(token, QueryHeads(p), HeadOf(p, kvHead, lane)), p.headDim, column);
      i < OutLength(p) && Expected(f, p)[i] == Attended(f, p, token, kvHead, lane, column)
  {
    hide Attended;
    var head := HeadOf(p, kvHead, lane);
    var row := At(token, QueryHeads(p), head);
    AtFits(token, p.rows, QueryHeads(p), head);
    AtFits(row, Size(p.rows, QueryHeads(p)), p.headDim, column);
    AtInverse(row, p.headDim, column);
    AtInverse(token, QueryHeads(p), head);
    AtInverse(kvHead, p.groups, lane);
  }

  // ----- the delta rule -----

  lemma {:induction false} PredictionIs(f: Ops, r: Reading, column: seq<F32>, k: seq<F32>, n: nat)
    requires Reads(f, r) && n <= |column| == |k|
    ensures r.val(D.Prediction(f, column, k, n)) == Sum(Terms(r, column, k), n)
    decreases n
  {
    hide Reads;
    ConstantsAre(f, r);
    if n > 0 {
      PredictionIs(f, r, column, k, n - 1);
      MulIs(f, r, column[n - 1], k[n - 1]);
      AddIs(f, r, D.Prediction(f, column, k, n - 1), f.mul(column[n - 1], k[n - 1]));
    }
  }

  /** A head's answer is the scaled inner product of its query with the column. */
  lemma {:induction false} AnswerIs(f: Ops, r: Reading, column: seq<F32>, q: seq<F32>, scale: F32, n: nat)
    requires Reads(f, r) && n <= |column| == |q|
    ensures r.val(D.Answer(f, column, q, scale, n)) == Sum(Terms(r, column, q), n) * r.val(scale)
    decreases n
  {
    hide Reads;
    ConstantsAre(f, r);
    if n > 0 {
      AnswerIs(f, r, column, q, scale, n - 1);
      var x := f.mul(column[n - 1], q[n - 1]);
      MulIs(f, r, column[n - 1], q[n - 1]);
      MulIs(f, r, x, scale);
      AddIs(f, r, D.Answer(f, column, q, scale, n - 1), f.mul(x, scale));
      Distributes(Sum(Terms(r, column, q), n - 1), r.val(x), r.val(scale));
    }
  }

  lemma DecayedInner(f: Ops, r: Reading, g: F32, column: seq<F32>, x: seq<F32>)
    requires Reads(f, r) && |column| == |x|
    ensures Inner(r, D.Decayed(f, g, column), x) == Inner(r, column, x) * r.exp(r.val(g))
  {
    hide Reads, Sum;
    var after := D.Decayed(f, g, column);
    forall i: nat | i < |x| ensures Terms(r, after, x)(i) == Terms(r, column, x)(i) * r.exp(r.val(g)) {
      MulIs(f, r, column[i], f.exp(g));
      ExpIs(f, r, g);
      Swapped(r.val(column[i]), r.exp(r.val(g)), r.val(x[i]));
    }
    SumTimes(Terms(r, column, x), r.exp(r.val(g)), Terms(r, after, x), |x|);
  }

  lemma Swapped(a: real, b: real, c: real)
    ensures (a * b) * c == (a * c) * b
  {}

  lemma CorrectedInner(f: Ops, r: Reading, h: D.HeadInput, j: nat, column: seq<F32>, x: seq<F32>)
    requires Reads(f, r) && |column| == |h.k| == |x| && j < |h.v|
    ensures Inner(r, D.Corrected(f, h, j, column), x)
         == Inner(r, column, x) + Inner(r, h.k, x) * ((r.val(h.v[j]) - Inner(r, column, h.k)) * r.val(h.beta))
  {
    hide Reads, Sum, Terms, D.Prediction;
    var after, delta := D.Corrected(f, h, j, column), D.Delta(f, h, j, column);
    PredictionIs(f, r, column, h.k, |h.k|);
    AddIs(f, r, h.v[j], D.Prediction(f, column, h.k, |h.k|));
    MulIs(f, r, f.sub(h.v[j], D.Prediction(f, column, h.k, |h.k|)), h.beta);
    var push := (i: nat) => Terms(r, h.k, x)(i) * r.val(delta);
    forall i: nat | i < |x| ensures Terms(r, after, x)(i) == Terms(r, column, x)(i) + push(i) {
      Pushed(f, r, column[i], h.k[i], delta, x[i]);
      assert after[i] == f.add(column[i], f.mul(h.k[i], delta));
      TermAt(r, after, x, i);
      TermAt(r, column, x, i);
      TermAt(r, h.k, x, i);
    }
    SumBoth(Terms(r, column, x), push, Terms(r, after, x), |x|);
    SumTimes(Terms(r, h.k, x), r.val(delta), push, |x|);
  }

  lemma Pushed(f: Ops, r: Reading, c: F32, k: F32, delta: F32, x: F32)
    requires Reads(f, r)
    ensures r.val(f.add(c, f.mul(k, delta))) * r.val(x) == r.val(c) * r.val(x) + (r.val(k) * r.val(x)) * r.val(delta)
  {
    hide Reads;
    MulIs(f, r, k, delta);
    AddIs(f, r, c, f.mul(k, delta));
    Distributes(r.val(c), r.val(k) * r.val(delta), r.val(x));
    Swapped(r.val(k), r.val(delta), r.val(x));
  }

  /** What any probe reads from column `j` after a step: the decayed old reading,
      plus the probe's overlap with the key times the corrected error. */
  lemma StepReads(f: Ops, r: Reading, h: D.HeadInput, columns: seq<seq<F32>>, j: nat, x: seq<F32>)
    requires Reads(f, r) && D.Fits(h, columns) && j < |columns| && |x| == |h.k|
    ensures
      var decay, before := r.exp(r.val(h.g)), columns[j];
      Inner(r, D.Stepped(f, h, columns)[j], x)
      == Inner(r, before, x) * decay
         + Inner(r, h.k, x) * ((r.val(h.v[j]) - Inner(r, before, h.k) * decay) * r.val(h.beta))
  {
    hide Reads, Inner, D.Decayed, D.Corrected;
    var decayed := D.Decayed(f, h.g, columns[j]);
    DecayedInner(f, r, h.g, columns[j], x);
    DecayedInner(f, r, h.g, columns[j], h.k);
    CorrectedInner(f, r, h, j, decayed, x);
  }

  /** The delta rule's promise: written in full under a unit key, the value is
      what the key reads back, whatever was there; and a probe that has nothing
      in common with the key reads what it read, decayed. */
  lemma DeltaRule(f: Ops, r: Reading, h: D.HeadInput, columns: seq<seq<F32>>, j: nat, x: seq<F32>)
    requires Reads(f, r) && D.Fits(h, columns) && j < |columns| && |x| == |h.k|
    ensures
      var after := D.Stepped(f, h, columns)[j];
      && (Inner(r, h.k, h.k) == 1.0 && r.val(h.beta) == 1.0 ==> Inner(r, after, h.k) == r.val(h.v[j]))
      && (Inner(r, h.k, x) == 0.0 ==> Inner(r, after, x) == Inner(r, columns[j], x) * r.exp(r.val(h.g)))
  {
    hide Reads, Inner, D.Stepped;
    StepReads(f, r, h, columns, j, h.k);
    StepReads(f, r, h, columns, j, x);
  }

  /** And a head's output is what its query reads, scaled. */
  lemma HeadOutputIs(f: Ops, r: Reading, h: D.HeadInput, columns: seq<seq<F32>>, scale: F32, j: nat)
    requires Reads(f, r) && D.Fits(h, columns) && j < |columns|
    ensures r.val(D.HeadOutput(f, h, columns, scale)[j]) == Inner(r, D.Stepped(f, h, columns)[j], h.q) * r.val(scale)
  {
    hide Reads, Sum, D.Stepped, D.Answer;
    AnswerIs(f, r, D.Stepped(f, h, columns)[j], h.q, scale, |h.k|);
  }

  // ----- the convolution -----

  /** A tap sum is the inner product of the taps with the window and the newest
      input after it. */
  lemma TapSumIs(f: Ops, r: Reading, weights: seq<F32>, window: seq<F32>, x: F32)
    requires Reads(f, r) && |weights| == |window| + 1
    ensures r.val(C.TapSum(f, weights, window, x, |window|)) == Inner(r, weights, window + [x])
  {
    hide Reads, Terms;
    TapsHold(f, r, weights, window, x, |window|);
    TermAt(r, weights, window + [x], |window|);
  }

  lemma {:induction false} TapsHold(f: Ops, r: Reading, weights: seq<F32>, window: seq<F32>, x: F32, n: nat)
    requires Reads(f, r) && |weights| == |window| + 1 && n <= |window|
    ensures r.val(C.TapSum(f, weights, window, x, n))
         == Sum(Terms(r, weights, window + [x]), n) + r.val(weights[|window|]) * r.val(x)
    decreases n
  {
    hide Reads, Terms, Sum;
    var full := window + [x];
    var terms := Terms(r, weights, full);
    if n == 0 {
      MulIs(f, r, weights[|window|], x);
      NoTerms(terms);
    } else {
      TapsHold(f, r, weights, window, x, n - 1);
      SumStep(terms, n);
      TermAt(r, weights, full, n - 1);
      assert full[n - 1] == window[n - 1];
      MulIs(f, r, weights[n - 1], window[n - 1]);
      AddIs(f, r, C.TapSum(f, weights, window, x, n - 1), f.mul(weights[n - 1], window[n - 1]));
    }
  }

  lemma SumStep(a: nat -> real, n: nat)
    requires n > 0
    ensures Sum(a, n) == Sum(a, n - 1) + a(n - 1)
  {}

  function SiluOf(r: Reading, y: real): real
    requires 1.0 + r.exp(0.0 - y) != 0.0
  {
    y * (1.0 / (1.0 + r.exp(0.0 - y)))
  }

  /** What a channel streams: the activated inner product of its taps with its
      last inputs, zeros before the first. */
  lemma StreamIsConvolution(f: Ops, r: Reading, inputs: seq<seq<F32>>, channels: nat, weights: seq<F32>, kernel: pos,
                            prior: seq<seq<F32>>, t: nat, channel: nat)
    requires Reads(f, r)
    requires |weights| == Size(channels, kernel) && Even(inputs, channels) && t < |inputs| && channel < channels
    requires |prior| == kernel - 1 && (forall i :: 0 <= i < |prior| ==> prior[i] == seq(channels, _ => f.zero))
    ensures |inputs[t]| == channels == |C.StreamedAt(f, inputs, channels, weights, kernel, prior, t)|
    ensures
      var window := C.PaddedWindow(f, inputs, channels, kernel, t, channel) + [inputs[t][channel]];
      var y := Inner(r, C.WeightRow(weights, channels, kernel, channel), window);
      1.0 + r.exp(0.0 - y) > 1.0
      && r.val(C.StreamedAt(f, inputs, channels, weights, kernel, prior, t)[channel]) == SiluOf(r, y)
  {
    hide Reads, Inner, C.TapSum, C.StreamedAt, C.WeightRow, C.PaddedWindow, Sigmoid;
    C.StreamIsWindowed(f, inputs, channels, weights, kernel, prior, t, channel);
    var row, window := C.WeightRow(weights, channels, kernel, channel), C.PaddedWindow(f, inputs, channels, kernel, t, channel);
    var sum := C.TapSum(f, row, window, inputs[t][channel], kernel - 1);
    TapSumIs(f, r, row, window, inputs[t][channel]);
    GateIs(f, r, sum);
    MulIs(f, r, sum, Sigmoid(f, sum));
  }

  // ----- the matrix product -----

  function PairTerms(pair: (M.WeightBlock, M.InputBlock) -> real, weights: seq<M.WeightBlock>, inputs: seq<M.InputBlock>): nat -> real {
    (i: nat) => if i < |weights| && i < |inputs| then pair(weights[i], inputs[i]) else 0.0
  }

  /** Where taking in a pair of blocks adds its product, the fold is the sum over
      all pairs, each weight block with the input block of its own place. */
  lemma {:induction false} FoldedIsSum(f: M.Kernel, val: M.Accumulator -> real, pair: (M.WeightBlock, M.InputBlock) -> real,
                                       weights: seq<M.WeightBlock>, inputs: seq<M.InputBlock>, n: nat)
    requires val(f.start) == 0.0 && forall a, w, x :: val(f.step(a, w, x)) == val(a) + pair(w, x)
    requires n <= |weights| && n <= |inputs|
    ensures val(M.Folded(f, weights, inputs, n)) == Sum(PairTerms(pair, weights, inputs), n)
    decreases n
  {
    if n > 0 { FoldedIsSum(f, val, pair, weights, inputs, n - 1); }
  }
}
