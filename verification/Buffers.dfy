/** Uninterpreted floating-point arithmetic, and the flat buffers the kernels
    fill in place: grids of `[item][lane]` cells and planes of such grids. */
module Buffers {
  import opened Indexing

  type F32(==,!new)

  /** What the machine's arithmetic does; no algebraic law is assumed. */
  datatype Ops = Ops(
    add: (F32, F32) -> F32, sub: (F32, F32) -> F32, mul: (F32, F32) -> F32, div: (F32, F32) -> F32,
    max: (F32, F32) -> F32, exp: F32 -> F32, neg: F32 -> F32,
    zero: F32, one: F32, negInf: F32, emptySum: F32)

  function Sigmoid(f: Ops, x: F32): F32 { f.div(f.one, f.add(f.one, f.exp(f.neg(x)))) }

  ghost predicate OutsideSame(x: seq<F32>, y: seq<F32>, lo: nat, hi: nat) {
    |x| == |y| && forall i :: 0 <= i < |x| && !(lo <= i < hi) ==> x[i] == y[i]
  }

  lemma OutsideSelf(x: seq<F32>, lo: nat, hi: nat)
    ensures OutsideSame(x, x, lo, hi)
  {}

  lemma OutsideChain(x: seq<F32>, y: seq<F32>, z: seq<F32>, lo: nat, hi: nat)
    requires OutsideSame(x, y, lo, hi) && OutsideSame(y, z, lo, hi)
    ensures OutsideSame(x, z, lo, hi)
  {}

  lemma OutsideWiden(x: seq<F32>, y: seq<F32>, lo: nat, hi: nat, top: nat)
    requires OutsideSame(x, y, lo, hi) && hi <= top
    ensures OutsideSame(x, y, lo, top)
  {}

  /** Cells `from..to` of the grid at `at` hold `want[lane][item]`. */
  ghost predicate Grid(buf: seq<F32>, at: nat, want: seq<seq<F32>>, from: nat, to: nat) {
    forall l, i :: 0 <= l < |want| && from <= i < to && i < |want[l]| ==>
      at + At(i, |want|, l) < |buf| && buf[at + At(i, |want|, l)] == want[l][i]
  }

  ghost predicate Even(want: seq<seq<F32>>, n: nat) {
    forall l :: 0 <= l < |want| ==> |want[l]| == n
  }

  lemma GridEmpty(x: seq<F32>, at: nat, want: seq<seq<F32>>, k: nat)
    ensures Grid(x, at, want, k, k)
  {}

  lemma GridKept(x: seq<F32>, y: seq<F32>, at: nat, want: seq<seq<F32>>, from: nat, to: nat, lo: nat, hi: nat)
    requires Grid(x, at, want, from, to) && OutsideSame(x, y, lo, hi)
    requires at + to * |want| <= lo || hi <= at + from * |want|
    ensures Grid(y, at, want, from, to)
  {
    forall l, i | 0 <= l < |want| && from <= i < to && i < |want[l]|
      ensures at + At(i, |want|, l) < |y| && y[at + At(i, |want|, l)] == want[l][i]
    {
      AtFits(i, to, |want|, l);
      ProductGrows(from, i, |want|);
    }
  }

  /** One more item of the grid has been written. */
  lemma GridGrows(x: seq<F32>, y: seq<F32>, at: nat, want: seq<seq<F32>>, from: nat, k: nat)
    requires from <= k && Grid(x, at, want, from, k)
    requires OutsideSame(x, y, at + k * |want|, at + k * |want| + |want|) && at + k * |want| + |want| <= |y|
    requires forall l :: 0 <= l < |want| && k < |want[l]| ==> y[at + k * |want| + l] == want[l][k]
    ensures Grid(y, at, want, from, k + 1)
  {
    GridKept(x, y, at, want, from, k, at + k * |want|, at + k * |want| + |want|);
    forall l, i | 0 <= l < |want| && from <= i < k + 1 && i < |want[l]|
      ensures at + At(i, |want|, l) < |y| && y[at + At(i, |want|, l)] == want[l][i]
    {
      if i == k { assert at + At(i, |want|, l) == at + k * |want| + l; }
    }
  }

  lemma GridAt(x: seq<F32>, at: nat, want: seq<seq<F32>>, from: nat, to: nat, k: nat)
    requires Grid(x, at, want, from, to) && from <= k < to
    ensures forall l :: 0 <= l < |want| && k < |want[l]| ==>
      at + k * |want| + l < |x| && x[at + k * |want| + l] == want[l][k]
  {
    forall l | 0 <= l < |want| && k < |want[l]|
      ensures at + k * |want| + l < |x| && x[at + k * |want| + l] == want[l][k]
    {
      assert at + At(k, |want|, l) == at + k * |want| + l;
    }
  }

  lemma GridWhole(x: seq<F32>, at: nat, want: seq<seq<F32>>, n: nat, items: nat)
    requires Even(want, n) && n <= items
    ensures Grid(x, at, want, 0, n) <==> Grid(x, at, want, 0, items)
  {}

  /** One more item rewritten in place: the items before it hold `done`, those after it `rest`. */
  lemma InPlaceStep(first: seq<F32>, x: seq<F32>, y: seq<F32>, at: nat, done: seq<seq<F32>>, rest: seq<seq<F32>>,
                    from: nat, k: nat, n: nat, lo: nat, hi: nat)
    requires |done| == |rest| && from <= k < n && Grid(x, at, done, from, k) && Grid(x, at, rest, k, n)
    requires OutsideSame(first, x, lo, hi) && lo <= at + k * |done| && at + k * |done| + |done| <= hi
    requires OutsideSame(x, y, at + k * |done|, at + k * |done| + |done|) && at + k * |done| + |done| <= |y|
    requires forall l :: 0 <= l < |done| && k < |done[l]| ==> y[at + k * |done| + l] == done[l][k]
    ensures OutsideSame(first, y, lo, hi)
    ensures Grid(y, at, done, from, k + 1) && Grid(y, at, rest, k + 1, n)
  {
    GridGrows(x, y, at, done, from, k);
    assert Grid(x, at, rest, k + 1, n);
    GridKept(x, y, at, rest, k + 1, n, at + k * |done|, at + k * |done| + |done|);
  }

  lemma SizeIs(items: nat, lanes: nat)
    ensures Size(items, lanes) == items * lanes
  {}

  /** Where plane `k` starts. */
  function Start(k: nat, items: nat, lanes: nat): nat { k * Size(items, lanes) }

  /** Planes `from..to`, `items` by `lanes` cells each, hold what is wanted. */
  ghost predicate Planes(buf: seq<F32>, items: nat, lanes: nat, wants: seq<seq<seq<F32>>>, from: nat, to: nat) {
    forall i :: from <= i < to && i < |wants| ==> |wants[i]| == lanes && Grid(buf, Start(i, items, lanes), wants[i], 0, items)
  }

  lemma Apart(i: nat, k: nat, items: nat, lanes: nat)
    requires i != k
    ensures Start(i, items, lanes) + Size(items, lanes) <= Start(k, items, lanes)
         || Start(k, items, lanes) + Size(items, lanes) <= Start(i, items, lanes)
  {
    if i < k { ProductGrows(i + 1, k, Size(items, lanes)); } else { ProductGrows(k + 1, i, Size(items, lanes)); }
  }

  lemma PlaneKept(x: seq<F32>, y: seq<F32>, at: nat, want: seq<seq<F32>>, items: nat, lo: nat, hi: nat)
    requires Grid(x, at, want, 0, items) && OutsideSame(x, y, lo, hi)
    requires at + Size(items, |want|) <= lo || hi <= at
    ensures Grid(y, at, want, 0, items)
  {
    GridKept(x, y, at, want, 0, items, lo, hi);
  }

  lemma PlanesKept(x: seq<F32>, y: seq<F32>, items: nat, lanes: nat, wants: seq<seq<seq<F32>>>, from: nat, to: nat, k: nat)
    requires Planes(x, items, lanes, wants, from, to) && (k < from || to <= k)
    requires OutsideSame(x, y, Start(k, items, lanes), Start(k, items, lanes) + Size(items, lanes))
    ensures Planes(y, items, lanes, wants, from, to)
  {
    hide Grid, Size, Start, OutsideSame;
    var size := Size(items, lanes);
    forall i | from <= i < to && i < |wants| ensures |wants[i]| == lanes && Grid(y, Start(i, items, lanes), wants[i], 0, items) {
      Apart(i, k, items, lanes);
      PlaneKept(x, y, Start(i, items, lanes), wants[i], items, Start(k, items, lanes), Start(k, items, lanes) + size);
    }
  }

  /** One more plane has been rewritten. */
  lemma PlaneStep(x: seq<F32>, y: seq<F32>, items: nat, lanes: nat, done: seq<seq<seq<F32>>>, rest: seq<seq<seq<F32>>>,
                  k: nat, planes: nat)
    requires k < planes && k < |done| && Planes(x, items, lanes, done, 0, k) && Planes(x, items, lanes, rest, k, planes)
    requires OutsideSame(x, y, Start(k, items, lanes), Start(k, items, lanes) + Size(items, lanes))
    requires |done[k]| == lanes && Grid(y, Start(k, items, lanes), done[k], 0, items)
    ensures Planes(y, items, lanes, done, 0, k + 1) && Planes(y, items, lanes, rest, k + 1, planes)
  {
    PlanesKept(x, y, items, lanes, done, 0, k, k);
    assert Planes(x, items, lanes, rest, k + 1, planes);
    PlanesKept(x, y, items, lanes, rest, k + 1, planes, k);
  }

  lemma NoPlanes(x: seq<F32>, items: nat, lanes: nat, wants: seq<seq<seq<F32>>>, k: nat)
    ensures Planes(x, items, lanes, wants, k, k)
    ensures forall to :: Planes(x, items, lanes, [], k, to)
  {}

  lemma PlaneAt(x: seq<F32>, items: nat, lanes: nat, wants: seq<seq<seq<F32>>>, from: nat, to: nat, k: nat)
    requires Planes(x, items, lanes, wants, from, to) && from <= k < to && k < |wants|
    ensures |wants[k]| == lanes && Grid(x, Start(k, items, lanes), wants[k], 0, items)
  {}

  lemma PlanesAre(x: seq<F32>, items: nat, lanes: nat, wants: seq<seq<seq<F32>>>)
    requires forall k :: 0 <= k < |wants| ==> |wants[k]| == lanes && Grid(x, Start(k, items, lanes), wants[k], 0, items)
    ensures Planes(x, items, lanes, wants, 0, |wants|)
  {}

  lemma PlaneBounds(k: nat, planes: nat, items: nat, lanes: nat, n: nat)
    requires k < planes && n <= items
    ensures Size(n, lanes) <= Size(items, lanes) && Start(k, items, lanes) + Size(items, lanes) <= Start(planes, items, lanes)
  {
    ProductGrows(n, items, lanes);
    ProductGrows(k + 1, planes, Size(items, lanes));
  }
}
