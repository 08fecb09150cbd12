/** The gated delta rule: the row-by-row traversal of a head's state against the
    strided column-at-a-time reference, over any order of heads. */
module DeltaNet {
  import opened Indexing
  import opened Buffers

  /** One head's query, key, value, decay exponent and beta. */
  datatype HeadInput = HeadInput(q: seq<F32>, k: seq<F32>, v: seq<F32>, g: F32, beta: F32)

  predicate Shaped(h: HeadInput, keyDim: nat, valueDim: nat) {
    |h.q| == |h.k| == keyDim && |h.v| == valueDim
  }

  // ----- one column of the state: the reference recurrence -----

  function Decayed(f: Ops, g: F32, column: seq<F32>): (r: seq<F32>)
    ensures |r| == |column|
  {
    seq(|column|, i requires 0 <= i < |column| => f.mul(column[i], f.exp(g)))
  }

  function Prediction(f: Ops, column: seq<F32>, k: seq<F32>, n: nat): F32
    requires n <= |column| == |k|
  {
    if n == 0 then f.zero else f.add(Prediction(f, column, k, n - 1), f.mul(column[n - 1], k[n - 1]))
  }

  /** The correction of column `j`, from the decayed column. */
  function Delta(f: Ops, h: HeadInput, j: nat, column: seq<F32>): F32
    requires |column| == |h.k| && j < |h.v|
  {
    f.mul(f.sub(h.v[j], Prediction(f, column, h.k, |h.k|)), h.beta)
  }

  function Corrected(f: Ops, h: HeadInput, j: nat, column: seq<F32>): (r: seq<F32>)
    requires |column| == |h.k| && j < |h.v|
    ensures |r| == |column|
  {
    seq(|column|, i requires 0 <= i < |column| => f.add(column[i], f.mul(h.k[i], Delta(f, h, j, column))))
  }

  function Answer(f: Ops, column: seq<F32>, q: seq<F32>, scale: F32, n: nat): F32
    requires n <= |column| == |q|
  {
    if n == 0 then f.zero else f.add(Answer(f, column, q, scale, n - 1), f.mul(f.mul(column[n - 1], q[n - 1]), scale))
  }

  // ----- all the columns of a head -----

  ghost predicate Fits(h: HeadInput, columns: seq<seq<F32>>) {
    Shaped(h, |h.k|, |columns|) && Even(columns, |h.k|)
  }

  function DecayedAll(f: Ops, h: HeadInput, columns: seq<seq<F32>>): (r: seq<seq<F32>>)
    requires Fits(h, columns)
    ensures Fits(h, r) && |r| == |columns|
  {
    seq(|columns|, j requires 0 <= j < |columns| => Decayed(f, h.g, columns[j]))
  }

  function CorrectedAll(f: Ops, h: HeadInput, columns: seq<seq<F32>>): (r: seq<seq<F32>>)
    requires Fits(h, columns)
    ensures Fits(h, r) && |r| == |columns|
  {
    seq(|columns|, j requires 0 <= j < |columns| => Corrected(f, h, j, columns[j]))
  }

  /** A head's state after the step. */
  function Stepped(f: Ops, h: HeadInput, columns: seq<seq<F32>>): (r: seq<seq<F32>>)
    requires Fits(h, columns)
    ensures Fits(h, r) && |r| == |columns|
  {
    CorrectedAll(f, h, DecayedAll(f, h, columns))
  }

  function Predictions(f: Ops, h: HeadInput, columns: seq<seq<F32>>, n: nat): (r: seq<F32>)
    requires Fits(h, columns) && n <= |h.k|
    ensures |r| == |columns|
  {
    seq(|columns|, j requires 0 <= j < |columns| => Prediction(f, columns[j], h.k, n))
  }

  function Deltas(f: Ops, h: HeadInput, columns: seq<seq<F32>>): (r: seq<F32>)
    requires Fits(h, columns)
    ensures |r| == |columns|
  {
    seq(|columns|, j requires 0 <= j < |columns| => Delta(f, h, j, columns[j]))
  }

  function Answers(f: Ops, h: HeadInput, columns: seq<seq<F32>>, scale: F32, n: nat): (r: seq<F32>)
    requires Fits(h, columns) && n <= |h.k|
    ensures |r| == |columns|
  {
    seq(|columns|, j requires 0 <= j < |columns| => Answer(f, columns[j], h.q, scale, n))
  }

  /** A head's output row. */
  function HeadOutput(f: Ops, h: HeadInput, columns: seq<seq<F32>>, scale: F32): (r: seq<F32>)
    requires Fits(h, columns)
    ensures |r| == |columns|
  {
    Answers(f, h, Stepped(f, h, columns), scale, |h.k|)
  }

  // ----- the row-by-row step -----

  method DecayState(f: Ops, h: HeadInput, state: array<F32>, at: nat, ghost columns: seq<seq<F32>>)
    requires Fits(h, columns) && Grid(state[..], at, columns, 0, |h.k|) && at + Size(|h.k|, |h.v|) <= state.Length
    modifies state
    ensures OutsideSame(old(state[..]), state[..], at, at + Size(|h.k|, |h.v|))
    ensures Grid(state[..], at, DecayedAll(f, h, columns), 0, |h.k|)
  {
    hide Grid, Size;
    var n := Size(|h.k|, |h.v|);
    var decay := f.exp(h.g);
    for x := 0 to n
      invariant OutsideSame(old(state[..]), state[..], at, at + x)
      invariant forall y :: at <= y < at + x ==> state[y] == f.mul(old(state[..])[y], decay)
    {
      state[at + x] := f.mul(state[at + x], decay);
    }
    DecayedGrid(f, h, old(state[..]), state[..], at, columns);
  }

  lemma DecayedGrid(f: Ops, h: HeadInput, x: seq<F32>, y: seq<F32>, at: nat, columns: seq<seq<F32>>)
    requires Fits(h, columns) && Grid(x, at, columns, 0, |h.k|) && |x| == |y| && at + Size(|h.k|, |h.v|) <= |x|
    requires forall i :: at <= i < at + Size(|h.k|, |h.v|) ==> y[i] == f.mul(x[i], f.exp(h.g))
    ensures Grid(y, at, DecayedAll(f, h, columns), 0, |h.k|)
  {
    var after := DecayedAll(f, h, columns);
    forall l, i | 0 <= l < |after| && 0 <= i < |h.k| && i < |after[l]|
      ensures at + At(i, |after|, l) < |y| && y[at + At(i, |after|, l)] == after[l][i]
    {
      AtFits(i, |h.k|, |after|, l);
    }
  }

  method Clear(f: Ops, out: array<F32>, at: nat, n: nat)
    requires at + n <= out.Length
    modifies out
    ensures OutsideSame(old(out[..]), out[..], at, at + n)
    ensures out[at..at + n] == seq(n, _ => f.zero)
  {
    ghost var zeros := seq(n, _ => f.zero);
    for j := 0 to n
      invariant OutsideSame(old(out[..]), out[..], at, at + n)
      invariant forall x :: 0 <= x < j ==> out[at + x] == zeros[x]
    {
      out[at + j] := f.zero;
    }
  }

  /** Add one state row, times the key, to every column's prediction. */
  method PredictRow(f: Ops, h: HeadInput, i: nat, row: seq<F32>, out: array<F32>, at: nat, ghost columns: seq<seq<F32>>)
    requires Fits(h, columns) && i < |h.k| && |row| == |columns| && at + |row| <= out.Length
    requires forall j :: 0 <= j < |columns| ==> row[j] == columns[j][i]
    requires out[at..at + |row|] == Predictions(f, h, columns, i)
    modifies out
    ensures OutsideSame(old(out[..]), out[..], at, at + |row|)
    ensures out[at..at + |row|] == Predictions(f, h, columns, i + 1)
  {
    ghost var was, now := Predictions(f, h, columns, i), Predictions(f, h, columns, i + 1);
    for j := 0 to |row|
      invariant OutsideSame(old(out[..]), out[..], at, at + j)
      invariant forall x :: 0 <= x < j ==> out[at + x] == now[x]
    {
      assert out[at + j] == old(out[..])[at + j] == old(out[at..at + |row|])[j] == was[j];
      out[at + j] := f.add(out[at + j], f.mul(row[j], h.k[i]));
    }
  }

  method Predict(f: Ops, h: HeadInput, state: array<F32>, at: nat, out: array<F32>, outAt: nat, ghost columns: seq<seq<F32>>)
    requires Fits(h, columns) && Grid(state[..], at, columns, 0, |h.k|) && at + Size(|h.k|, |h.v|) <= state.Length
    requires state != out && outAt + |h.v| <= out.Length
    modifies out
    ensures OutsideSame(old(out[..]), out[..], outAt, outAt + |h.v|)
    ensures out[outAt..outAt + |h.v|] == Predictions(f, h, columns, |h.k|)
  {
    hide Grid, OutsideSame, Predictions;
    var vd := |h.v|;
    Clear(f, out, outAt, vd);
    NothingPredicted(f, h, columns);
    for i := 0 to |h.k|
      invariant OutsideSame(old(out[..]), out[..], outAt, outAt + vd)
      invariant out[outAt..outAt + vd] == Predictions(f, h, columns, i)
    {
      RowBounds(i, |h.k|, vd);
      GridAt(state[..], at, columns, 0, |h.k|, i);
      var row := state[at + i * vd..at + i * vd + vd];
      RowOfGrid(state[..], at, columns, i);
      ghost var before := out[..];
      PredictRow(f, h, i, row, out, outAt, columns);
      OutsideChain(old(out[..]), before, out[..], outAt, outAt + vd);
    }
  }

  lemma RowBounds(i: nat, rows: nat, width: nat)
    requires i < rows
    ensures i * width + width <= Size(rows, width)
  {
    ProductGrows(i + 1, rows, width);
  }

  lemma RowOfGrid(x: seq<F32>, at: nat, want: seq<seq<F32>>, k: nat)
    requires forall l :: 0 <= l < |want| && k < |want[l]| ==> at + k * |want| + l < |x| && x[at + k * |want| + l] == want[l][k]
    requires at + k * |want| + |want| <= |x|
    ensures forall l :: 0 <= l < |want| && k < |want[l]| ==> x[at + k * |want|..at + k * |want| + |want|][l] == want[l][k]
  {}

  lemma NothingPredicted(f: Ops, h: HeadInput, columns: seq<seq<F32>>)
    requires Fits(h, columns)
    ensures Predictions(f, h, columns, 0) == seq(|h.v|, _ => f.zero)
  {}

  /** Turn predictions into corrections, in place. */
  method Correct(f: Ops, h: HeadInput, out: array<F32>, at: nat, ghost columns: seq<seq<F32>>)
    requires Fits(h, columns) && at + |h.v| <= out.Length && out[at..at + |h.v|] == Predictions(f, h, columns, |h.k|)
    modifies out
    ensures OutsideSame(old(out[..]), out[..], at, at + |h.v|)
    ensures out[at..at + |h.v|] == Deltas(f, h, columns)
  {
    ghost var was, now := Predictions(f, h, columns, |h.k|), Deltas(f, h, columns);
    for j := 0 to |h.v|
      invariant OutsideSame(old(out[..]), out[..], at, at + j)
      invariant forall x :: 0 <= x < j ==> out[at + x] == now[x]
    {
      assert out[at + j] == old(out[..])[at + j] == old(out[at..at + |h.v|])[j] == was[j];
      out[at + j] := f.mul(f.sub(h.v[j], out[at + j]), h.beta);
    }
  }

  /** Add one key times every correction to one state row. */
  method UpdateRow(f: Ops, h: HeadInput, i: nat, deltas: seq<F32>, state: array<F32>, at: nat)
    requires i < |h.k| && at + |deltas| <= state.Length
    modifies state
    ensures OutsideSame(old(state[..]), state[..], at, at + |deltas|)
    ensures forall j :: 0 <= j < |deltas| ==> state[at + j] == f.add(old(state[..])[at + j], f.mul(h.k[i], deltas[j]))
  {
    for j := 0 to |deltas|
      invariant OutsideSame(old(state[..]), state[..], at, at + j)
      invariant forall x :: 0 <= x < j ==> state[at + x] == f.add(old(state[..])[at + x], f.mul(h.k[i], deltas[x]))
    {
      state[at + j] := f.add(state[at + j], f.mul(h.k[i], deltas[j]));
    }
  }

  method UpdateState(f: Ops, h: HeadInput, state: array<F32>, at: nat, deltas: seq<F32>, ghost columns: seq<seq<F32>>)
    requires Fits(h, columns) && Grid(state[..], at, columns, 0, |h.k|) && at + Size(|h.k|, |h.v|) <= state.Length
    requires deltas == Deltas(f, h, columns)
    modifies state
    ensures OutsideSame(old(state[..]), state[..], at, at + Size(|h.k|, |h.v|))
    ensures Grid(state[..], at, CorrectedAll(f, h, columns), 0, |h.k|)
  {
    hide Grid, OutsideSame, Size, Deltas, CorrectedAll;
    var vd := |h.v|;
    ghost var now := CorrectedAll(f, h, columns);
    GridEmpty(state[..], at, now, 0);
    OutsideSelf(state[..], at, at + Size(|h.k|, vd));
    for i := 0 to |h.k|
      invariant OutsideSame(old(state[..]), state[..], at, at + Size(|h.k|, vd))
      invariant Grid(state[..], at, now, 0, i) && Grid(state[..], at, columns, i, |h.k|)
    {
      RowBounds(i, |h.k|, vd);
      ghost var before := state[..];
      GridAt(before, at, columns, i, |h.k|, i);
      UpdateRow(f, h, i, deltas, state, at + i * vd);
      forall j | 0 <= j < vd ensures state[at + i * vd + j] == now[j][i] {
        assert before[at + i * vd + j] == columns[j][i];
        CorrectedAt(f, h, columns, j, i);
      }
      InPlaceStep(old(state[..]), before, state[..], at, now, columns, 0, i, |h.k|, at, at + Size(|h.k|, vd));
    }
  }

  lemma CorrectedAt(f: Ops, h: HeadInput, columns: seq<seq<F32>>, j: nat, i: nat)
    requires Fits(h, columns) && j < |columns| && i < |h.k|
    ensures CorrectedAll(f, h, columns)[j][i] == f.add(columns[j][i], f.mul(h.k[i], Deltas(f, h, columns)[j]))
  {
    hide Delta;
  }

  method AnswerRow(f: Ops, h: HeadInput, scale: F32, i: nat, row: seq<F32>, out: array<F32>, at: nat, ghost columns: seq<seq<F32>>)
    requires Fits(h, columns) && i < |h.k| && |row| == |columns| && at + |row| <= out.Length
    requires forall j :: 0 <= j < |columns| ==> row[j] == columns[j][i]
    requires out[at..at + |row|] == Answers(f, h, columns, scale, i)
    modifies out
    ensures OutsideSame(old(out[..]), out[..], at, at + |row|)
    ensures out[at..at + |row|] == Answers(f, h, columns, scale, i + 1)
  {
    ghost var was, now := Answers(f, h, columns, scale, i), Answers(f, h, columns, scale, i + 1);
    for j := 0 to |row|
      invariant OutsideSame(old(out[..]), out[..], at, at + j)
      invariant forall x :: 0 <= x < j ==> out[at + x] == now[x]
    {
      assert out[at + j] == old(out[..])[at + j] == old(out[at..at + |row|])[j] == was[j];
      out[at + j] := f.add(out[at + j], f.mul(f.mul(row[j], h.q[i]), scale));
    }
  }

  method AnswerAll(f: Ops, h: HeadInput, scale: F32, state: array<F32>, at: nat, out: array<F32>, outAt: nat, ghost columns: seq<seq<F32>>)
    requires Fits(h, columns) && Grid(state[..], at, columns, 0, |h.k|) && at + Size(|h.k|, |h.v|) <= state.Length
    requires state != out && outAt + |h.v| <= out.Length
    modifies out
    ensures OutsideSame(old(out[..]), out[..], outAt, outAt + |h.v|)
    ensures out[outAt..outAt + |h.v|] == Answers(f, h, columns, scale, |h.k|)
  {
    hide Grid, OutsideSame, Answers;
    var vd := |h.v|;
    Clear(f, out, outAt, vd);
    NothingAnswered(f, h, columns, scale);
    for i := 0 to |h.k|
      invariant OutsideSame(old(out[..]), out[..], outAt, outAt + vd)
      invariant out[outAt..outAt + vd] == Answers(f, h, columns, scale, i)
    {
      RowBounds(i, |h.k|, vd);
      GridAt(state[..], at, columns, 0, |h.k|, i);
      var row := state[at + i * vd..at + i * vd + vd];
      RowOfGrid(state[..], at, columns, i);
      ghost var before := out[..];
      AnswerRow(f, h, scale, i, row, out, outAt, columns);
      OutsideChain(old(out[..]), before, out[..], outAt, outAt + vd);
    }
  }

  lemma NothingAnswered(f: Ops, h: HeadInput, columns: seq<seq<F32>>, scale: F32)
    requires Fits(h, columns)
    ensures Answers(f, h, columns, scale, 0) == seq(|h.v|, _ => f.zero)
  {}

  /** One head of the gated delta rule, traversing complete value rows. */
  method DeltaHeadStep(f: Ops, h: HeadInput, scale: F32, state: array<F32>, at: nat, out: array<F32>, outAt: nat,
                       ghost columns: seq<seq<F32>>)
    requires Fits(h, columns) && Grid(state[..], at, columns, 0, |h.k|) && at + Size(|h.k|, |h.v|) <= state.Length
    requires state != out && outAt + |h.v| <= out.Length
    modifies state, out
    ensures OutsideSame(old(state[..]), state[..], at, at + Size(|h.k|, |h.v|))
    ensures Grid(state[..], at, Stepped(f, h, columns), 0, |h.k|)
    ensures OutsideSame(old(out[..]), out[..], outAt, outAt + |h.v|)
    ensures out[outAt..outAt + |h.v|] == HeadOutput(f, h, columns, scale)
  {
    hide Grid, OutsideSame, Size, Predictions, Deltas, Answers;
    ghost var decayed := DecayedAll(f, h, columns);
    DecayState(f, h, state, at, columns);
    ghost var s1 := state[..];
    Predict(f, h, state, at, out, outAt, decayed);
    ghost var o1 := out[..];
    Correct(f, h, out, outAt, decayed);
    ghost var o2 := out[..];
    UpdateState(f, h, state, at, out[outAt..outAt + |h.v|], decayed);
    AnswerAll(f, h, scale, state, at, out, outAt, Stepped(f, h, columns));
    OutsideChain(old(state[..]), s1, state[..], at, at + Size(|h.k|, |h.v|));
    OutsideChain(old(out[..]), o1, o2, outAt, outAt + |h.v|);
    OutsideChain(old(out[..]), o2, out[..], outAt, outAt + |h.v|);
  }

  // ----- the strided reference -----

  /** One cell of a grid has been rewritten. */
  lemma CellSet(x: seq<F32>, at: nat, want: seq<seq<F32>>, n: nat, l: nat, i: nat, v: F32)
    requires Grid(x, at, want, 0, n) && l < |want| && i < n && i < |want[l]|
    ensures at + At(i, |want|, l) < |x| && x[at + At(i, |want|, l)] == want[l][i]
    ensures Grid(x[at + At(i, |want|, l) := v], at, want[l := want[l][i := v]], 0, n)
  {
    var y, now := x[at + At(i, |want|, l) := v], want[l := want[l][i := v]];
    forall m, k | 0 <= m < |now| && 0 <= k < n && k < |now[m]|
      ensures at + At(k, |now|, m) < |y| && y[at + At(k, |now|, m)] == now[m][k]
    {
      AtInverse(i, |want|, l);
      AtInverse(k, |want|, m);
      assert at + At(k, |want|, m) < |x| && x[at + At(k, |want|, m)] == want[m][k];
    }
  }

  /** The first `j` columns corrected, and the first `n` cells of column `j`. */
  ghost function Partly(f: Ops, h: HeadInput, columns: seq<seq<F32>>, j: nat, n: nat): (r: seq<seq<F32>>)
    requires Fits(h, columns) && j < |columns| && n <= |h.k|
    ensures |r| == |columns| && Even(r, |h.k|)
  {
    var now := CorrectedAll(f, h, columns);
    now[..j] + [now[j][..n] + columns[j][n..]] + columns[j + 1..]
  }

  lemma PartlySteps(f: Ops, h: HeadInput, columns: seq<seq<F32>>, j: nat, n: nat)
    requires Fits(h, columns) && j < |columns| && n < |h.k|
    ensures Partly(f, h, columns, j, n)[j][n] == columns[j][n]
    ensures Partly(f, h, columns, j, n + 1)
         == Partly(f, h, columns, j, n)[j := Partly(f, h, columns, j, n)[j][n := CorrectedAll(f, h, columns)[j][n]]]
  {
    hide Delta, Corrected;
    var was, now := Partly(f, h, columns, j, n), Partly(f, h, columns, j, n + 1);
    assert now[j] == was[j][n := CorrectedAll(f, h, columns)[j][n]];
  }

  lemma PartlyEnds(f: Ops, h: HeadInput, columns: seq<seq<F32>>, j: nat)
    requires Fits(h, columns) && j < |columns|
    ensures Partly(f, h, columns, j, |h.k|) == CorrectedAll(f, h, columns)[..j + 1] + columns[j + 1..]
    ensures Partly(f, h, columns, j, 0) == CorrectedAll(f, h, columns)[..j] + columns[j..]
  {
    hide Delta, Corrected;
    var now := CorrectedAll(f, h, columns);
    assert now[j][..|h.k|] + columns[j][|h.k|..] == now[j] && now[j][..0] + columns[j][0..] == columns[j];
    assert now[..j] + [now[j]] == now[..j + 1] && [columns[j]] + columns[j + 1..] == columns[j..];
  }

  /** One column's prediction, read down the strided column. */
  method PredictColumn(f: Ops, h: HeadInput, j: nat, state: array<F32>, at: nat, ghost columns: seq<seq<F32>>, ghost want: seq<seq<F32>>)
    returns (prediction: F32)
    requires Fits(h, columns) && j < |h.v| && |want| == |columns| && want[j] == columns[j]
    requires Grid(state[..], at, want, 0, |h.k|) && at + Size(|h.k|, |h.v|) <= state.Length
    ensures prediction == Prediction(f, columns[j], h.k, |h.k|)
  {
    hide Grid;
    prediction := f.zero;
    for i := 0 to |h.k|
      invariant prediction == Prediction(f, columns[j], h.k, i)
    {
      AtFits(i, |h.k|, |h.v|, j);
      CellSet(state[..], at, want, |h.k|, j, i, f.zero);
      prediction := f.add(prediction, f.mul(state[at + At(i, |h.v|, j)], h.k[i]));
    }
  }

  /** Correct one column down its stride. */
  method CorrectColumn(f: Ops, h: HeadInput, j: nat, delta: F32, state: array<F32>, at: nat, ghost columns: seq<seq<F32>>)
    requires Fits(h, columns) && j < |h.v| && delta == Deltas(f, h, columns)[j]
    requires Grid(state[..], at, Partly(f, h, columns, j, 0), 0, |h.k|) && at + Size(|h.k|, |h.v|) <= state.Length
    modifies state
    ensures OutsideSame(old(state[..]), state[..], at, at + Size(|h.k|, |h.v|))
    ensures Grid(state[..], at, Partly(f, h, columns, j, |h.k|), 0, |h.k|)
  {
    hide Grid, Partly, Size, CorrectedAll, Deltas;
    for i := 0 to |h.k|
      invariant OutsideSame(old(state[..]), state[..], at, at + Size(|h.k|, |h.v|))
      invariant Grid(state[..], at, Partly(f, h, columns, j, i), 0, |h.k|)
    {
      CellFits(i, |h.k|, |h.v|, j);
      ghost var before := state[..];
      PartlySteps(f, h, columns, j, i);
      CorrectedAt(f, h, columns, j, i);
      CellSet(before, at, Partly(f, h, columns, j, i), |h.k|, j, i, CorrectedAll(f, h, columns)[j][i]);
      var x := at + At(i, |h.v|, j);
      state[x] := f.add(state[x], f.mul(h.k[i], delta));
      assert state[..] == before[x := CorrectedAll(f, h, columns)[j][i]];
    }
  }

  lemma CellFits(i: nat, rows: nat, width: nat, j: nat)
    requires i < rows && j < width
    ensures At(i, width, j) < Size(rows, width)
  {
    AtFits(i, rows, width, j);
  }

  method AnswerColumn(f: Ops, h: HeadInput, scale: F32, j: nat, state: array<F32>, at: nat, ghost columns: seq<seq<F32>>) returns (value: F32)
    requires Fits(h, columns) && j < |h.v| && Grid(state[..], at, columns, 0, |h.k|) && at + Size(|h.k|, |h.v|) <= state.Length
    ensures value == Answer(f, columns[j], h.q, scale, |h.k|)
  {
    hide Grid;
    value := f.zero;
    for i := 0 to |h.k|
      invariant value == Answer(f, columns[j], h.q, scale, i)
    {
      AtFits(i, |h.k|, |h.v|, j);
      CellSet(state[..], at, columns, |h.k|, j, i, f.zero);
      value := f.add(value, f.mul(f.mul(state[at + At(i, |h.v|, j)], h.q[i]), scale));
    }
  }

  /** The reference: one column at a time, down the stride. */
  method StridedHeadStep(f: Ops, h: HeadInput, scale: F32, state: array<F32>, at: nat, out: array<F32>, outAt: nat,
                         ghost columns: seq<seq<F32>>)
    requires Fits(h, columns) && Grid(state[..], at, columns, 0, |h.k|) && at + Size(|h.k|, |h.v|) <= state.Length
    requires state != out && outAt + |h.v| <= out.Length
    modifies state, out
    ensures OutsideSame(old(state[..]), state[..], at, at + Size(|h.k|, |h.v|))
    ensures Grid(state[..], at, Stepped(f, h, columns), 0, |h.k|)
    ensures OutsideSame(old(out[..]), out[..], outAt, outAt + |h.v|)
    ensures out[outAt..outAt + |h.v|] == HeadOutput(f, h, columns, scale)
  {
    hide Grid, Size, CorrectedAll, OutsideSame, Answers;
    ghost var decayed := DecayedAll(f, h, columns);
    DecayState(f, h, state, at, columns);
    ghost var before := state[..];
    CorrectColumns(f, h, state, at, decayed);
    OutsideChain(old(state[..]), before, state[..], at, at + Size(|h.k|, |h.v|));
    AnswerColumns(f, h, scale, state, at, out, outAt, Stepped(f, h, columns));
  }

  method CorrectColumns(f: Ops, h: HeadInput, state: array<F32>, at: nat, ghost decayed: seq<seq<F32>>)
    requires Fits(h, decayed) && Grid(state[..], at, decayed, 0, |h.k|) && at + Size(|h.k|, |h.v|) <= state.Length
    modifies state
    ensures OutsideSame(old(state[..]), state[..], at, at + Size(|h.k|, |h.v|))
    ensures Grid(state[..], at, CorrectedAll(f, h, decayed), 0, |h.k|)
  {
    hide Grid, Size, Partly, CorrectedAll, Prediction, OutsideSame;
    ghost var now := CorrectedAll(f, h, decayed);
    OutsideSelf(state[..], at, at + Size(|h.k|, |h.v|));
    assert now[..0] + decayed[0..] == decayed;
    for j := 0 to |h.v|
      invariant OutsideSame(old(state[..]), state[..], at, at + Size(|h.k|, |h.v|))
      invariant Grid(state[..], at, now[..j] + decayed[j..], 0, |h.k|)
    {
      PartlyEnds(f, h, decayed, j);
      var prediction := PredictColumn(f, h, j, state, at, decayed, now[..j] + decayed[j..]);
      var delta := f.mul(f.sub(h.v[j], prediction), h.beta);
      ghost var before := state[..];
      CorrectColumn(f, h, j, delta, state, at, decayed);
      OutsideChain(old(state[..]), before, state[..], at, at + Size(|h.k|, |h.v|));
    }
    assert now[..|h.v|] + decayed[|h.v|..] == now;
  }

  method AnswerColumns(f: Ops, h: HeadInput, scale: F32, state: array<F32>, at: nat, out: array<F32>, outAt: nat,
                       ghost columns: seq<seq<F32>>)
    requires Fits(h, columns) && Grid(state[..], at, columns, 0, |h.k|) && at + Size(|h.k|, |h.v|) <= state.Length
    requires state != out && outAt + |h.v| <= out.Length
    modifies out
    ensures OutsideSame(old(out[..]), out[..], outAt, outAt + |h.v|)
    ensures out[outAt..outAt + |h.v|] == Answers(f, h, columns, scale, |h.k|)
  {
    hide Grid, Size, Answer;
    ghost var answers := Answers(f, h, columns, scale, |h.k|);
    for j := 0 to |h.v|
      invariant OutsideSame(old(out[..]), out[..], outAt, outAt + j)
      invariant forall x :: 0 <= x < j ==> out[outAt + x] == answers[x]
    {
      var value := AnswerColumn(f, h, scale, j, state, at, columns);
      out[outAt + j] := value;
    }
  }

  // ----- all the heads -----

  /** The flat per-head inputs of one step, `keyDim` queries and keys and
      `valueDim` values a head. */
  datatype StepInput = StepInput(heads: nat, keyDim: pos, valueDim: pos, scale: F32,
                                 q: seq<F32>, k: seq<F32>, v: seq<F32>, g: seq<F32>, beta: seq<F32>)

  predicate StepShaped(s: StepInput) {
    && |s.q| == |s.k| == Size(s.heads, s.keyDim) && |s.v| == Size(s.heads, s.valueDim)
    && |s.g| == |s.beta| == s.heads
  }

  function RowOf(x: seq<F32>, rows: nat, width: nat, h: nat): (r: seq<F32>)
    requires |x| == Size(rows, width) && h < rows
    ensures |r| == width
  {
    RowBounds(h, rows, width);
    x[h * width..h * width + width]
  }

  function HeadAt(s: StepInput, h: nat): (r: HeadInput)
    requires StepShaped(s) && h < s.heads
    ensures Shaped(r, s.keyDim, s.valueDim)
  {
    HeadInput(RowOf(s.q, s.heads, s.keyDim, h), RowOf(s.k, s.heads, s.keyDim, h), RowOf(s.v, s.heads, s.valueDim, h),
              s.g[h], s.beta[h])
  }

  function StateSize(s: StepInput): nat { Start(s.heads, s.keyDim, s.valueDim) }

  /** The columns of head `h` in the flat state. */
  function ColumnsOf(s: StepInput, state: seq<F32>, h: nat): (r: seq<seq<F32>>)
    requires h < s.heads && |state| == StateSize(s)
    ensures |r| == s.valueDim && Even(r, s.keyDim)
  {
    PlaneBounds(h, s.heads, s.keyDim, s.valueDim, s.keyDim);
    seq(s.valueDim, j requires 0 <= j < s.valueDim =>
      seq(s.keyDim, i requires 0 <= i < s.keyDim =>
        CellFits(i, s.keyDim, s.valueDim, j);
        state[Start(h, s.keyDim, s.valueDim) + At(i, s.valueDim, j)]))
  }

  lemma ColumnsGrid(s: StepInput, state: seq<F32>, h: nat)
    requires h < s.heads && |state| == StateSize(s)
    ensures Grid(state, Start(h, s.keyDim, s.valueDim), ColumnsOf(s, state, h), 0, s.keyDim)
  {
    hide Start;
    var want := ColumnsOf(s, state, h);
    forall l, i | 0 <= l < |want| && 0 <= i < s.keyDim && i < |want[l]|
      ensures Start(h, s.keyDim, s.valueDim) + At(i, |want|, l) < |state|
      ensures state[Start(h, s.keyDim, s.valueDim) + At(i, |want|, l)] == want[l][i]
    {
      CellFits(i, s.keyDim, s.valueDim, l);
      PlaneBounds(h, s.heads, s.keyDim, s.valueDim, s.keyDim);
    }
  }

  /** Every head's columns: stepped for the heads done, as they were otherwise. */
  ghost function Mixed(f: Ops, s: StepInput, state: seq<F32>, done: set<nat>): (r: seq<seq<seq<F32>>>)
    requires StepShaped(s) && |state| == StateSize(s)
    ensures |r| == s.heads
  {
    seq(s.heads, h requires 0 <= h < s.heads =>
      if h in done then Stepped(f, HeadAt(s, h), ColumnsOf(s, state, h)) else ColumnsOf(s, state, h))
  }

  /** Every head's output row. */
  function Outputs(f: Ops, s: StepInput, state: seq<F32>): (r: seq<seq<F32>>)
    requires StepShaped(s) && |state| == StateSize(s)
    ensures |r| == s.heads && forall h :: 0 <= h < s.heads ==> |r[h]| == s.valueDim
  {
    seq(s.heads, h requires 0 <= h < s.heads => HeadOutput(f, HeadAt(s, h), ColumnsOf(s, state, h), s.scale))
  }

  ghost predicate RowsAre(out: seq<F32>, width: nat, rows: seq<seq<F32>>, done: set<nat>) {
    forall h :: h in done && h < |rows| ==>
      At(h, width, 0) + width <= |out| && out[At(h, width, 0)..At(h, width, 0) + width] == rows[h]
  }

  /** The heads so far: their state blocks and output rows hold the step's
      results, and the other blocks are untouched. */
  ghost predicate StepDone(f: Ops, s: StepInput, was: seq<F32>, state: seq<F32>, out: seq<F32>, done: set<nat>)
    requires StepShaped(s) && |was| == StateSize(s)
  {
    && |state| == StateSize(s) && |out| == Size(s.heads, s.valueDim)
    && Planes(state, s.keyDim, s.valueDim, Mixed(f, s, was, done), 0, s.heads)
    && RowsAre(out, s.valueDim, Outputs(f, s, was), done)
  }

  lemma NoneDone(f: Ops, s: StepInput, state: seq<F32>, out: seq<F32>)
    requires StepShaped(s) && |state| == StateSize(s) && |out| == Size(s.heads, s.valueDim)
    ensures StepDone(f, s, state, state, out, {})
  {
    hide Grid, Start, ColumnsOf, Stepped;
    forall h | 0 <= h < s.heads
      ensures Grid(state, Start(h, s.keyDim, s.valueDim), Mixed(f, s, state, {})[h], 0, s.keyDim)
    {
      ColumnsGrid(s, state, h);
    }
  }

  /** What one more head needs. */
  lemma NextHead(f: Ops, s: StepInput, was: seq<F32>, state: seq<F32>, out: seq<F32>, done: set<nat>, h: nat)
    requires StepShaped(s) && |was| == StateSize(s) && StepDone(f, s, was, state, out, done) && h < s.heads && h !in done
    ensures Grid(state, Start(h, s.keyDim, s.valueDim), ColumnsOf(s, was, h), 0, s.keyDim)
    ensures Start(h, s.keyDim, s.valueDim) + Size(s.keyDim, s.valueDim) <= |state| && At(h, s.valueDim, 0) + s.valueDim <= |out|
    ensures Fits(HeadAt(s, h), ColumnsOf(s, was, h))
  {
    hide Grid, Start, Size, ColumnsOf, Stepped, HeadAt;
    var wants := Mixed(f, s, was, done);
    PlaneAt(state, s.keyDim, s.valueDim, wants, 0, s.heads, h);
    PlaneBounds(h, s.heads, s.keyDim, s.valueDim, s.keyDim);
    RowBounds(h, s.heads, s.valueDim);
  }

  /** One more head, whichever it is. */
  lemma HeadDone(f: Ops, s: StepInput, was: seq<F32>, x: seq<F32>, y: seq<F32>, o: seq<F32>, p: seq<F32>, done: set<nat>, h: nat)
    requires StepShaped(s) && |was| == StateSize(s) && StepDone(f, s, was, x, o, done) && h < s.heads && h !in done
    requires OutsideSame(x, y, Start(h, s.keyDim, s.valueDim), Start(h, s.keyDim, s.valueDim) + Size(s.keyDim, s.valueDim))
    requires Fits(HeadAt(s, h), ColumnsOf(s, was, h))
    requires Grid(y, Start(h, s.keyDim, s.valueDim), Stepped(f, HeadAt(s, h), ColumnsOf(s, was, h)), 0, s.keyDim)
    requires OutsideSame(o, p, At(h, s.valueDim, 0), At(h, s.valueDim, 0) + s.valueDim) && At(h, s.valueDim, 0) + s.valueDim <= |p|
    requires p[At(h, s.valueDim, 0)..At(h, s.valueDim, 0) + s.valueDim] == HeadOutput(f, HeadAt(s, h), ColumnsOf(s, was, h), s.scale)
    ensures StepDone(f, s, was, y, p, done + {h})
  {
    hide Grid, Start, Size, At, ColumnsOf, Stepped, HeadAt, HeadOutput, OutsideSame;
    var old', new' := Mixed(f, s, was, done), Mixed(f, s, was, done + {h});
    BlocksKept(x, y, s.keyDim, s.valueDim, old', new', s.heads, h);
    RowsKept(o, p, s.valueDim, Outputs(f, s, was), done, h);
    SameLength(x, y, Start(h, s.keyDim, s.valueDim), Start(h, s.keyDim, s.valueDim) + Size(s.keyDim, s.valueDim));
    SameLength(o, p, At(h, s.valueDim, 0), At(h, s.valueDim, 0) + s.valueDim);
  }

  lemma SameLength(x: seq<F32>, y: seq<F32>, lo: nat, hi: nat)
    requires OutsideSame(x, y, lo, hi)
    ensures |x| == |y|
  {}

  lemma BlocksKept(x: seq<F32>, y: seq<F32>, items: nat, lanes: nat, before: seq<seq<seq<F32>>>, after: seq<seq<seq<F32>>>, n: nat, k: nat)
    requires |before| == |after| == n && k < n && Planes(x, items, lanes, before, 0, n)
    requires OutsideSame(x, y, Start(k, items, lanes), Start(k, items, lanes) + Size(items, lanes))
    requires |after[k]| == lanes && Grid(y, Start(k, items, lanes), after[k], 0, items)
    requires forall i :: 0 <= i < n && i != k ==> after[i] == before[i]
    ensures Planes(y, items, lanes, after, 0, n)
  {
    hide Grid, Size, Start, OutsideSame;
    forall i | 0 <= i < n ensures |after[i]| == lanes && Grid(y, Start(i, items, lanes), after[i], 0, items) {
      if i != k {
        Apart(i, k, items, lanes);
        PlaneKept(x, y, Start(i, items, lanes), before[i], items, Start(k, items, lanes), Start(k, items, lanes) + Size(items, lanes));
      }
    }
  }

  lemma RowsKept(o: seq<F32>, p: seq<F32>, width: nat, rows: seq<seq<F32>>, done: set<nat>, h: nat)
    requires RowsAre(o, width, rows, done) && h < |rows| && h !in done
    requires OutsideSame(o, p, At(h, width, 0), At(h, width, 0) + width) && At(h, width, 0) + width <= |p|
    requires p[At(h, width, 0)..At(h, width, 0) + width] == rows[h]
    ensures RowsAre(p, width, rows, done + {h})
  {
    forall i | i in done + {h} && i < |rows| ensures At(i, width, 0) + width <= |p| && p[At(i, width, 0)..At(i, width, 0) + width] == rows[i] {
      if i != h {
        RowsApart(i, h, width);
        assert p[At(i, width, 0)..At(i, width, 0) + width] == o[At(i, width, 0)..At(i, width, 0) + width];
      }
    }
  }

  lemma RowsApart(i: nat, h: nat, width: nat)
    requires i != h
    ensures At(i, width, 0) + width <= At(h, width, 0) || At(h, width, 0) + width <= At(i, width, 0)
  {
    if i < h { ProductGrows(i + 1, h, width); } else { ProductGrows(h + 1, i, width); }
  }

  /** The heads may run in any order, as they do on several cores. */
  ghost predicate AnyOrder(order: seq<nat>, heads: nat) {
    && (forall i :: 0 <= i < |order| ==> order[i] < heads)
    && (forall i, j :: 0 <= i < j < |order| ==> order[i] != order[j])
    && forall h :: 0 <= h < heads ==> h in order
  }

  ghost function Heads(n: nat): (r: set<nat>)
    ensures forall h: nat :: h in r <==> h < n
  {
    if n == 0 then {} else Heads(n - 1) + {n - 1}
  }

  /** One more head, by rows. */
  method RowHead(f: Ops, s: StepInput, h: nat, state: array<F32>, out: array<F32>, ghost was: seq<F32>, ghost done: set<nat>)
    requires StepShaped(s) && |was| == StateSize(s) && state != out && h < s.heads && h !in done
    requires StepDone(f, s, was, state[..], out[..], done)
    modifies state, out
    ensures StepDone(f, s, was, state[..], out[..], done + {h})
  {
    hide StepDone, Grid, Start, Size, At, StepShaped, ColumnsOf, HeadAt, Stepped, HeadOutput, OutsideSame, Fits;
    NextHead(f, s, was, state[..], out[..], done, h);
    ghost var x, o := state[..], out[..];
    DeltaHeadStep(f, HeadAt(s, h), s.scale, state, Start(h, s.keyDim, s.valueDim), out, At(h, s.valueDim, 0), ColumnsOf(s, was, h));
    HeadDone(f, s, was, x, state[..], o, out[..], done, h);
  }

  /** One more head, column by column. */
  method StridedHead(f: Ops, s: StepInput, h: nat, state: array<F32>, out: array<F32>, ghost was: seq<F32>, ghost done: set<nat>)
    requires StepShaped(s) && |was| == StateSize(s) && state != out && h < s.heads && h !in done
    requires StepDone(f, s, was, state[..], out[..], done)
    modifies state, out
    ensures StepDone(f, s, was, state[..], out[..], done + {h})
  {
    hide StepDone, Grid, Start, Size, At, StepShaped, ColumnsOf, HeadAt, Stepped, HeadOutput, OutsideSame, Fits;
    NextHead(f, s, was, state[..], out[..], done, h);
    ghost var x, o := state[..], out[..];
    StridedHeadStep(f, HeadAt(s, h), s.scale, state, Start(h, s.keyDim, s.valueDim), out, At(h, s.valueDim, 0), ColumnsOf(s, was, h));
    HeadDone(f, s, was, x, state[..], o, out[..], done, h);
  }

  /** One step over every head, in any order. */
  method RecurrentDeltaStep(f: Ops, s: StepInput, order: seq<nat>, state: array<F32>, out: array<F32>)
    requires StepShaped(s) && AnyOrder(order, s.heads) && state != out
    requires state.Length == StateSize(s) && out.Length == Size(s.heads, s.valueDim)
    modifies state, out
    ensures StepDone(f, s, old(state[..]), state[..], out[..], Heads(s.heads))
  {
    hide StepDone, StepShaped, StateSize, Size;
    ghost var done: set<nat> := {};
    NoneDone(f, s, state[..], out[..]);
    for n := 0 to |order|
      invariant StepDone(f, s, old(state[..]), state[..], out[..], done)
      invariant forall h :: h in done <==> exists i :: 0 <= i < n && order[i] == h
    {
      RowHead(f, s, order[n], state, out, old(state[..]), done);
      done := done + {order[n]};
    }
    forall h: nat | h < s.heads ensures h in done {
      assert h in order;
    }
    assert done == Heads(s.heads);
  }

  /** The reference runs the heads in order, each column by column. */
  method StridedRecurrence(f: Ops, s: StepInput, state: array<F32>, out: array<F32>)
    requires StepShaped(s) && state != out && state.Length == StateSize(s) && out.Length == Size(s.heads, s.valueDim)
    modifies state, out
    ensures StepDone(f, s, old(state[..]), state[..], out[..], Heads(s.heads))
  {
    hide StepDone, StepShaped, StateSize, Size;
    ghost var done: set<nat> := {};
    NoneDone(f, s, state[..], out[..]);
    for h := 0 to s.heads
      invariant StepDone(f, s, old(state[..]), state[..], out[..], done)
      invariant done == Heads(h)
    {
      StridedHead(f, s, h, state, out, old(state[..]), done);
      done := done + {h};
    }
  }

  /** A finished step leaves one possible state and output. */
  lemma StepDetermined(f: Ops, s: StepInput, was: seq<F32>, x: seq<F32>, o: seq<F32>, y: seq<F32>, p: seq<F32>)
    requires StepShaped(s) && |was| == StateSize(s)
    requires StepDone(f, s, was, x, o, Heads(s.heads)) && StepDone(f, s, was, y, p, Heads(s.heads))
    ensures x == y && o == p
  {
    hide Grid, Mixed, Outputs, StepShaped, Planes, RowsAre;
    forall i | 0 <= i < |x| ensures x[i] == y[i] {
      CellDetermined(f, s, was, x, y, i);
    }
    forall i | 0 <= i < |o| ensures o[i] == p[i] {
      PlaneInRange(i, s.heads, s.valueDim);
      RowDetermined(o, p, s.valueDim, Outputs(f, s, was), Heads(s.heads), i);
    }
  }

  lemma CellDetermined(f: Ops, s: StepInput, was: seq<F32>, x: seq<F32>, y: seq<F32>, i: nat)
    requires StepShaped(s) && |was| == |x| == |y| == StateSize(s) && i < |x|
    requires Planes(x, s.keyDim, s.valueDim, Mixed(f, s, was, Heads(s.heads)), 0, s.heads)
    requires Planes(y, s.keyDim, s.valueDim, Mixed(f, s, was, Heads(s.heads)), 0, s.heads)
    ensures x[i] == y[i]
  {
    hide Grid, Mixed, StepShaped, Planes, Start, Size, At, Even;
    var h, row, column := CellOf(s, i);
    var wants := Mixed(f, s, was, Heads(s.heads));
    PlaneAt(x, s.keyDim, s.valueDim, wants, 0, s.heads, h);
    PlaneAt(y, s.keyDim, s.valueDim, wants, 0, s.heads, h);
    MixedShape(f, s, was, h);
    SameCell(x, y, Start(h, s.keyDim, s.valueDim), wants[h], s.keyDim, column, row);
  }

  lemma SameCell(x: seq<F32>, y: seq<F32>, at: nat, want: seq<seq<F32>>, n: nat, l: nat, i: nat)
    requires Grid(x, at, want, 0, n) && Grid(y, at, want, 0, n) && l < |want| && Even(want, n) && i < n
    ensures at + At(i, |want|, l) < |x| && at + At(i, |want|, l) < |y| && x[at + At(i, |want|, l)] == y[at + At(i, |want|, l)]
  {}

  lemma RowDetermined(o: seq<F32>, p: seq<F32>, width: pos, rows: seq<seq<F32>>, done: set<nat>, i: nat)
    requires RowsAre(o, width, rows, done) && RowsAre(p, width, rows, done)
    requires i < |o| && i < |p| && i / width in done && i / width < |rows|
    ensures o[i] == p[i]
  {
    var h, c := i / width, i % width;
    assert At(h, width, 0) + c == i;
    assert o[At(h, width, 0)..At(h, width, 0) + width][c] == p[At(h, width, 0)..At(h, width, 0) + width][c];
  }

  lemma MixedShape(f: Ops, s: StepInput, was: seq<F32>, h: nat)
    requires StepShaped(s) && |was| == StateSize(s) && h < s.heads
    ensures Even(Mixed(f, s, was, Heads(s.heads))[h], s.keyDim)
  {
    hide ColumnsOf;
  }

  lemma CellOf(s: StepInput, i: nat) returns (h: nat, row: nat, column: nat)
    requires i < StateSize(s)
    ensures h < s.heads && row < s.keyDim && column < s.valueDim
    ensures i == Start(h, s.keyDim, s.valueDim) + At(row, s.valueDim, column)
  {
    ProductGrows(1, s.keyDim, s.valueDim);
    var block := Size(s.keyDim, s.valueDim);
    PlaneInRange(i, s.heads, block);
    PlaneInRange(i % block, s.keyDim, s.valueDim);
    h, row, column := i / block, i % block / s.valueDim, i % block % s.valueDim;
  }

  /** The traversal by rows, in any order of heads, gives the very floats of the
      strided reference. */
  method StepsAgree(f: Ops, s: StepInput, order: seq<nat>, initial: seq<F32>)
    returns (rowState: seq<F32>, rowOut: seq<F32>, stridedState: seq<F32>, stridedOut: seq<F32>)
    requires StepShaped(s) && AnyOrder(order, s.heads) && |initial| == StateSize(s)
    ensures rowState == stridedState && rowOut == stridedOut
    ensures StepDone(f, s, initial, rowState, rowOut, Heads(s.heads))
  {
    hide StepDone, StepShaped;
    var a := new F32[|initial|](i requires 0 <= i < |initial| => initial[i]);
    var b := new F32[|initial|](i requires 0 <= i < |initial| => initial[i]);
    var x, y := new F32[Size(s.heads, s.valueDim)](_ => f.zero), new F32[Size(s.heads, s.valueDim)](_ => f.zero);
    assert a[..] == initial && b[..] == initial;
    RecurrentDeltaStep(f, s, order, a, x);
    assert b[..] == initial;
    StridedRecurrence(f, s, b, y);
    rowState, rowOut, stridedState, stridedOut := a[..], x[..], b[..], y[..];
    StepDetermined(f, s, initial, rowState, rowOut, stridedState, stridedOut);
  }
}
