/** The preallocated per-row snapshots of one linear layer: a flat arena of slots
    reused across passes, and the rollback that copies a slot back. */
module DeltaSnapshots {
  import opened Indexing
  import opened Buffers

  type Input(==,!new)

  /** A linear layer's {conv, recurrent}. */
  datatype Contents = Contents(conv: seq<F32>, recurrent: seq<F32>)

  /** What consuming one row does to the state. */
  type Step = (Contents, Input) -> Contents

  /** The layer keeps the sizes of its buffers. */
  ghost predicate KeepsSizes(step: Step) {
    forall s: Contents, x: Input {:trigger step(s, x)} ::
      |step(s, x).conv| == |s.conv| && |step(s, x).recurrent| == |s.recurrent|
  }

  /** The state after consuming the rows one at a time. */
  function After(step: Step, s: Contents, rows: seq<Input>): Contents {
    if rows == [] then s else step(After(step, s, rows[..|rows| - 1]), rows[|rows| - 1])
  }

  class DeltaState {
    var conv: seq<F32>
    var recurrent: seq<F32>

    function Value(): Contents
      reads this
    {
      Contents(conv, recurrent)
    }
  }

  function Resized(s: seq<F32>, n: nat, fill: F32): (r: seq<F32>)
    ensures |r| == n
  {
    if n <= |s| then s[..n] else s + seq(n - |s|, _ => fill)
  }

  /** Slot `row` of an arena of `length`-sized slots. */
  function Slot(arena: seq<F32>, row: nat, length: nat): (s: seq<F32>)
    requires Size(row, length) + length <= |arena|
    ensures |s| == length
  {
    arena[Size(row, length)..Size(row, length) + length]
  }

  function Written(arena: seq<F32>, row: nat, s: seq<F32>): (r: seq<F32>)
    requires Size(row, |s|) + |s| <= |arena|
    ensures |r| == |arena|
  {
    arena[..Size(row, |s|)] + s + arena[Size(row, |s|) + |s|..]
  }

  lemma SlotFits(row: nat, rows: nat, length: nat)
    requires row < rows
    ensures Size(row, length) + length <= Size(rows, length)
  {
    ProductGrows(row + 1, rows, length);
  }

  /** Writing a slot changes that slot alone. */
  lemma SlotsApart(arena: seq<F32>, row: nat, s: seq<F32>, other: nat, rows: nat)
    requires |arena| == Size(rows, |s|) && row < rows && other < rows
    ensures Size(row, |s|) + |s| <= |arena| && Size(other, |s|) + |s| <= |arena|
    ensures Slot(Written(arena, row, s), other, |s|) == if other == row then s else Slot(arena, other, |s|)
  {
    SlotFits(row, rows, |s|);
    SlotFits(other, rows, |s|);
    if other != row { RowsApart(other, row, |s|); }
    hide Size;
    Spliced(arena, Size(row, |s|), s, Size(other, |s|));
  }

  lemma RowsApart(a: nat, b: nat, length: nat)
    requires a != b
    ensures Size(a, length) + length <= Size(b, length) || Size(b, length) + length <= Size(a, length)
  {
    if a < b { ProductGrows(a + 1, b, length); } else { ProductGrows(b + 1, a, length); }
  }

  lemma Spliced(arena: seq<F32>, from: nat, s: seq<F32>, at: nat)
    requires from + |s| <= |arena| && at + |s| <= |arena|
    requires at == from || at + |s| <= from || from + |s| <= at
    ensures (arena[..from] + s + arena[from + |s|..])[at..at + |s|] == if at == from then s else arena[at..at + |s|]
  {}

  class Snapshots {
    var conv: seq<F32>
    var recurrent: seq<F32>
    var convLength: nat
    var recurrentLength: nat
    var rows: nat
    var stored: nat

    ghost predicate Valid()
      reads this
    {
      |conv| == Size(rows, convLength) && |recurrent| == Size(rows, recurrentLength) && stored <= rows
    }

    constructor ()
      ensures Valid() && rows == 0 && stored == 0
    {
      conv, recurrent, convLength, recurrentLength, rows, stored := [], [], 0, 0, 0, 0;
    }

    /** Slot `row`, as it would be restored. */
    function At(row: nat): Contents
      requires Valid() && row < rows
      reads this
    {
      SlotFits(row, rows, convLength);
      SlotFits(row, rows, recurrentLength);
      Contents(Slot(conv, row, convLength), Slot(recurrent, row, recurrentLength))
    }

    /** Size the arena for a pass, keeping what memory there is; no slot of an
        earlier pass counts as stored. */
    method Reserve(count: nat, convSize: nat, recurrentSize: nat, zero: F32)
      requires Valid()
      modifies this
      ensures Valid() && rows == count && convLength == convSize && recurrentLength == recurrentSize && stored == 0
    {
      if rows != count || convLength != convSize || recurrentLength != recurrentSize {
        conv, recurrent := Resized(conv, Size(count, convSize), zero), Resized(recurrent, Size(count, recurrentSize), zero);
        rows, convLength, recurrentLength := count, convSize, recurrentSize;
      }
      stored := 0;
    }

    /** Record the state as it was before row `row`. */
    method Store(row: nat, state: Contents)
      requires Valid() && row < rows && |state.conv| == convLength && |state.recurrent| == recurrentLength
      modifies this`conv, this`recurrent, this`stored
      ensures Valid() && At(row) == state && stored == if old(stored) > row + 1 then old(stored) else row + 1
      ensures forall r :: 0 <= r < rows && r != row ==> At(r) == old(At(r))
    {
      hide Size, Slot, Written;
      ghost var c, d := conv, recurrent;
      SlotFits(row, rows, convLength);
      SlotFits(row, rows, recurrentLength);
      forall r | 0 <= r < rows
        ensures Size(r, convLength) + convLength <= |c| && Size(r, recurrentLength) + recurrentLength <= |d|
        ensures Slot(Written(c, row, state.conv), r, convLength) == if r == row then state.conv else Slot(c, r, convLength)
        ensures Slot(Written(d, row, state.recurrent), r, recurrentLength)
             == if r == row then state.recurrent else Slot(d, r, recurrentLength)
      {
        SlotsApart(c, row, state.conv, r, rows);
        SlotsApart(d, row, state.recurrent, r, rows);
      }
      conv, recurrent := Written(conv, row, state.conv), Written(recurrent, row, state.recurrent);
      stored := if stored > row + 1 then stored else row + 1;
    }

    /** Copy slot `row` back. A layer that stored nothing did not run and is
        already at the pre-pass state. `false` is the error of a slot that was
        not stored, or of a state of other sizes. */
    method RestoreInto(row: nat, state: DeltaState) returns (ok: bool)
      requires Valid()
      modifies state
      ensures ok <==>
        (stored == 0 || (row < stored && |old(state.conv)| == convLength && |old(state.recurrent)| == recurrentLength))
      ensures state.Value() == if ok && stored > 0 then At(row) else old(state.Value())
    {
      if stored == 0 { return true; }
      if row >= stored || |state.conv| != convLength || |state.recurrent| != recurrentLength { return false; }
      SlotFits(row, rows, convLength);
      SlotFits(row, rows, recurrentLength);
      state.conv, state.recurrent := Slot(conv, row, convLength), Slot(recurrent, row, recurrentLength);
      ok := true;
    }
  }

  /** Slot `r` is the state before row `r`, for every row stored. */
  ghost predicate Recorded(snapshots: Snapshots, step: Step, start: Contents, inputs: seq<Input>)
    reads snapshots
  {
    && snapshots.Valid() && snapshots.stored <= |inputs|
    && forall r :: 0 <= r < snapshots.stored ==> snapshots.At(r) == After(step, start, inputs[..r])
  }

  /** Consume a pass's rows, recording the entry state of each. `false` is the
      error of an arena with too few slots; then nothing ran. */
  method ForwardRows(step: Step, inputs: seq<Input>, state: DeltaState, snapshots: Snapshots) returns (ok: bool)
    requires KeepsSizes(step) && inputs != [] && snapshots.Valid()
    requires snapshots.stored == 0 && |state.conv| == snapshots.convLength && |state.recurrent| == snapshots.recurrentLength
    modifies state, snapshots`conv, snapshots`recurrent, snapshots`stored
    ensures ok <==> |inputs| <= snapshots.rows
    ensures Recorded(snapshots, step, old(state.Value()), inputs)
    ensures ok ==> state.Value() == After(step, old(state.Value()), inputs) && snapshots.stored == |inputs|
    ensures !ok ==> state.Value() == old(state.Value()) && snapshots.stored == 0
  {
    hide Snapshots.At;
    if snapshots.rows < |inputs| { return false; }
    ghost var start := state.Value();
    snapshots.Store(0, state.Value());
    assert inputs[..0] == [];
    for token := 0 to |inputs|
      invariant snapshots.Valid() && |state.conv| == snapshots.convLength && |state.recurrent| == snapshots.recurrentLength
      invariant snapshots.stored == if token < |inputs| then token + 1 else token
      invariant forall r :: 0 <= r < snapshots.stored ==> snapshots.At(r) == After(step, start, inputs[..r])
      invariant state.Value() == After(step, start, inputs[..token])
    {
      OneMore(step, start, inputs, token);
      var next := step(state.Value(), inputs[token]);
      state.conv, state.recurrent := next.conv, next.recurrent;
      assert state.Value() == next;
      if token + 1 < |inputs| { snapshots.Store(token + 1, state.Value()); }
    }
    assert inputs[..|inputs|] == inputs;
    ok := true;
  }

  lemma OneMore(step: Step, s: Contents, rows: seq<Input>, n: nat)
    requires n < |rows|
    ensures After(step, s, rows[..n + 1]) == step(After(step, s, rows[..n]), rows[n])
  {
    assert rows[..n + 1][..n] == rows[..n];
  }

  /** A pass over a reused arena, rolled back to `keep` rows: the state is the
      one that running only those rows leaves. Rolling back to every row, or
      past them, has no slot to copy. */
  method PassAndRollBack(step: Step, inputs: seq<Input>, keep: nat, state: DeltaState, snapshots: Snapshots, zero: F32) returns (ok: bool)
    requires KeepsSizes(step) && inputs != [] && snapshots.Valid()
    modifies state, snapshots
    ensures ok <==> keep < |inputs|
    ensures state.Value() == After(step, old(state.Value()), if ok then inputs[..keep] else inputs)
  {
    hide Snapshots.At, After;
    snapshots.Reserve(|inputs|, |state.conv|, |state.recurrent|, zero);
    ghost var start := state.Value();
    ok := ForwardRows(step, inputs, state, snapshots);
    SizesKept(step, start, inputs);
    ok := snapshots.RestoreInto(keep, state);
  }

  /** A pass that failed before this layer ran leaves nothing stored, and
      rolling back leaves the layer as it was. */
  method FailedPassRollsBack(row: nat, state: DeltaState, snapshots: Snapshots, count: nat, zero: F32) returns (ok: bool)
    requires snapshots.Valid()
    modifies state, snapshots
    ensures ok && state.Value() == old(state.Value())
  {
    snapshots.Reserve(count, |state.conv|, |state.recurrent|, zero);
    ok := snapshots.RestoreInto(row, state);
  }

  lemma {:induction false} SizesKept(step: Step, s: Contents, rows: seq<Input>)
    requires KeepsSizes(step)
    ensures |After(step, s, rows).conv| == |s.conv| && |After(step, s, rows).recurrent| == |s.recurrent|
    decreases |rows|
  {
    if rows != [] { SizesKept(step, s, rows[..|rows| - 1]); }
  }
}
