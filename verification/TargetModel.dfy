/** The target model as the session sees it: a stack of full-attention and
    linear layers, one multi-row pass over the stack, the per-row rollback
    snapshots the pass leaves behind, and the rollback itself.

    The numeric content of a layer is an uninterpreted function, so everything
    below holds for every checkpoint. */
module TargetModel {
  import opened Wrappers

  type Token = nat

  /** One hidden row, one KV-cache row, and one linear layer's {conv, recurrent}. */
  type Row(==,!new)
  type KvRow(==,!new)
  type Cell(==,!new)

  datatype Layer =
    | Full(project: (Row, nat) -> KvRow, attend: (seq<KvRow>, Row, nat) -> Row)
    | Linear(advance: (Cell, Row) -> Cell, read: (Cell, Row) -> Row, initial: Cell)

  datatype LayerState = Cache(kv: seq<KvRow>) | Memory(cell: Cell)

  datatype Model = Model(
    layers: seq<Layer>,
    embed: Token -> Row,
    norm: Row -> Row,
    argmax: Row -> Token,
    zero: Row)

  datatype ModelState = ModelState(layers: seq<LayerState>, position: nat)

  /** One arena per linear layer, in layer order. Slot `r` of an arena is the
      layer's cell before row `r`; an empty arena belongs to a layer that did
      not run. */
  datatype Snapshots = Snapshots(arenas: seq<seq<Cell>>, position: nat, rows: nat)

  predicate Fits(layers: seq<Layer>, states: seq<LayerState>) {
    |layers| == |states| && forall i :: 0 <= i < |layers| ==> (layers[i].Full? <==> states[i].Cache?)
  }

  predicate CachesHold(states: seq<LayerState>, position: nat) {
    forall i :: 0 <= i < |states| && states[i].Cache? ==> |states[i].kv| == position
  }

  lemma FitsTail(layers: seq<Layer>, states: seq<LayerState>, position: nat)
    requires Fits(layers, states) && layers != []
    ensures states != [] && (layers[0].Full? <==> states[0].Cache?) && Fits(layers[1..], states[1..])
    ensures CachesHold(states, position) ==>
      CachesHold(states[1..], position) && (states[0].Cache? ==> |states[0].kv| == position)
  {}

  function FreshStates(layers: seq<Layer>): (r: seq<LayerState>)
    ensures Fits(layers, r)
    ensures forall i :: 0 <= i < |r| && r[i].Cache? ==> r[i].kv == []
  {
    if layers == [] then []
    else [if layers[0].Full? then Cache([]) else Memory(layers[0].initial)] + FreshStates(layers[1..])
  }

  // ----- one layer over a run of rows -----

  /** A full-attention layer appends every row's key and value before any row
      attends; row `r` then sees the cache up to and including itself. */
  function Projected(l: Layer, xs: seq<Row>, position: nat): (r: seq<KvRow>)
    requires l.Full?
    ensures |r| == |xs|
  {
    seq(|xs|, i requires 0 <= i < |xs| => l.project(xs[i], position + i))
  }

  function Attended(l: Layer, kv: seq<KvRow>, existing: nat, xs: seq<Row>, position: nat): (r: seq<Row>)
    requires l.Full? && existing + |xs| <= |kv|
    ensures |r| == |xs|
  {
    seq(|xs|, i requires 0 <= i < |xs| => l.attend(kv[..existing + i + 1], xs[i], position + i))
  }

  /** The cells a linear layer passes through: before row 0, before row 1, ...,
      and after the last row. */
  function Cells(l: Layer, c: Cell, xs: seq<Row>): (r: seq<Cell>)
    requires l.Linear?
    ensures |r| == |xs| + 1 && r[0] == c
    decreases |xs|
  {
    if xs == [] then [c] else [c] + Cells(l, l.advance(c, xs[0]), xs[1..])
  }

  function LayerPass(l: Layer, st: LayerState, xs: seq<Row>, position: nat): (r: (LayerState, seq<Row>))
    requires l.Full? <==> st.Cache?
    ensures |r.1| == |xs| && (l.Full? <==> r.0.Cache?)
  {
    if l.Full? then
      var kv := st.kv + Projected(l, xs, position);
      (Cache(kv), Attended(l, kv, |st.kv|, xs, position))
    else
      var cells := Cells(l, st.cell, xs);
      (Memory(cells[|xs|]), seq(|xs|, i requires 0 <= i < |xs| => l.read(cells[i], xs[i])))
  }

  /** The snapshot slots one layer stores during the pass. */
  function LayerSlots(l: Layer, st: LayerState, xs: seq<Row>): (r: seq<Cell>)
    requires l.Linear? && st.Memory?
    ensures |r| == |xs|
  {
    Cells(l, st.cell, xs)[..|xs|]
  }

  // ----- the whole stack, layer by layer -----

  function StackPass(layers: seq<Layer>, states: seq<LayerState>, xs: seq<Row>, position: nat)
    : (r: (seq<LayerState>, seq<Row>))
    requires Fits(layers, states)
    ensures Fits(layers, r.0) && |r.1| == |xs|
    decreases |layers|
  {
    if layers == [] then ([], xs)
    else
      var (st, ys) := LayerPass(layers[0], states[0], xs, position);
      var (rest, out) := StackPass(layers[1..], states[1..], ys, position);
      ([st] + rest, out)
  }

  /** The arenas the pass leaves, when only the first `ran` layers ran. */
  function StackArenas(layers: seq<Layer>, states: seq<LayerState>, xs: seq<Row>, position: nat, ran: nat)
    : (r: seq<seq<Cell>>)
    requires Fits(layers, states)
    decreases |layers|
  {
    if layers == [] then []
    else
      var ys := LayerPass(layers[0], states[0], xs, position).1;
      var rest := StackArenas(layers[1..], states[1..], ys, position, if ran == 0 then 0 else ran - 1);
      if layers[0].Full? then rest
      else [if ran == 0 then [] else LayerSlots(layers[0], states[0], xs)] + rest
  }

  /** The layer states of a pass that failed after its first `ran` layers. */
  function InterruptedStates(layers: seq<Layer>, states: seq<LayerState>, xs: seq<Row>, position: nat, ran: nat)
    : (r: seq<LayerState>)
    requires Fits(layers, states)
    ensures Fits(layers, r)
    decreases |layers|
  {
    if layers == [] || ran == 0 then states
    else
      var (st, ys) := LayerPass(layers[0], states[0], xs, position);
      [st] + InterruptedStates(layers[1..], states[1..], ys, position, ran - 1)
  }

  // ----- the pass over tokens -----

  function Embedded(m: Model, tokens: seq<Token>): (r: seq<Row>)
    ensures |r| == |tokens|
  {
    seq(|tokens|, i requires 0 <= i < |tokens| => m.embed(tokens[i]))
  }

  function Normed(m: Model, rows: seq<Row>): (r: seq<Row>)
    ensures |r| == |rows|
  {
    seq(|rows|, i requires 0 <= i < |rows| => m.norm(rows[i]))
  }

  predicate Usable(m: Model, s: ModelState) {
    Fits(m.layers, s.layers) && CachesHold(s.layers, s.position)
  }

  function NewState(m: Model): (r: ModelState)
    ensures Usable(m, r)
  {
    ModelState(FreshStates(m.layers), 0)
  }

  /** Evaluate `tokens` in one pass: the state after it and one normalized
      hidden row per token. */
  function Pass(m: Model, s: ModelState, tokens: seq<Token>): (r: (ModelState, seq<Row>))
    requires Usable(m, s)
    ensures Fits(m.layers, r.0.layers) && r.0.position == s.position + |tokens| && |r.1| == |tokens|
  {
    var (states, rows) := StackPass(m.layers, s.layers, Embedded(m, tokens), s.position);
    (ModelState(states, s.position + |tokens|), Normed(m, rows))
  }

  function PassSnapshots(m: Model, s: ModelState, tokens: seq<Token>, ran: nat): Snapshots
    requires Usable(m, s)
  {
    Snapshots(StackArenas(m.layers, s.layers, Embedded(m, tokens), s.position, ran), s.position, |tokens|)
  }

  /** A pass that failed after its first `ran` layers: those layers moved, the
      rest did not, and the position was never advanced. */
  function Interrupted(m: Model, s: ModelState, tokens: seq<Token>, ran: nat): ModelState
    requires Usable(m, s)
  {
    ModelState(InterruptedStates(m.layers, s.layers, Embedded(m, tokens), s.position, ran), s.position)
  }

  // ----- rollback -----

  function RollbackLayers(states: seq<LayerState>, arenas: seq<seq<Cell>>, position: nat, row: nat)
    : Option<seq<LayerState>>
    decreases |states|
  {
    if states == [] then Some([])
    else
      match states[0]
      case Cache(kv) =>
        if position > |kv| then None
        else
          (match RollbackLayers(states[1..], arenas, position, row)
           case None => None
           case Some(rest) => Some([Cache(kv[..position])] + rest))
      case Memory(cell) =>
        if arenas == [] || (arenas[0] != [] && row >= |arenas[0]|) then None
        else
          (match RollbackLayers(states[1..], arenas[1..], position, row)
           case None => None
           case Some(rest) => Some([Memory(if arenas[0] == [] then cell else arenas[0][row])] + rest))
  }

  /** `None` is the error the source reports: a row past the pass, a cache too
      short to truncate, a missing arena or a slot that was not stored. */
  function Rollback(s: ModelState, snaps: Snapshots, committed: nat): Option<ModelState> {
    if committed >= snaps.rows && snaps.rows != 0 then None
    else
      match RollbackLayers(s.layers, snaps.arenas, snaps.position + committed, committed)
      case None => None
      case Some(layers) => Some(ModelState(layers, snaps.position + committed))
  }

  // ----- one row at a time -----

  /** Sequential decoding: `context` fed to a fresh state one token per pass. */
  ghost function StateAfter(m: Model, context: seq<Token>): (r: ModelState)
    ensures Usable(m, r) && r.position == |context|
    decreases |context|
  {
    if context == [] then NewState(m)
    else
      var before := StateAfter(m, context[..|context| - 1]);
      PassKeepsUsable(m, before, [context[|context| - 1]]);
      Pass(m, before, [context[|context| - 1]]).0
  }

  /** The normalized hidden row of the last token of `context`. */
  ghost function HiddenRow(m: Model, context: seq<Token>): Row
    requires context != []
  {
    Pass(m, StateAfter(m, context[..|context| - 1]), [context[|context| - 1]]).1[0]
  }

  /** The target's own greedy choice after `context`. */
  ghost function Greedy(m: Model, context: seq<Token>): Token
    requires context != []
  {
    m.argmax(HiddenRow(m, context))
  }

  // ----- a batched pass is the sequential one -----

  lemma {:induction false} CellsSplit(l: Layer, c: Cell, xs: seq<Row>, ys: seq<Row>)
    requires l.Linear?
    ensures Cells(l, c, xs + ys)[..|xs|] == Cells(l, c, xs)[..|xs|]
    ensures Cells(l, c, xs + ys)[|xs|..] == Cells(l, Cells(l, c, xs)[|xs|], ys)
    decreases |xs|
  {
    if xs == [] {
      assert xs + ys == ys;
    } else {
      assert (xs + ys)[1..] == xs[1..] + ys;
      CellsSplit(l, l.advance(c, xs[0]), xs[1..], ys);
      var whole, left := Cells(l, l.advance(c, xs[0]), xs[1..] + ys), Cells(l, l.advance(c, xs[0]), xs[1..]);
      assert Cells(l, c, xs + ys) == [c] + whole;
      assert ([c] + whole)[|xs|..] == whole[|xs| - 1..];
      assert ([c] + whole)[..|xs|] == [c] + whole[..|xs| - 1];
      assert ([c] + left)[..|xs|] == [c] + left[..|xs| - 1];
    }
  }

  lemma FullSplit(l: Layer, kv: seq<KvRow>, xs: seq<Row>, ys: seq<Row>, position: nat)
    requires l.Full?
    ensures var (st1, out1) := LayerPass(l, Cache(kv), xs, position);
            var (st2, out2) := LayerPass(l, st1, ys, position + |xs|);
            LayerPass(l, Cache(kv), xs + ys, position) == (st2, out1 + out2)
  {
    var (st1, out1) := LayerPass(l, Cache(kv), xs, position);
    var (st2, out2) := LayerPass(l, st1, ys, position + |xs|);
    var (st3, out3) := LayerPass(l, Cache(kv), xs + ys, position);
    assert st3.kv == st2.kv;
    forall i | 0 <= i < |xs| + |ys| ensures out3[i] == (out1 + out2)[i] {
      assert out3[i] == l.attend(st3.kv[..|kv| + i + 1], (xs + ys)[i], position + i);
      if i < |xs| {
        assert st3.kv[..|kv| + i + 1] == st1.kv[..|kv| + i + 1];
      } else {
        var j := i - |xs|;
        assert out2[j] == l.attend(st2.kv[..|st1.kv| + j + 1], ys[j], position + |xs| + j);
        assert |st1.kv| + j + 1 == |kv| + i + 1;
      }
    }
    assert out3 == out1 + out2;
  }

  lemma LinearSplit(l: Layer, c: Cell, xs: seq<Row>, ys: seq<Row>, position: nat)
    requires l.Linear?
    ensures var (st1, out1) := LayerPass(l, Memory(c), xs, position);
            var (st2, out2) := LayerPass(l, st1, ys, position + |xs|);
            LayerPass(l, Memory(c), xs + ys, position) == (st2, out1 + out2)
  {
    var (st1, out1) := LayerPass(l, Memory(c), xs, position);
    var (st2, out2) := LayerPass(l, st1, ys, position + |xs|);
    var (st3, out3) := LayerPass(l, Memory(c), xs + ys, position);
    CellsSplit(l, c, xs, ys);
    var whole, left := Cells(l, c, xs + ys), Cells(l, c, xs);
    var right := Cells(l, left[|xs|], ys);
    assert whole[|xs|..][|ys|] == whole[|xs| + |ys|];
    forall i | 0 <= i < |xs| + |ys| ensures out3[i] == (out1 + out2)[i] {
      if i < |xs| {
        assert whole[..|xs|][i] == left[..|xs|][i];
      } else {
        assert whole[|xs|..][i - |xs|] == right[i - |xs|];
      }
    }
    assert out3 == out1 + out2;
  }

  lemma LayerPassSplit(l: Layer, st: LayerState, xs: seq<Row>, ys: seq<Row>, position: nat)
    requires l.Full? <==> st.Cache?
    ensures var (st1, out1) := LayerPass(l, st, xs, position);
            var (st2, out2) := LayerPass(l, st1, ys, position + |xs|);
            LayerPass(l, st, xs + ys, position) == (st2, out1 + out2)
  {
    if l.Full? { FullSplit(l, st.kv, xs, ys, position); } else { LinearSplit(l, st.cell, xs, ys, position); }
  }

  /** Row-major and layer-major traversal of the stack agree at every row
      boundary: a pass over `xs + ys` is the pass over `xs` followed by the
      pass over `ys`. */
  lemma {:induction false} StackPassSplit(layers: seq<Layer>, states: seq<LayerState>, xs: seq<Row>, ys: seq<Row>, position: nat)
    requires Fits(layers, states)
    ensures var (s1, out1) := StackPass(layers, states, xs, position);
            var (s2, out2) := StackPass(layers, s1, ys, position + |xs|);
            StackPass(layers, states, xs + ys, position) == (s2, out1 + out2)
    decreases |layers|
  {
    if layers != [] {
      LayerPassSplit(layers[0], states[0], xs, ys, position);
      var (st1, mid1) := LayerPass(layers[0], states[0], xs, position);
      var (st2, mid2) := LayerPass(layers[0], st1, ys, position + |xs|);
      StackPassSplit(layers[1..], states[1..], mid1, mid2, position);
      var (s1, out1) := StackPass(layers, states, xs, position);
      assert s1[0] == st1;
      assert s1[1..] == StackPass(layers[1..], states[1..], mid1, position).0;
    }
  }

  lemma {:induction false} StackPassCaches(layers: seq<Layer>, states: seq<LayerState>, xs: seq<Row>, position: nat, i: nat)
    requires Fits(layers, states) && i < |states| && states[i].Cache?
    ensures StackPass(layers, states, xs, position).0[i].Cache?
    ensures |StackPass(layers, states, xs, position).0[i].kv| == |states[i].kv| + |xs|
    decreases |layers|
  {
    if i > 0 {
      var ys := LayerPass(layers[0], states[0], xs, position).1;
      StackPassCaches(layers[1..], states[1..], ys, position, i - 1);
    }
  }

  lemma PassKeepsUsable(m: Model, s: ModelState, tokens: seq<Token>)
    requires Usable(m, s)
    ensures Usable(m, Pass(m, s, tokens).0)
  {
    forall i | 0 <= i < |s.layers| && s.layers[i].Cache?
      ensures |Pass(m, s, tokens).0.layers[i].kv| == s.position + |tokens|
    {
      StackPassCaches(m.layers, s.layers, Embedded(m, tokens), s.position, i);
    }
  }

  lemma PassSplit(m: Model, s: ModelState, xs: seq<Token>, ys: seq<Token>)
    requires Usable(m, s)
    ensures Usable(m, Pass(m, s, xs).0)
    ensures var (s1, rows1) := Pass(m, s, xs);
            var (s2, rows2) := Pass(m, s1, ys);
            Pass(m, s, xs + ys) == (s2, rows1 + rows2)
  {
    PassKeepsUsable(m, s, xs);
    assert Embedded(m, xs + ys) == Embedded(m, xs) + Embedded(m, ys);
    StackPassSplit(m.layers, s.layers, Embedded(m, xs), Embedded(m, ys), s.position);
    var (t1, out1) := StackPass(m.layers, s.layers, Embedded(m, xs), s.position);
    var (t2, out2) := StackPass(m.layers, t1, Embedded(m, ys), s.position + |xs|);
    assert Normed(m, out1 + out2) == Normed(m, out1) + Normed(m, out2);
  }

  /** A batched pass over `tokens` ends where sequential decoding ends... */
  lemma {:induction false} BatchedState(m: Model, context: seq<Token>, tokens: seq<Token>)
    ensures Pass(m, StateAfter(m, context), tokens).0 == StateAfter(m, context + tokens)
    decreases |tokens|
  {
    if tokens == [] {
      EmptyPass(m, StateAfter(m, context));
      assert context + tokens == context;
    } else {
      hide Pass, StateAfter, HiddenRow, Usable;
      var init, last := tokens[..|tokens| - 1], tokens[|tokens| - 1];
      assert init + [last] == tokens;
      BatchedState(m, context, init);
      PassSplit(m, StateAfter(m, context), init, [last]);
      assert context + tokens == context + init + [last];
      OneMoreToken(m, context + init, last);
    }
  }

  /** ... and its row `i` is the row sequential decoding computes for token `i`. */
  lemma BatchedRow(m: Model, context: seq<Token>, tokens: seq<Token>, i: nat)
    requires i < |tokens|
    ensures Pass(m, StateAfter(m, context), tokens).1[i] == HiddenRow(m, context + tokens[..i + 1])
  {
    hide Pass, StateAfter, HiddenRow, Usable;
    var s, before := StateAfter(m, context), tokens[..i];
    assert tokens[..i + 1] + tokens[i + 1..] == tokens;
    assert before + [tokens[i]] == tokens[..i + 1];
    PassSplit(m, s, tokens[..i + 1], tokens[i + 1..]);
    PassSplit(m, s, before, [tokens[i]]);
    BatchedState(m, context, before);
    assert context + before + [tokens[i]] == context + tokens[..i + 1];
    OneMoreToken(m, context + before, tokens[i]);
  }

  lemma BatchedPass(m: Model, context: seq<Token>, tokens: seq<Token>)
    ensures Pass(m, StateAfter(m, context), tokens).0 == StateAfter(m, context + tokens)
    ensures forall i :: 0 <= i < |tokens| ==>
      Pass(m, StateAfter(m, context), tokens).1[i] == HiddenRow(m, context + tokens[..i + 1])
  {
    hide Pass, StateAfter, HiddenRow, Usable;
    BatchedState(m, context, tokens);
    forall i | 0 <= i < |tokens|
      ensures Pass(m, StateAfter(m, context), tokens).1[i] == HiddenRow(m, context + tokens[..i + 1])
    {
      BatchedRow(m, context, tokens, i);
    }
  }

  lemma OneMoreToken(m: Model, context: seq<Token>, t: Token)
    ensures StateAfter(m, context + [t]) == Pass(m, StateAfter(m, context), [t]).0
    ensures HiddenRow(m, context + [t]) == Pass(m, StateAfter(m, context), [t]).1[0]
  {
    assert (context + [t])[..|context + [t]| - 1] == context;
  }

  lemma {:induction false} EmptyStackPass(layers: seq<Layer>, states: seq<LayerState>, position: nat)
    requires Fits(layers, states)
    ensures StackPass(layers, states, [], position) == (states, [])
    decreases |layers|
  {
    if layers != [] {
      EmptyStackPass(layers[1..], states[1..], position);
      var (st, ys) := LayerPass(layers[0], states[0], [], position);
      assert ys == [];
      if layers[0].Full? {
        assert st.kv == states[0].kv;
      }
      assert [states[0]] + states[1..] == states;
    }
  }

  lemma EmptyPass(m: Model, s: ModelState)
    requires Usable(m, s)
    ensures Pass(m, s, []) == (s, [])
  {
    assert Embedded(m, []) == [];
    EmptyStackPass(m.layers, s.layers, s.position);
  }

  // ----- rollback lands on the sequential state -----

  /** What one layer has done at an interior row boundary of a longer pass. */
  lemma LayerPrefix(l: Layer, st: LayerState, xs: seq<Row>, position: nat, k: nat)
    requires (l.Full? <==> st.Cache?) && k <= |xs|
    ensures LayerPass(l, st, xs[..k], position).1 == LayerPass(l, st, xs, position).1[..k]
    ensures l.Full? ==> LayerPass(l, st, xs[..k], position).0.kv == LayerPass(l, st, xs, position).0.kv[..|st.kv| + k]
    ensures l.Linear? ==> LayerPass(l, st, xs[..k], position).0.cell == Cells(l, st.cell, xs)[k]
  {
    assert xs[..k] + xs[k..] == xs;
    LayerPassSplit(l, st, xs[..k], xs[k..], position);
    if l.Linear? {
      CellsSplit(l, st.cell, xs[..k], xs[k..]);
      assert Cells(l, st.cell, xs)[k..][0] == Cells(l, st.cell, xs)[k];
    }
  }

  /** One step of the rollback recursion. */
  lemma RollbackStep(st: LayerState, rest: seq<LayerState>, arenas: seq<seq<Cell>>, position: nat, row: nat)
    ensures st.Cache? && position <= |st.kv| && RollbackLayers(rest, arenas, position, row).Some? ==>
      RollbackLayers([st] + rest, arenas, position, row)
      == Some([Cache(st.kv[..position])] + RollbackLayers(rest, arenas, position, row).value)
    ensures st.Memory? && arenas != [] && arenas[0] == [] && RollbackLayers(rest, arenas[1..], position, row).Some? ==>
      RollbackLayers([st] + rest, arenas, position, row)
      == Some([st] + RollbackLayers(rest, arenas[1..], position, row).value)
    ensures st.Memory? && arenas != [] && row < |arenas[0]| && RollbackLayers(rest, arenas[1..], position, row).Some? ==>
      RollbackLayers([st] + rest, arenas, position, row)
      == Some([Memory(arenas[0][row])] + RollbackLayers(rest, arenas[1..], position, row).value)
  {
    assert ([st] + rest)[1..] == rest;
  }

  lemma StackPassStep(layers: seq<Layer>, states: seq<LayerState>, xs: seq<Row>, position: nat)
    requires Fits(layers, states) && layers != []
    ensures var (st, ys) := LayerPass(layers[0], states[0], xs, position);
            StackPass(layers, states, xs, position).0 == [st] + StackPass(layers[1..], states[1..], ys, position).0
  {}

  lemma {:induction false} RollbackStack(layers: seq<Layer>, states: seq<LayerState>, xs: seq<Row>,
                                         position: nat, row: nat, later: nat)
    requires Fits(layers, states) && row <= later <= |xs| && row < |xs|
    requires CachesHold(states, position)
    ensures RollbackLayers(StackPass(layers, states, xs[..later], position).0,
                           StackArenas(layers, states, xs, position, |layers|), position + row, row)
         == Some(StackPass(layers, states, xs[..row], position).0)
    decreases |layers|
  {
    if layers != [] {
      hide RollbackLayers, LayerPass, Cells, StackPass, Fits, CachesHold;
      FitsTail(layers, states, position);
      var l, st := layers[0], states[0];
      LayerPrefix(l, st, xs, position, later);
      LayerPrefix(l, st, xs, position, row);
      StackPassStep(layers, states, xs[..later], position);
      StackPassStep(layers, states, xs[..row], position);
      var (whole, ys) := LayerPass(l, st, xs, position);
      var st2 := LayerPass(l, st, xs[..later], position).0;
      RollbackStack(layers[1..], states[1..], ys, position, row, later);
      var rest := StackPass(layers[1..], states[1..], ys[..later], position).0;
      RollbackStep(st2, rest, StackArenas(layers, states, xs, position, |layers|), position + row, row);
      if l.Full? {
        assert whole.kv[..position + later][..position + row] == whole.kv[..position + row];
      }
    } else {
      assert StackPass(layers, states, xs[..row], position).0 == [];
    }
  }

  /** After a snapshotted pass over `tokens`, a rollback to row `row`, whether
      from the end of the pass or from an earlier rollback to `later`, gives
      exactly the state of decoding only the first `row` tokens. */
  lemma RollbackIsPrefix(m: Model, context: seq<Token>, tokens: seq<Token>, row: nat, later: nat)
    requires row < |tokens| && row <= later <= |tokens|
    ensures Rollback(StateAfter(m, context + tokens[..later]),
                     PassSnapshots(m, StateAfter(m, context), tokens, |m.layers|), row)
         == Some(StateAfter(m, context + tokens[..row]))
  {
    hide StateAfter, StackPass, StackArenas, RollbackLayers;
    var s := StateAfter(m, context);
    BatchedState(m, context, tokens[..later]);
    BatchedState(m, context, tokens[..row]);
    assert Embedded(m, tokens[..later]) == Embedded(m, tokens)[..later];
    assert Embedded(m, tokens[..row]) == Embedded(m, tokens)[..row];
    RollbackStack(m.layers, s.layers, Embedded(m, tokens), s.position, row, later);
  }

  /** And only to a row of the pass. */
  lemma RollbackOnlyInside(m: Model, context: seq<Token>, tokens: seq<Token>, row: nat)
    requires tokens != []
    ensures Rollback(StateAfter(m, context + tokens), PassSnapshots(m, StateAfter(m, context), tokens, |m.layers|), row).Some?
      <==> row < |tokens|
  {
    hide StateAfter, StackArenas, RollbackLayers;
    if row < |tokens| {
      RollbackIsPrefix(m, context, tokens, row, |tokens|);
      assert tokens[..|tokens|] == tokens;
    }
  }

  lemma {:induction false} RollbackUntouched(layers: seq<Layer>, states: seq<LayerState>, xs: seq<Row>, position: nat)
    requires Fits(layers, states)
    requires CachesHold(states, position)
    ensures RollbackLayers(states, StackArenas(layers, states, xs, position, 0), position, 0) == Some(states)
    decreases |layers|
  {
    if layers != [] {
      var ys := LayerPass(layers[0], states[0], xs, position).1;
      RollbackUntouched(layers[1..], states[1..], ys, position);
      assert [states[0]] + states[1..] == states;
      if layers[0].Full? {
        assert states[0].kv[..position] == states[0].kv;
      }
    }
  }

  /** A layer that ran still holds what it started from: the cache as a prefix,
      the cell in slot 0. */
  lemma LayerStart(l: Layer, st: LayerState, xs: seq<Row>, position: nat)
    requires (l.Full? <==> st.Cache?) && xs != []
    ensures l.Full? ==> |LayerPass(l, st, xs, position).0.kv| >= |st.kv|
    ensures l.Full? ==> Cache(LayerPass(l, st, xs, position).0.kv[..|st.kv|]) == st
    ensures l.Linear? ==> LayerSlots(l, st, xs) != [] && Memory(LayerSlots(l, st, xs)[0]) == st
  {}

  /** Undoing a layer that ran gives back what it started from. */
  lemma LayerUndone(l: Layer, st: LayerState, xs: seq<Row>, position: nat, rest: seq<LayerState>, arenas: seq<seq<Cell>>,
                    undone: seq<LayerState>)
    requires (l.Full? <==> st.Cache?) && xs != [] && (st.Cache? ==> |st.kv| == position)
    requires RollbackLayers(rest, arenas, position, 0) == Some(undone)
    ensures RollbackLayers([LayerPass(l, st, xs, position).0] + rest,
                           (if l.Full? then [] else [LayerSlots(l, st, xs)]) + arenas, position, 0)
         == Some([st] + undone)
  {
    hide RollbackLayers, LayerPass, LayerSlots, Cells;
    LayerStart(l, st, xs, position);
    var all := (if l.Full? then [] else [LayerSlots(l, st, xs)]) + arenas;
    assert if l.Full? then all == arenas else all[1..] == arenas;
    RollbackStep(LayerPass(l, st, xs, position).0, rest, all, position, 0);
  }

  lemma InterruptedStep(layers: seq<Layer>, states: seq<LayerState>, xs: seq<Row>, position: nat, ran: nat)
    requires Fits(layers, states) && layers != [] && ran > 0
    ensures var (st, ys) := LayerPass(layers[0], states[0], xs, position);
      && InterruptedStates(layers, states, xs, position, ran)
         == [st] + InterruptedStates(layers[1..], states[1..], ys, position, ran - 1)
      && StackArenas(layers, states, xs, position, ran)
         == (if layers[0].Full? then [] else [LayerSlots(layers[0], states[0], xs)])
            + StackArenas(layers[1..], states[1..], ys, position, ran - 1)
  {
    hide LayerPass, LayerSlots;
  }

  ghost predicate Undone(layers: seq<Layer>, states: seq<LayerState>, xs: seq<Row>, position: nat, ran: nat)
    requires Fits(layers, states)
  {
    RollbackLayers(InterruptedStates(layers, states, xs, position, ran),
                   StackArenas(layers, states, xs, position, ran), position, 0) == Some(states)
  }

  lemma UndoneStep(layers: seq<Layer>, states: seq<LayerState>, xs: seq<Row>, position: nat, ran: nat)
    requires Fits(layers, states) && CachesHold(states, position) && layers != [] && ran > 0 && xs != []
    requires Undone(layers[1..], states[1..], LayerPass(layers[0], states[0], xs, position).1, position, ran - 1)
    ensures Undone(layers, states, xs, position, ran)
  {
    hide RollbackLayers, LayerPass, LayerSlots, Cells, InterruptedStates, StackArenas;
    InterruptedStep(layers, states, xs, position, ran);
    var ys := LayerPass(layers[0], states[0], xs, position).1;
    LayerUndone(layers[0], states[0], xs, position, InterruptedStates(layers[1..], states[1..], ys, position, ran - 1),
                StackArenas(layers[1..], states[1..], ys, position, ran - 1), states[1..]);
    assert [states[0]] + states[1..] == states;
  }

  lemma {:induction false} RollbackInterruptedStack(layers: seq<Layer>, states: seq<LayerState>, xs: seq<Row>, position: nat, ran: nat)
    requires Fits(layers, states) && xs != []
    requires CachesHold(states, position)
    ensures Undone(layers, states, xs, position, ran)
    decreases |layers|
  {
    hide RollbackLayers, InterruptedStates, StackArenas, LayerPass, Undone;
    if layers == [] || ran == 0 {
      RollbackUntouched(layers, states, xs, position);
      NoneRan(layers, states, xs, position, ran);
    } else {
      FitsTail(layers, states, position);
      RollbackInterruptedStack(layers[1..], states[1..], LayerPass(layers[0], states[0], xs, position).1, position, ran - 1);
      UndoneStep(layers, states, xs, position, ran);
    }
  }

  lemma NoneRan(layers: seq<Layer>, states: seq<LayerState>, xs: seq<Row>, position: nat, ran: nat)
    requires Fits(layers, states) && (layers == [] || ran == 0)
    requires RollbackLayers(states, StackArenas(layers, states, xs, position, 0), position, 0) == Some(states)
    ensures Undone(layers, states, xs, position, ran)
  {}

  /** A pass that fails after any number of layers is undone exactly by the
      rollback to slot 0. */
  lemma InterruptedPassUndone(m: Model, s: ModelState, tokens: seq<Token>, ran: nat)
    requires Usable(m, s) && tokens != []
    ensures Rollback(Interrupted(m, s, tokens, ran), PassSnapshots(m, s, tokens, ran), 0) == Some(s)
  {
    RollbackInterruptedStack(m.layers, s.layers, Embedded(m, tokens), s.position, ran);
  }
}
