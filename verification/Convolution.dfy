/** The causal depthwise convolution of a linear layer, one token at a time over
    a rolling history, and the layouts of its value heads. */
module Convolution {
  import opened Indexing
  import opened Buffers

  function Silu(f: Ops, x: F32): F32 { f.mul(x, Sigmoid(f, x)) }

  /** One channel's sum: the newest tap first, then the window in order. */
  function TapSum(f: Ops, weights: seq<F32>, window: seq<F32>, x: F32, n: nat): F32
    requires |weights| == |window| + 1 && n <= |window|
  {
    if n == 0 then f.mul(weights[|window|], x)
    else f.add(TapSum(f, weights, window, x, n - 1), f.mul(weights[n - 1], window[n - 1]))
  }

  function WeightRow(weights: seq<F32>, channels: nat, kernel: pos, channel: nat): (r: seq<F32>)
    requires |weights| == Size(channels, kernel) && channel < channels
    ensures |r| == kernel
  {
    ProductGrows(channel + 1, channels, kernel);
    weights[channel * kernel..channel * kernel + kernel]
  }

  /** One channel of the last inputs. */
  function ChannelOf(history: seq<seq<F32>>, channel: nat): (r: seq<F32>)
    requires forall t :: 0 <= t < |history| ==> channel < |history[t]|
    ensures |r| == |history|
  {
    seq(|history|, t requires 0 <= t < |history| => history[t][channel])
  }

  function ConvolvedAt(f: Ops, weights: seq<F32>, kernel: pos, history: seq<seq<F32>>, input: seq<F32>, channel: nat): F32
    requires |weights| == Size(|input|, kernel) && |history| == kernel - 1 && Even(history, |input|) && channel < |input|
  {
    Silu(f, TapSum(f, WeightRow(weights, |input|, kernel, channel), ChannelOf(history, channel), input[channel], |history|))
  }

  function Convolved(f: Ops, weights: seq<F32>, kernel: pos, history: seq<seq<F32>>, input: seq<F32>): (r: seq<F32>)
    requires |weights| == Size(|input|, kernel) && |history| == kernel - 1 && Even(history, |input|)
    ensures |r| == |input|
  {
    seq(|input|, c requires 0 <= c < |input| => ConvolvedAt(f, weights, kernel, history, input, c))
  }

  /** The history after one more input. */
  function Rolled(history: seq<seq<F32>>, input: seq<F32>): (r: seq<seq<F32>>)
    ensures |r| == |history|
  {
    if history == [] then [] else history[1..] + [input]
  }

  // ----- the step -----

  /** A channel's window after one more input. */
  function RolledRow(window: seq<F32>, x: F32): (r: seq<F32>)
    ensures |r| == |window|
  {
    if window == [] then [] else window[1..] + [x]
  }

  /** Rotate a run left by one and put `x` last. */
  method Rotate(state: array<F32>, at: nat, n: nat, x: F32, ghost window: seq<F32>)
    requires 0 < n == |window| && at + n <= state.Length && state[at..at + n] == window
    modifies state
    ensures OutsideSame(old(state[..]), state[..], at, at + n)
    ensures state[at..at + n] == RolledRow(window, x)
  {
    ghost var rolled := RolledRow(window, x);
    for t := 0 to n - 1
      invariant OutsideSame(old(state[..]), state[..], at, at + t)
      invariant forall u :: 0 <= u < t ==> state[at + u] == rolled[u]
    {
      assert state[at + t + 1] == old(state[..])[at + t + 1] == old(state[at..at + n])[t + 1] == window[t + 1];
      state[at + t] := state[at + t + 1];
    }
    state[at + n - 1] := x;
  }

  method SumTaps(f: Ops, weights: seq<F32>, state: array<F32>, at: nat, x: F32, ghost window: seq<F32>) returns (sum: F32)
    requires |weights| == |window| + 1 && at + |window| <= state.Length && state[at..at + |window|] == window
    ensures sum == TapSum(f, weights, window, x, |window|)
  {
    var n := |weights| - 1;
    sum := f.mul(weights[n], x);
    for t := 0 to n
      invariant sum == TapSum(f, weights, window, x, t)
    {
      assert state[at + t] == state[at..at + |window|][t];
      sum := f.add(sum, f.mul(weights[t], state[at + t]));
    }
  }

  /** One channel: sum its taps, then roll its history if there is any. */
  method ConvChannel(f: Ops, weights: seq<F32>, state: array<F32>, at: nat, x: F32, ghost window: seq<F32>) returns (y: F32)
    requires |weights| == |window| + 1 && at + |window| <= state.Length && state[at..at + |window|] == window
    modifies state
    ensures y == Silu(f, TapSum(f, weights, window, x, |window|))
    ensures OutsideSame(old(state[..]), state[..], at, at + |window|)
    ensures state[at..at + |window|] == RolledRow(window, x)
  {
    hide TapSum, Silu;
    var sum := SumTaps(f, weights, state, at, x, window);
    y := Silu(f, sum);
    if |weights| > 1 { Rotate(state, at, |weights| - 1, x, window); }
  }

  /** Convolve one token and roll the history, channel by channel. */
  method ConvStep(f: Ops, input: seq<F32>, weights: seq<F32>, kernel: pos, state: array<F32>, output: array<F32>, ghost history: seq<seq<F32>>)
    requires |weights| == Size(|input|, kernel) && |history| == kernel - 1 && Even(history, |input|)
    requires state.Length == Size(|input|, kernel - 1) && Grid(state[..], 0, history, 0, |input|)
    requires output.Length == |input| && state != output
    modifies state, output
    ensures Grid(state[..], 0, Rolled(history, input), 0, |input|)
    ensures output[..] == Convolved(f, weights, kernel, history, input)
  {
    hide Grid, Size, TapSum, Silu, OutsideSame, Rolled, WeightRow, ChannelOf, Convolved;
    var n := kernel - 1;
    ghost var rolled, want := Rolled(history, input), Convolved(f, weights, kernel, history, input);
    GridEmpty(state[..], 0, rolled, 0);
    RolledEven(history, input);
    for c := 0 to |input|
      invariant Grid(state[..], 0, rolled, 0, c) && Grid(state[..], 0, history, c, |input|)
      invariant forall x :: 0 <= x < c ==> output[x] == want[x]
    {
      ChannelFits(c, |input|, n);
      ghost var before := state[..];
      WindowIs(before, history, c, |input|);
      ConvolvedIs(f, weights, kernel, history, input, c);
      output[c] := ConvChannel(f, WeightRow(weights, |input|, kernel, c), state, c * n, input[c], ChannelOf(history, c));
      RolledCells(before, state[..], history, input, c);
    }
  }

  lemma RolledEven(history: seq<seq<F32>>, input: seq<F32>)
    requires Even(history, |input|)
    ensures Even(Rolled(history, input), |input|)
  {}

  lemma ConvolvedIs(f: Ops, weights: seq<F32>, kernel: pos, history: seq<seq<F32>>, input: seq<F32>, c: nat)
    requires |weights| == Size(|input|, kernel) && |history| == kernel - 1 && Even(history, |input|) && c < |input|
    ensures Convolved(f, weights, kernel, history, input)[c]
         == Silu(f, TapSum(f, WeightRow(weights, |input|, kernel, c), ChannelOf(history, c), input[c], |history|))
  {
    hide TapSum, Silu, WeightRow;
  }

  lemma ChannelFits(c: nat, channels: nat, n: nat)
    requires c < channels
    ensures c * n + n <= Size(channels, n)
  {
    ProductGrows(c + 1, channels, n);
  }

  lemma WindowIs(x: seq<F32>, history: seq<seq<F32>>, c: nat, channels: nat)
    requires c < channels && Even(history, channels) && Grid(x, 0, history, c, channels) && c * |history| + |history| <= |x|
    ensures x[c * |history|..c * |history| + |history|] == ChannelOf(history, c)
  {
    hide Grid;
    GridAt(x, 0, history, c, channels, c);
    var at := c * |history|;
    var a, b := x[at..at + |history|], ChannelOf(history, c);
    forall l | 0 <= l < |history| ensures a[l] == b[l] {
      assert x[0 + c * |history| + l] == history[l][c];
    }
  }

  /** One more channel rolled. */
  lemma RolledCells(x: seq<F32>, y: seq<F32>, history: seq<seq<F32>>, input: seq<F32>, c: nat)
    requires c < |input| && Even(history, |input|) && c * |history| + |history| <= |y|
    requires Grid(x, 0, Rolled(history, input), 0, c) && Grid(x, 0, history, c, |input|)
    requires OutsideSame(x, y, c * |history|, c * |history| + |history|)
    requires y[c * |history|..c * |history| + |history|] == RolledRow(ChannelOf(history, c), input[c])
    ensures Grid(y, 0, Rolled(history, input), 0, c + 1) && Grid(y, 0, history, c + 1, |input|)
  {
    hide Grid, OutsideSame;
    var rolled, at := Rolled(history, input), c * |history|;
    forall l | 0 <= l < |rolled| && c < |rolled[l]| ensures y[0 + c * |rolled| + l] == rolled[l][c] {
      assert y[at..at + |history|][l] == RolledRow(ChannelOf(history, c), input[c])[l];
    }
    RolledEven(history, input);
    OutsideSelf(x, 0, |x|);
    SameSize(x, y, at, at + |history|);
    InPlaceStep(x, x, y, 0, rolled, history, 0, c, |input|, 0, |x|);
  }

  lemma SameSize(x: seq<F32>, y: seq<F32>, lo: nat, hi: nat)
    requires OutsideSame(x, y, lo, hi)
    ensures |x| == |y|
  {}

  // ----- the stream -----

  /** The window of token `t` in a stream after a prior history. */
  function History(prior: seq<seq<F32>>, inputs: seq<seq<F32>>, t: nat): (h: seq<seq<F32>>)
    requires t <= |inputs|
    ensures |h| == |prior|
  {
    (prior + inputs)[t..t + |prior|]
  }

  lemma HistoryEven(prior: seq<seq<F32>>, inputs: seq<seq<F32>>, channels: nat, t: nat)
    requires Even(prior, channels) && Even(inputs, channels) && t <= |inputs|
    ensures Even(History(prior, inputs, t), channels) && (t < |inputs| ==> |inputs[t]| == channels)
  {}

  /** Rolling the window of a stream moves it on by one. */
  lemma HistoryRolls(prior: seq<seq<F32>>, inputs: seq<seq<F32>>, t: nat)
    requires t < |inputs|
    ensures Rolled(History(prior, inputs, t), inputs[t]) == History(prior, inputs, t + 1)
  {}

  /** Token `t`'s convolution over its window of the stream. */
  function StreamedAt(f: Ops, inputs: seq<seq<F32>>, channels: nat, weights: seq<F32>, kernel: pos, prior: seq<seq<F32>>, t: nat): seq<F32>
    requires |weights| == Size(channels, kernel) && |prior| == kernel - 1 && Even(prior, channels) && Even(inputs, channels)
    requires t < |inputs|
  {
    HistoryEven(prior, inputs, channels, t);
    Convolved(f, weights, kernel, History(prior, inputs, t), inputs[t])
  }

  /** Convolve a stream of tokens after a prior history. */
  method ConvolveAll(f: Ops, inputs: seq<seq<F32>>, channels: nat, weights: seq<F32>, kernel: pos, state: array<F32>, prior: seq<seq<F32>>)
    returns (outputs: seq<seq<F32>>)
    requires |weights| == Size(channels, kernel) && |prior| == kernel - 1 && Even(prior, channels) && Even(inputs, channels)
    requires state.Length == Size(channels, kernel - 1) && Grid(state[..], 0, prior, 0, channels)
    modifies state
    ensures |outputs| == |inputs|
    ensures forall t :: 0 <= t < |inputs| ==> outputs[t] == StreamedAt(f, inputs, channels, weights, kernel, prior, t)
    ensures Grid(state[..], 0, History(prior, inputs, |inputs|), 0, channels)
  {
    hide Grid, Size, Convolved, Rolled, History, Even;
    var output := new F32[channels](_ => f.zero);
    outputs := [];
    HistoryStarts(prior, inputs);
    for t := 0 to |inputs|
      invariant |outputs| == t && Grid(state[..], 0, History(prior, inputs, t), 0, channels)
      invariant forall u :: 0 <= u < t ==> outputs[u] == StreamedAt(f, inputs, channels, weights, kernel, prior, u)
    {
      HistoryEven(prior, inputs, channels, t);
      ConvStep(f, inputs[t], weights, kernel, state, output, History(prior, inputs, t));
      HistoryRolls(prior, inputs, t);
      outputs := outputs + [output[..]];
    }
  }

  lemma HistoryStarts(prior: seq<seq<F32>>, inputs: seq<seq<F32>>)
    ensures History(prior, inputs, 0) == prior
  {}

  /** The input `i` tokens into the stream, and zero before its start. */
  function PaddedAt(f: Ops, inputs: seq<seq<F32>>, i: int, channel: nat): F32
    requires i < |inputs| && (0 <= i ==> channel < |inputs[i]|)
  {
    if i < 0 then f.zero else inputs[i][channel]
  }

  /** The window of a token and channel in the zero-padded stream. */
  function PaddedWindow(f: Ops, inputs: seq<seq<F32>>, channels: nat, kernel: pos, t: nat, channel: nat): (r: seq<F32>)
    requires t < |inputs| && Even(inputs, channels) && channel < channels
    ensures |r| == kernel - 1
  {
    seq(kernel - 1, tap requires 0 <= tap < kernel - 1 => PaddedAt(f, inputs, t - (kernel - 1) + tap, channel))
  }

  /** Streaming from a zero state is the windowed convolution of the zero-padded
      history. */
  lemma StreamIsWindowed(f: Ops, inputs: seq<seq<F32>>, channels: nat, weights: seq<F32>, kernel: pos, prior: seq<seq<F32>>, t: nat, channel: nat)
    requires |weights| == Size(channels, kernel) && Even(inputs, channels) && t < |inputs| && channel < channels
    requires |prior| == kernel - 1 && (forall i :: 0 <= i < |prior| ==> prior[i] == seq(channels, _ => f.zero))
    ensures |inputs[t]| == channels == |StreamedAt(f, inputs, channels, weights, kernel, prior, t)|
    ensures StreamedAt(f, inputs, channels, weights, kernel, prior, t)[channel]
         == Silu(f, TapSum(f, WeightRow(weights, channels, kernel, channel),
                           PaddedWindow(f, inputs, channels, kernel, t, channel), inputs[t][channel], kernel - 1))
  {
    hide TapSum, Silu;
    var history := History(prior, inputs, t);
    HistoryEven(prior, inputs, channels, t);
    assert ChannelOf(history, channel) == PaddedWindow(f, inputs, channels, kernel, t, channel) by {
      forall tap | 0 <= tap < kernel - 1
        ensures history[tap][channel] == PaddedAt(f, inputs, t - (kernel - 1) + tap, channel)
      {
        assert history[tap] == (prior + inputs)[t + tap];
      }
    }
  }

  // ----- value heads -----

  datatype ValueHeadLayout = GroupedByKeyHead | TiledByRepeat

  function HeadIndex(layout: ValueHeadLayout, keyHead: nat, repeat: nat, keyHeads: nat, repeats: nat): nat {
    match layout
    case GroupedByKeyHead => At(keyHead, repeats, repeat)
    case TiledByRepeat => At(repeat, keyHeads, keyHead)
  }

  function KeyHeadOf(layout: ValueHeadLayout, index: nat, keyHeads: pos, repeats: pos): nat {
    match layout
    case GroupedByKeyHead => index / repeats
    case TiledByRepeat => index % keyHeads
  }

  function RepeatOf(layout: ValueHeadLayout, index: nat, keyHeads: pos, repeats: pos): nat {
    match layout
    case GroupedByKeyHead => index % repeats
    case TiledByRepeat => index / keyHeads
  }

  /** Both orders are bijections between pairs of key head and repeat and the
      value heads. */
  lemma LayoutIsBijection(layout: ValueHeadLayout, keyHead: nat, repeat: nat, keyHeads: pos, repeats: pos, index: nat)
    ensures keyHead < keyHeads && repeat < repeats ==>
      var i := HeadIndex(layout, keyHead, repeat, keyHeads, repeats);
      && i < Size(keyHeads, repeats)
      && KeyHeadOf(layout, i, keyHeads, repeats) == keyHead && RepeatOf(layout, i, keyHeads, repeats) == repeat
    ensures index < Size(keyHeads, repeats) ==>
      var (k, r) := (KeyHeadOf(layout, index, keyHeads, repeats), RepeatOf(layout, index, keyHeads, repeats));
      k < keyHeads && r < repeats && HeadIndex(layout, k, r, keyHeads, repeats) == index
  {
    hide At, Size;
    SizeCommutes(keyHeads, repeats);
    match layout {
      case GroupedByKeyHead => Pairing(keyHeads, repeats, keyHead, repeat, index);
      case TiledByRepeat => Pairing(repeats, keyHeads, repeat, keyHead, index);
    }
  }

  lemma SizeCommutes(a: nat, b: nat)
    ensures Size(a, b) == Size(b, a)
  {}

  /** Row-major pairing is a bijection. */
  lemma Pairing(majors: pos, size: pos, major: nat, minor: nat, index: nat)
    ensures major < majors && minor < size ==>
      At(major, size, minor) < Size(majors, size) && At(major, size, minor) / size == major && At(major, size, minor) % size == minor
    ensures index < Size(majors, size) ==>
      index / size < majors && index % size < size && At(index / size, size, index % size) == index
  {
    if major < majors && minor < size {
      AtFits(major, majors, size, minor);
      AtInverse(major, size, minor);
    }
    if index < Size(majors, size) { PlaneInRange(index, majors, size); }
  }

  /** Copy every key head's row to each of its value heads: afterwards every
      value head has its own key head's row. */
  method RepeatHeads(layout: ValueHeadLayout, rows: seq<seq<F32>>, repeats: pos) returns (repeated: seq<seq<F32>>)
    requires |rows| > 0
    ensures |repeated| == Size(|rows|, repeats)
    ensures forall i :: 0 <= i < |repeated| ==>
      KeyHeadOf(layout, i, |rows|, repeats) < |rows| && repeated[i] == rows[KeyHeadOf(layout, i, |rows|, repeats)]
  {
    hide HeadIndex, KeyHeadOf, RepeatOf, Size;
    var keyHeads := |rows|;
    repeated := seq(Size(keyHeads, repeats), _ => []);
    for k := 0 to keyHeads
      invariant |repeated| == Size(keyHeads, repeats)
      invariant forall i: nat :: i < |repeated| && KeyHeadOf(layout, i, keyHeads, repeats) < k ==>
        repeated[i] == rows[KeyHeadOf(layout, i, keyHeads, repeats)]
    {
      for r := 0 to repeats
        invariant |repeated| == Size(keyHeads, repeats)
        invariant forall i: nat :: i < |repeated| && KeyHeadOf(layout, i, keyHeads, repeats) < k ==>
          repeated[i] == rows[KeyHeadOf(layout, i, keyHeads, repeats)]
        invariant forall i: nat :: i < |repeated| && KeyHeadOf(layout, i, keyHeads, repeats) == k && RepeatOf(layout, i, keyHeads, repeats) < r ==>
          repeated[i] == rows[k]
      {
        LayoutIsBijection(layout, k, r, keyHeads, repeats, 0);
        var at := HeadIndex(layout, k, r, keyHeads, repeats);
        forall i: nat | i < |repeated| && KeyHeadOf(layout, i, keyHeads, repeats) == k && RepeatOf(layout, i, keyHeads, repeats) == r
          ensures i == at
        {
          LayoutIsBijection(layout, 0, 0, keyHeads, repeats, i);
        }
        repeated := repeated[at := rows[k]];
      }
      forall i: nat | i < |repeated| ensures RepeatOf(layout, i, keyHeads, repeats) < repeats {
        LayoutIsBijection(layout, 0, 0, keyHeads, repeats, i);
      }
    }
    forall i | 0 <= i < |repeated| ensures KeyHeadOf(layout, i, keyHeads, repeats) < keyHeads {
      LayoutIsBijection(layout, 0, 0, keyHeads, repeats, i);
    }
  }
}
