/** The fused quantized matrix product: inputs tiled by rows, repacked
    block-major, run through register tiles into a transposed buffer. */
module FusedMatmul {
  import opened Indexing
  import opened Buffers

  const TILE: pos := 8
  const MULTI_ROW_TILE: pos := 16

  type WeightBlock(==,!new)
  type InputBlock(==,!new)
  type Accumulator(==,!new)

  /** What one kernel computes: how an accumulator takes in one pair of blocks,
      and how a row of floats is quantized. */
  datatype Kernel = Kernel(start: Accumulator, step: (Accumulator, WeightBlock, InputBlock) -> Accumulator,
                           finish: Accumulator -> F32, quantize: (seq<F32>, nat) -> seq<InputBlock>)

  ghost predicate Quantizes(f: Kernel) {
    forall row: seq<F32>, n: nat {:trigger f.quantize(row, n)} :: |f.quantize(row, n)| == n
  }

  // ----- the naive product -----

  /** Fold the first `n` pairs of blocks in order. */
  function Folded(f: Kernel, weights: seq<WeightBlock>, inputs: seq<InputBlock>, n: nat): Accumulator
    requires n <= |weights| && n <= |inputs|
  {
    if n == 0 then f.start else f.step(Folded(f, weights, inputs, n - 1), weights[n - 1], inputs[n - 1])
  }

  function Dot(f: Kernel, weights: seq<WeightBlock>, inputs: seq<InputBlock>): F32
    requires |weights| == |inputs|
  {
    f.finish(Folded(f, weights, inputs, |weights|))
  }

  /** A weight matrix: `rows` rows of `blocks` blocks each. */
  datatype Matrix = Matrix(rows: pos, columns: pos, blocks: nat, weights: seq<seq<WeightBlock>>)

  predicate WellFormed(m: Matrix) {
    |m.weights| == m.rows && forall r :: 0 <= r < m.rows ==> |m.weights[r]| == m.blocks
  }

  lemma SliceFits(start: nat, rows: nat, inputRows: nat, columns: nat)
    requires start + rows <= inputRows
    ensures start * columns <= (start + rows) * columns <= Size(inputRows, columns)
    ensures (start + rows) * columns - start * columns == Size(rows, columns)
  {
    ProductGrows(start, start + rows, columns);
    ProductGrows(start + rows, inputRows, columns);
  }

  /** Some consecutive rows. */
  function Band(xs: seq<F32>, total: nat, start: nat, rows: nat, width: nat): (r: seq<F32>)
    requires |xs| == Size(total, width) && start + rows <= total
    ensures |r| == Size(rows, width)
  {
    SliceFits(start, rows, total, width);
    xs[start * width..(start + rows) * width]
  }

  function InputRow(m: Matrix, xs: seq<F32>, inputRows: nat, row: nat): (r: seq<F32>)
    requires |xs| == Size(inputRows, m.columns) && row < inputRows
    ensures |r| == m.columns
  {
    Band(xs, inputRows, row, 1, m.columns)
  }

  /** One input row, quantized. */
  function QuantizedRow(f: Kernel, m: Matrix, xs: seq<F32>, inputRows: nat, row: nat): (r: seq<InputBlock>)
    requires Quantizes(f) && |xs| == Size(inputRows, m.columns) && row < inputRows
    ensures |r| == m.blocks
  {
    f.quantize(InputRow(m, xs, inputRows, row), m.blocks)
  }

  /** One element of the product. */
  function Element(f: Kernel, m: Matrix, xs: seq<F32>, inputRows: nat, inputRow: nat, outputRow: nat): F32
    requires WellFormed(m) && Quantizes(f) && |xs| == Size(inputRows, m.columns) && inputRow < inputRows && outputRow < m.rows
  {
    Dot(f, m.weights[outputRow], QuantizedRow(f, m, xs, inputRows, inputRow))
  }

  /** The product, one row of outputs per input row. */
  function Product(f: Kernel, m: Matrix, xs: seq<F32>, inputRows: nat): (r: seq<F32>)
    requires WellFormed(m) && Quantizes(f) && |xs| == Size(inputRows, m.columns)
    ensures |r| == Size(inputRows, m.rows)
  {
    seq(Size(inputRows, m.rows), i requires 0 <= i < Size(inputRows, m.rows) =>
      PlaneInRange(i, inputRows, m.rows);
      Element(f, m, xs, inputRows, i / m.rows, i % m.rows))
  }

  // ----- the register tile -----

  /** The blocks of one input row, in a block-major packing. */
  function Packed(packed: seq<InputBlock>, rows: nat, blocks: nat, row: nat): (r: seq<InputBlock>)
    requires |packed| == Size(blocks, rows) && row < rows
    ensures |r| == blocks
  {
    seq(blocks, b requires 0 <= b < blocks =>
      AtFits(b, blocks, rows, row);
      packed[At(b, rows, row)])
  }

  lemma PackedAt(packed: seq<InputBlock>, rows: nat, blocks: nat, row: nat, b: nat)
    requires |packed| == Size(blocks, rows) && row < rows && b < blocks
    ensures At(b, rows, row) < |packed| && Packed(packed, rows, blocks, row)[b] == packed[At(b, rows, row)]
  {
    AtFits(b, blocks, rows, row);
  }

  /** One weight row against every packed input row. */
  function Dots(f: Kernel, weight: seq<WeightBlock>, packed: seq<InputBlock>, rows: nat): (r: seq<F32>)
    requires |packed| == Size(|weight|, rows)
    ensures |r| == rows
  {
    seq(rows, row requires 0 <= row < rows => Dot(f, weight, Packed(packed, rows, |weight|, row)))
  }

  /** `width` input rows against one weight row, in registers: each block is
      decoded once and feeds every lane. */
  method TileAccumulators(f: Kernel, weight: seq<WeightBlock>, packed: seq<InputBlock>, rows: nat, base: nat, width: nat)
    returns (acc: seq<Accumulator>)
    requires |packed| == Size(|weight|, rows) && base + width <= rows
    ensures |acc| == width
    ensures forall lane :: 0 <= lane < width ==>
      acc[lane] == Folded(f, weight, Packed(packed, rows, |weight|, base + lane), |weight|)
  {
    hide Packed, Size;
    acc := seq(width, _ => f.start);
    for b := 0 to |weight|
      invariant |acc| == width
      invariant forall lane :: 0 <= lane < width ==> acc[lane] == Folded(f, weight, Packed(packed, rows, |weight|, base + lane), b)
    {
      for lane := 0 to width
        invariant |acc| == width
        invariant forall l :: 0 <= l < width ==>
          acc[l] == Folded(f, weight, Packed(packed, rows, |weight|, base + l), if l < lane then b + 1 else b)
      {
        PackedAt(packed, rows, |weight|, base + lane, b);
        acc := acc[lane := f.step(acc[lane], weight[b], packed[At(b, rows, base + lane)])];
      }
    }
  }

  /** A tile's results, after those of the rows before it. */
  method RunTile(f: Kernel, weight: seq<WeightBlock>, packed: seq<InputBlock>, rows: nat, base: nat, width: nat, out: array<F32>, at: nat)
    requires |packed| == Size(|weight|, rows) && base + width <= rows && at + rows <= out.Length
    requires out[at..at + base] == Dots(f, weight, packed, rows)[..base]
    modifies out
    ensures OutsideSame(old(out[..]), out[..], at + base, at + base + width)
    ensures out[at..at + base + width] == Dots(f, weight, packed, rows)[..base + width]
  {
    hide Packed, Size;
    ghost var want := Dots(f, weight, packed, rows);
    var acc := TileAccumulators(f, weight, packed, rows, base, width);
    for lane := 0 to width
      invariant OutsideSame(old(out[..]), out[..], at + base, at + base + lane)
      invariant out[at..at + base + lane] == want[..base + lane]
    {
      assert f.finish(acc[lane]) == want[base + lane];
      out[at + base + lane] := f.finish(acc[lane]);
      assert out[at..at + base + lane + 1] == out[at..at + base + lane] + [want[base + lane]];
    }
  }

  /** A weight row against every input row: whole tiles, then the remainder. */
  method RowKernel(f: Kernel, weight: seq<WeightBlock>, packed: seq<InputBlock>, rows: nat, out: array<F32>, at: nat)
    requires |packed| == Size(|weight|, rows) && at + rows <= out.Length
    modifies out
    ensures OutsideSame(old(out[..]), out[..], at, at + rows)
    ensures out[at..at + rows] == Dots(f, weight, packed, rows)
  {
    hide Dots, Size;
    var base := 0;
    while base + TILE <= rows
      invariant 0 <= base <= rows && OutsideSame(old(out[..]), out[..], at, at + base)
      invariant out[at..at + base] == Dots(f, weight, packed, rows)[..base]
    {
      RunTile(f, weight, packed, rows, base, TILE, out, at);
      base := base + TILE;
    }
    RunTile(f, weight, packed, rows, base, rows - base, out, at);
  }

  // ----- the fused product -----

  /** Every input row, quantized. */
  function Quantized(f: Kernel, m: Matrix, xs: seq<F32>, inputRows: nat): (r: seq<seq<InputBlock>>)
    requires Quantizes(f) && |xs| == Size(inputRows, m.columns)
    ensures |r| == inputRows && forall i :: 0 <= i < inputRows ==> |r[i]| == m.blocks
  {
    seq(inputRows, i requires 0 <= i < inputRows => QuantizedRow(f, m, xs, inputRows, i))
  }

  /** Block-major order: all the rows' first blocks, then all their second... */
  method Repack(rows: seq<seq<InputBlock>>, blocks: nat) returns (packed: seq<InputBlock>)
    requires forall i :: 0 <= i < |rows| ==> |rows[i]| == blocks
    ensures |packed| == Size(blocks, |rows|)
    ensures forall row :: 0 <= row < |rows| ==> Packed(packed, |rows|, blocks, row) == rows[row]
  {
    packed := [];
    for b := 0 to blocks
      invariant |packed| == Size(b, |rows|)
      invariant forall k, row :: 0 <= k < b && 0 <= row < |rows| ==>
        At(k, |rows|, row) < |packed| && packed[At(k, |rows|, row)] == rows[row][k]
    {
      for r := 0 to |rows|
        invariant |packed| == Size(b, |rows|) + r
        invariant forall k, row :: 0 <= k < b && 0 <= row < |rows| ==>
          At(k, |rows|, row) < |packed| && packed[At(k, |rows|, row)] == rows[row][k]
        invariant forall row :: 0 <= row < r ==> At(b, |rows|, row) < |packed| && packed[At(b, |rows|, row)] == rows[row][b]
      {
        packed := packed + [rows[r][b]];
      }
    }
    forall row | 0 <= row < |rows| ensures Packed(packed, |rows|, blocks, row) == rows[row] {
      forall k | 0 <= k < blocks ensures Packed(packed, |rows|, blocks, row)[k] == rows[row][k] {
        PackedAt(packed, |rows|, blocks, row, k);
      }
    }
  }

  /** The order in which the pool happens to run the weight rows. */
  ghost predicate Covers(order: seq<nat>, rows: nat) {
    (forall k :: 0 <= k < |order| ==> order[k] < rows) && (forall r :: 0 <= r < rows ==> r in order)
  }

  /** Decode each weight block once for all the rows, then transpose back. */
  method FusedForward(f: Kernel, m: Matrix, xs: seq<F32>, inputRows: pos, zero: F32, order: seq<nat>) returns (output: seq<F32>)
    requires WellFormed(m) && Quantizes(f) && |xs| == Size(inputRows, m.columns) && Covers(order, m.rows)
    ensures output == Product(f, m, xs, inputRows)
  {
    hide Packed, Size, Dots, Quantized, RowIs;
    var rows := Quantized(f, m, xs, inputRows);
    var packed := Repack(rows, m.blocks);
    var transposed := new F32[Size(m.rows, inputRows)](_ => zero);
    for k := 0 to |order|
      invariant forall j :: 0 <= j < k ==> RowIs(transposed[..], order[j], inputRows, Dots(f, m.weights[order[j]], packed, inputRows))
    {
      var r := order[k];
      TransposedFits(r, m.rows, inputRows);
      ghost var before := transposed[..];
      RowKernel(f, m.weights[r], packed, inputRows, transposed, At(r, inputRows, 0));
      RowIsNow(transposed[..], r, inputRows, Dots(f, m.weights[r], packed, inputRows));
      RowsStay(before, transposed[..], m.rows, inputRows, r);
    }
    AllRun(f, m, packed, inputRows, transposed[..], order);
    output := Untranspose(f, m, xs, inputRows, packed, transposed, zero);
  }

  lemma AllRun(f: Kernel, m: Matrix, packed: seq<InputBlock>, inputRows: nat, x: seq<F32>, order: seq<nat>)
    requires WellFormed(m) && |packed| == Size(m.blocks, inputRows) && Covers(order, m.rows)
    requires forall j :: 0 <= j < |order| ==> RowIs(x, order[j], inputRows, Dots(f, m.weights[order[j]], packed, inputRows))
    ensures forall q :: 0 <= q < m.rows ==> RowIs(x, q, inputRows, Dots(f, m.weights[q], packed, inputRows))
  {
    hide Dots, RowIs, Size;
    forall q | 0 <= q < m.rows ensures RowIs(x, q, inputRows, Dots(f, m.weights[q], packed, inputRows)) {
      assert q in order;
      var j :| 0 <= j < |order| && order[j] == q;
    }
  }

  /** Row `q` of the transposed buffer. */
  ghost predicate RowIs(x: seq<F32>, q: nat, width: nat, want: seq<F32>) {
    At(q, width, 0) + width <= |x| && x[At(q, width, 0)..At(q, width, 0) + width] == want
  }

  lemma RowIsNow(x: seq<F32>, q: nat, width: nat, want: seq<F32>)
    requires At(q, width, 0) + width <= |x| && x[At(q, width, 0)..At(q, width, 0) + width] == want
    ensures RowIs(x, q, width, want)
  {}

  lemma TransposedFits(r: nat, rows: nat, width: nat)
    requires r < rows
    ensures At(r, width, 0) + width <= Size(rows, width)
  {
    ProductGrows(r + 1, rows, width);
  }

  lemma RowsStay(x: seq<F32>, y: seq<F32>, rows: nat, width: nat, r: nat)
    requires OutsideSame(x, y, At(r, width, 0), At(r, width, 0) + width) && |x| == Size(rows, width)
    ensures forall q, want :: 0 <= q < rows && q != r && RowIs(x, q, width, want) ==> RowIs(y, q, width, want)
  {
    forall q, want | 0 <= q < rows && q != r && RowIs(x, q, width, want) ensures RowIs(y, q, width, want) {
      RowsApart(q, r, width);
      assert y[At(q, width, 0)..At(q, width, 0) + width] == x[At(q, width, 0)..At(q, width, 0) + width];
    }
  }

  lemma RowsApart(a: nat, b: nat, width: nat)
    requires a != b
    ensures At(a, width, 0) + width <= At(b, width, 0) || At(b, width, 0) + width <= At(a, width, 0)
  {
    if a < b { ProductGrows(a + 1, b, width); } else { ProductGrows(b + 1, a, width); }
  }

  /** Back to one row of outputs per input row. */
  method Untranspose(f: Kernel, m: Matrix, xs: seq<F32>, inputRows: nat, ghost packed: seq<InputBlock>, transposed: array<F32>, zero: F32)
    returns (output: seq<F32>)
    requires WellFormed(m) && Quantizes(f) && |xs| == Size(inputRows, m.columns) && transposed.Length == Size(m.rows, inputRows)
    requires |packed| == Size(m.blocks, inputRows)
    requires forall row :: 0 <= row < inputRows ==> Packed(packed, inputRows, m.blocks, row) == Quantized(f, m, xs, inputRows)[row]
    requires forall q :: 0 <= q < m.rows ==> RowIs(transposed[..], q, inputRows, Dots(f, m.weights[q], packed, inputRows))
    ensures output == Product(f, m, xs, inputRows)
  {
    hide Packed, Size, Dots, Quantized, RowIs, Element;
    ghost var want := Product(f, m, xs, inputRows);
    var out := new F32[Size(inputRows, m.rows)](_ => zero);
    for i := 0 to inputRows
      invariant forall k :: 0 <= k < At(i, m.rows, 0) && k < |want| ==> out[k] == want[k]
    {
      for o := 0 to m.rows
        invariant forall k :: 0 <= k < At(i, m.rows, o) && k < |want| ==> out[k] == want[k]
      {
        Indices(i, inputRows, o, m.rows);
        TransposedCell(f, m, xs, inputRows, packed, transposed[..], i, o);
        out[At(i, m.rows, o)] := transposed[At(o, inputRows, i)];
        AtNext(i, m.rows, o);
      }
      AtNext(i, m.rows, m.rows);
    }
    WholeOutput(inputRows, m.rows);
    output := out[..];
  }

  lemma Indices(i: nat, inputRows: nat, o: nat, rows: nat)
    requires i < inputRows && o < rows
    ensures At(i, rows, o) < Size(inputRows, rows) && At(o, inputRows, i) < Size(rows, inputRows)
  {
    AtFits(i, inputRows, rows, o);
    AtFits(o, rows, inputRows, i);
  }

  lemma AtNext(major: nat, size: nat, minor: nat)
    ensures At(major, size, minor) + 1 == At(major, size, minor + 1) && At(major, size, size) == At(major + 1, size, 0)
  {}

  lemma WholeOutput(inputRows: nat, rows: nat)
    ensures At(inputRows, rows, 0) == Size(inputRows, rows)
  {}

  /** The transposed cell is the product's element. */
  lemma TransposedCell(f: Kernel, m: Matrix, xs: seq<F32>, inputRows: nat, packed: seq<InputBlock>, x: seq<F32>, i: nat, o: nat)
    requires WellFormed(m) && Quantizes(f) && |xs| == Size(inputRows, m.columns) && |x| == Size(m.rows, inputRows)
    requires |packed| == Size(m.blocks, inputRows) && i < inputRows && o < m.rows
    requires forall row :: 0 <= row < inputRows ==> Packed(packed, inputRows, m.blocks, row) == Quantized(f, m, xs, inputRows)[row]
    requires RowIs(x, o, inputRows, Dots(f, m.weights[o], packed, inputRows))
    ensures At(o, inputRows, i) < |x| && At(i, m.rows, o) < Size(inputRows, m.rows)
    ensures x[At(o, inputRows, i)] == Product(f, m, xs, inputRows)[At(i, m.rows, o)]
  {
    hide Packed, Size, Dot;
    Indices(i, inputRows, o, m.rows);
    AtInverse(i, m.rows, o);
    var dots := Dots(f, m.weights[o], packed, inputRows);
    assert x[At(o, inputRows, 0)..At(o, inputRows, 0) + inputRows][i] == dots[i];
    assert Packed(packed, inputRows, m.blocks, i) == Quantized(f, m, xs, inputRows)[i];
  }

  // ----- tiles of input rows -----

  /** How many rows the next tile takes: never leaving one row for the last. */
  function TileRows(remaining: pos): (rows: pos)
    ensures rows <= remaining && rows <= MULTI_ROW_TILE
    ensures remaining >= 2 ==> rows >= 2 && remaining - rows != 1
  {
    if remaining <= MULTI_ROW_TILE then remaining
    else if remaining - MULTI_ROW_TILE == 1 then MULTI_ROW_TILE - 1
    else MULTI_ROW_TILE
  }

  ghost function Total(tiles: seq<nat>): nat {
    if tiles == [] then 0 else Total(tiles[..|tiles| - 1]) + tiles[|tiles| - 1]
  }

  /** Run the fused product a tile of rows at a time: the same elements as one
      wide call, in tiles of at most sixteen rows, none of a single row unless
      there is only one. */
  method TiledMultiRow(f: Kernel, m: Matrix, xs: seq<F32>,
                       inputRows: nat, zero: F32, order: seq<nat>) returns (output: seq<F32>, ghost tiles: seq<nat>)
    requires WellFormed(m) && Quantizes(f) && |xs| == Size(inputRows, m.columns) && Covers(order, m.rows)
    ensures output == Product(f, m, xs, inputRows) && Total(tiles) == inputRows
    ensures forall t :: t in tiles ==> 0 < t <= MULTI_ROW_TILE && (inputRows >= 2 ==> t >= 2)
  {
    hide Size, Product;
    output, tiles := [], [];
    var start := 0;
    NoRows(f, m, xs, inputRows);
    while start < inputRows
      invariant 0 <= start <= inputRows && |output| == Size(start, m.rows) && Prefix(f, m, xs, inputRows, start, output)
      invariant (inputRows >= 2 ==> inputRows - start != 1) && Total(tiles) == start
      invariant forall t :: t in tiles ==> 0 < t <= MULTI_ROW_TILE && (inputRows >= 2 ==> t >= 2)
    {
      var rows := TileRows(inputRows - start);
      var tile := FusedForward(f, m, Band(xs, inputRows, start, rows, m.columns), rows, zero, order);
      TileIsPart(f, m, xs, inputRows, start, rows, output);
      output := output + tile;
      assert (tiles + [rows])[..|tiles|] == tiles;
      tiles := tiles + [rows];
      start := start + rows;
    }
    AllRows(f, m, xs, inputRows, output);
  }

  /** The product's first rows. */
  ghost predicate Prefix(f: Kernel, m: Matrix, xs: seq<F32>, inputRows: nat, rows: nat, output: seq<F32>)
    requires WellFormed(m) && Quantizes(f) && |xs| == Size(inputRows, m.columns)
  {
    output <= Product(f, m, xs, inputRows) && |output| == Size(rows, m.rows)
  }

  lemma NoRows(f: Kernel, m: Matrix, xs: seq<F32>, inputRows: nat)
    requires WellFormed(m) && Quantizes(f) && |xs| == Size(inputRows, m.columns)
    ensures Prefix(f, m, xs, inputRows, 0, []) && Size(0, m.rows) == 0
  {}

  lemma AllRows(f: Kernel, m: Matrix, xs: seq<F32>, inputRows: nat, output: seq<F32>)
    requires WellFormed(m) && Quantizes(f) && |xs| == Size(inputRows, m.columns)
    requires Prefix(f, m, xs, inputRows, inputRows, output)
    ensures output == Product(f, m, xs, inputRows)
  {}

  /** Each output row depends only on its own input row, so a tile's product is
      the whole product's rows. */
  lemma TileIsPart(f: Kernel, m: Matrix, xs: seq<F32>, inputRows: nat, start: nat, rows: nat, output: seq<F32>)
    requires WellFormed(m) && Quantizes(f) && |xs| == Size(inputRows, m.columns) && start + rows <= inputRows
    requires Prefix(f, m, xs, inputRows, start, output)
    ensures Prefix(f, m, xs, inputRows, start + rows, output + Product(f, m, Band(xs, inputRows, start, rows, m.columns), rows))
  {
    hide Size, Band, Product;
    OutputGrows(start, rows, m.rows);
    var part, whole := Product(f, m, Band(xs, inputRows, start, rows, m.columns), rows), Product(f, m, xs, inputRows);
    SizeGrows(start + rows, inputRows, m.rows);
    var rest := whole[|output|..|output| + |part|];
    forall k | 0 <= k < |part| ensures rest[k] == part[k] {
      ElementIsPart(f, m, xs, inputRows, start, rows, k);
    }
    assert rest == part;
    assert whole[..|output|] + rest == whole[..|output| + |part|];
  }

  lemma ProductAt(f: Kernel, m: Matrix, xs: seq<F32>, inputRows: nat, k: nat)
    requires WellFormed(m) && Quantizes(f) && |xs| == Size(inputRows, m.columns) && k < Size(inputRows, m.rows)
    ensures k / m.rows < inputRows && k % m.rows < m.rows
    ensures Product(f, m, xs, inputRows)[k] == Element(f, m, xs, inputRows, k / m.rows, k % m.rows)
  {
    hide Element, Size;
    PlaneInRange(k, inputRows, m.rows);
  }

  lemma ElementIsPart(f: Kernel, m: Matrix, xs: seq<F32>, inputRows: nat, start: nat, rows: nat, k: nat)
    requires WellFormed(m) && Quantizes(f) && |xs| == Size(inputRows, m.columns) && start + rows <= inputRows
    requires k < Size(rows, m.rows)
    ensures Size(start, m.rows) + k < Size(inputRows, m.rows)
    ensures Product(f, m, Band(xs, inputRows, start, rows, m.columns), rows)[k] == Product(f, m, xs, inputRows)[Size(start, m.rows) + k]
  {
    hide Element, Size, Band, Product;
    OutputGrows(start, rows, m.rows);
    SizeGrows(start + rows, inputRows, m.rows);
    ProductAt(f, m, Band(xs, inputRows, start, rows, m.columns), rows, k);
    ProductAt(f, m, xs, inputRows, Size(start, m.rows) + k);
    Shifted(k, start, m.rows);
    SameElement(f, m, xs, inputRows, start, rows, k / m.rows, k % m.rows);
  }

  lemma SizeGrows(a: nat, b: nat, width: nat)
    requires a <= b
    ensures Size(a, width) <= Size(b, width)
  {
    ProductGrows(a, b, width);
  }

  lemma OutputGrows(start: nat, rows: nat, width: nat)
    ensures Size(start + rows, width) == Size(start, width) + Size(rows, width)
  {}

  lemma Shifted(k: nat, start: nat, width: pos)
    ensures (Size(start, width) + k) / width == start + k / width && (Size(start, width) + k) % width == k % width
  {
    AtInverse(start + k / width, width, k % width);
    assert At(start + k / width, width, k % width) == Size(start, width) + k;
  }

  lemma SameElement(f: Kernel, m: Matrix, xs: seq<F32>, inputRows: nat, start: nat, rows: nat, i: nat, o: nat)
    requires WellFormed(m) && Quantizes(f) && |xs| == Size(inputRows, m.columns) && start + rows <= inputRows
    requires i < rows && o < m.rows
    ensures Element(f, m, Band(xs, inputRows, start, rows, m.columns), rows, i, o) == Element(f, m, xs, inputRows, start + i, o)
  {
    hide Dot;
    SameRow(xs, inputRows, start, rows, m.columns, i);
  }

  lemma SameRow(xs: seq<F32>, total: nat, start: nat, rows: nat, width: nat, i: nat)
    requires |xs| == Size(total, width) && start + rows <= total && i < rows
    ensures Band(Band(xs, total, start, rows, width), rows, i, 1, width) == Band(xs, total, start + i, 1, width)
  {
    hide Size;
    BandIs(xs, total, start, rows, width);
    BandIs(Band(xs, total, start, rows, width), rows, i, 1, width);
    BandIs(xs, total, start + i, 1, width);
    OutputGrows(start, i, width);
    SizeGrows(i + 1, rows, width);
    OutputGrows(start, rows, width);
    SliceOfSlice(xs, Size(start, width), Size(start + rows, width), Size(i, width), Size(1, width));
  }

  lemma BandIs(xs: seq<F32>, total: nat, start: nat, rows: nat, width: nat)
    requires |xs| == Size(total, width) && start + rows <= total
    ensures Size(start + rows, width) == Size(start, width) + Size(rows, width) <= |xs|
    ensures Band(xs, total, start, rows, width) == xs[Size(start, width)..Size(start, width) + Size(rows, width)]
  {
    SliceFits(start, rows, total, width);
  }
}
