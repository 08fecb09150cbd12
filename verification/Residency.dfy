/** Full expert warm-up: load every expert tensor in file order, fuse each
    layer's gate and up matrices, then declare the cache fully resident. */
module Residency {
  import opened Wrappers
  import opened Indexing
  import opened ExpertCache

  /** A `[experts, rows, columns]` tensor: where it starts, how many bytes one
      expert's matrix takes, and its number format. */
  datatype Tensor = Tensor(start: nat, experts: nat, expertBytes: pos, dtype: nat, rows: nat, columns: nat)

  datatype Layer = Layer(gate: Tensor, up: Tensor, down: Tensor)

  function StorageBytes(t: Tensor): nat { t.experts * t.expertBytes }

  predicate Compatible(l: Layer) {
    && l.gate.dtype == l.up.dtype && l.gate.experts == l.up.experts
    && l.gate.rows == l.up.rows && l.gate.columns == l.up.columns
  }

  // ----- the file -----

  /** The checkpoint's bytes, and the matrix size of the tensor starting at an offset. */
  datatype Disk = Disk(data: nat -> Byte, expertBytes: nat -> nat)

  function Extent(d: Disk, start: nat, expert: nat): seq<Byte> {
    var from: nat := start + expert * d.expertBytes(start);
    seq(d.expertBytes(start), i requires 0 <= i => d.data(from + i))
  }

  /** What reading the matrix of `key` yields; a pair reads both extents. */
  function FileMatrix(d: Disk, key: Key): Matrix {
    var first := Extent(d, key.tensorStart, key.expert);
    Matrix(if key.second.Some? then first + Extent(d, key.second.value, key.expert) else first)
  }

  function FileOf(d: Disk): Key -> Matrix { key => FileMatrix(d, key) }

  // ----- the tensors of the layers -----

  function TensorsOf(layers: seq<Layer>): seq<Tensor> {
    if layers == [] then [] else TensorsOf(layers[..|layers| - 1]) + [Last(layers).gate, Last(layers).up, Last(layers).down]
  }

  function Last(layers: seq<Layer>): Layer
    requires layers != []
  {
    layers[|layers| - 1]
  }

  function TotalBytes(ts: seq<Tensor>): nat {
    if ts == [] then 0 else StorageBytes(ts[0]) + TotalBytes(ts[1..])
  }

  predicate DistinctStarts(ts: seq<Tensor>) {
    forall i, j :: 0 <= i < j < |ts| ==> ts[i].start != ts[j].start
  }

  predicate InFileOrder(ts: seq<Tensor>) {
    forall i, j :: 0 <= i < j < |ts| ==> ts[i].start < ts[j].start
  }

  function Placed(ts: seq<Tensor>, t: Tensor): (r: seq<Tensor>)
    ensures |r| == |ts| + 1 && (forall x :: x in r <==> x in ts || x == t)
    ensures TotalBytes(r) == TotalBytes(ts) + StorageBytes(t)
  {
    if ts == [] || t.start < ts[0].start then [t] + ts
    else [ts[0]] + Placed(ts[1..], t)
  }

  lemma {:induction false} PlacedInOrder(ts: seq<Tensor>, t: Tensor)
    requires InFileOrder(ts) && forall x :: x in ts ==> x.start != t.start
    ensures InFileOrder(Placed(ts, t))
    decreases |ts|
  {
    if ts != [] && t.start >= ts[0].start {
      assert ts[0] in ts;
      PlacedInOrder(ts[1..], t);
      var rest := Placed(ts[1..], t);
      forall j | 0 <= j < |rest| ensures ts[0].start < rest[j].start {
        assert rest[j] in rest;
        if rest[j] != t {
          var i :| 0 <= i < |ts[1..]| && ts[1..][i] == rest[j];
          assert ts[i + 1] == rest[j];
        }
      }
    }
  }

  /** The tensors in file order. */
  function Sorted(ts: seq<Tensor>): (r: seq<Tensor>)
    requires DistinctStarts(ts)
    ensures InFileOrder(r) && (forall x :: x in r <==> x in ts) && TotalBytes(r) == TotalBytes(ts)
  {
    if ts == [] then []
    else
      assert forall x :: x in ts[1..] ==> x.start != ts[0].start;
      PlacedInOrder(Sorted(ts[1..]), ts[0]);
      Placed(Sorted(ts[1..]), ts[0])
  }

  // ----- loading -----

  predicate OfTensor(k: Key, start: nat, n: nat) {
    k == One(start, k.expert) && k.expert < n
  }

  ghost predicate Described(d: Disk, ts: seq<Tensor>) {
    forall t :: t in ts ==> d.expertBytes(t.start) == t.expertBytes
  }

  /** Load the first `n` matrices of one tensor through the cache. `None` is
      the error of an expert index outside the tensor. */
  method WarmTensor(cache: ExpertMatrixCache, t: Tensor, n: nat, d: Disk) returns (bytes: Option<nat>)
    requires cache.Valid() && cache.Coherent(FileOf(d)) && !cache.fullyResident && cache.capacity > 0
    requires d.expertBytes(t.start) == t.expertBytes && forall e :: One(t.start, e) !in cache.entries
    requires cache.resident + StorageBytes(t) <= cache.capacity
    modifies cache
    ensures cache.Valid() && cache.Coherent(FileOf(d)) && !cache.fullyResident
    ensures cache.stats.evictions == old(cache.stats).evictions
    ensures bytes.Some? <==> n <= t.experts
    ensures bytes.Some? ==> bytes.value == n * t.expertBytes && cache.resident == old(cache.resident) + bytes.value
    ensures bytes.Some? ==> forall k :: k in cache.entries <==> k in old(cache.entries) || OfTensor(k, t.start, n)
  {
    hide OrderOk, QueueOk, Covered, Used, Total, EvictCount, KeysOf, ExpertMatrixCache.Valid, ExpertMatrixCache.Coherent, Extent;
    var loaded: nat := 0;
    for e := 0 to n
      invariant cache.Valid() && cache.Coherent(FileOf(d)) && !cache.fullyResident
      invariant cache.stats.evictions == old(cache.stats).evictions
      invariant e <= t.experts && loaded == e * t.expertBytes && cache.resident == old(cache.resident) + loaded
      invariant forall k :: k in cache.entries <==> k in old(cache.entries) || OfTensor(k, t.start, e)
    {
      if e >= t.experts { return None; }
      FitsStorage(t, e);
      ExtentLength(d, t.start, e);
      ghost var before := cache.entries;
      var m := cache.Load(One(t.start, e), FileOf(d));
      loaded := loaded + |m.data|;
      forall k ensures k in cache.entries <==> k in old(cache.entries) || OfTensor(k, t.start, e + 1) {
        assert k in cache.entries <==> k in cache.entries.Keys;
        assert k in before <==> k in before.Keys;
      }
    }
    bytes := Some(loaded);
  }

  lemma FitsStorage(t: Tensor, e: nat)
    requires e < t.experts
    ensures e * t.expertBytes + t.expertBytes == (e + 1) * t.expertBytes <= StorageBytes(t)
  {
    ProductGrows(e + 1, t.experts, t.expertBytes);
  }

  lemma ExtentLength(d: Disk, start: nat, e: nat)
    ensures |FileOf(d)(One(start, e)).data| == d.expertBytes(start)
  {}

  ghost predicate Loaded(entries: Entries, ts: seq<Tensor>, n: nat) {
    forall k :: k in entries <==> exists j :: 0 <= j < |ts| && OfTensor(k, ts[j].start, n)
  }

  /** Load every tensor in file order; the byte check stops at a tensor whose
      expert count is not `n`. */
  method WarmTensors(cache: ExpertMatrixCache, ts: seq<Tensor>, n: nat, d: Disk) returns (loaded: Option<nat>)
    requires cache.Valid() && cache.entries == map[] && cache.resident == 0 && !cache.fullyResident && cache.capacity > 0
    requires InFileOrder(ts) && Described(d, ts) && TotalBytes(ts) <= cache.capacity
    modifies cache
    ensures cache.Valid() && cache.Coherent(FileOf(d)) && cache.stats.evictions == old(cache.stats).evictions
    ensures loaded.Some? <==> forall t :: t in ts ==> t.experts == n
    ensures loaded.Some? ==> loaded == Some(cache.resident) && cache.resident == TotalBytes(ts) && Loaded(cache.entries, ts, n)
  {
    hide OrderOk, QueueOk, Covered, Used, Total, EvictCount, KeysOf, ExpertMatrixCache.Valid, TotalBytes, FileOf;
    var bytes: nat := 0;
    assert ts[0..] == ts;
    for i := 0 to |ts|
      invariant cache.Valid() && cache.Coherent(FileOf(d)) && !cache.fullyResident
      invariant cache.stats.evictions == old(cache.stats).evictions
      invariant forall j :: 0 <= j < i ==> ts[j].experts == n
      invariant bytes == cache.resident && cache.resident + TotalBytes(ts[i..]) == TotalBytes(ts)
      invariant Loaded(cache.entries, ts[..i], n)
    {
      SplitBytes(ts, i);
      forall e ensures One(ts[i].start, e) !in cache.entries {
        NotYetLoaded(cache.entries, ts, i, n, e);
      }
      ghost var before := cache.entries;
      var got := WarmTensor(cache, ts[i], n, d);
      if got.None? { return None; }
      if got.value != StorageBytes(ts[i]) {
        return None;
      }
      SameCount(ts[i], n);
      bytes := bytes + got.value;
      LoadedOneMore(before, cache.entries, ts, i, n);
    }
    SplitEnd(ts);
    assert ts[..|ts|] == ts;
    loaded := Some(bytes);
  }

  lemma SplitBytes(ts: seq<Tensor>, i: nat)
    requires i < |ts|
    ensures TotalBytes(ts[i..]) == StorageBytes(ts[i]) + TotalBytes(ts[i + 1..])
  {
    assert ts[i..][1..] == ts[i + 1..];
  }

  lemma SplitEnd(ts: seq<Tensor>)
    ensures TotalBytes(ts[|ts|..]) == 0
  {}

  lemma SameCount(t: Tensor, n: nat)
    requires n * t.expertBytes == StorageBytes(t) && n <= t.experts
    ensures t.experts == n
  {
    if n < t.experts { FitsStorage(t, n); }
  }

  lemma NotYetLoaded(entries: Entries, ts: seq<Tensor>, i: nat, n: nat, e: nat)
    requires i < |ts| && InFileOrder(ts) && Loaded(entries, ts[..i], n)
    ensures One(ts[i].start, e) !in entries
  {
    var done := ts[..i];
    forall j | 0 <= j < |done| ensures !OfTensor(One(ts[i].start, e), done[j].start, n) {
      assert done[j] == ts[j];
    }
  }

  lemma LoadedOneMore(before: Entries, after: Entries, ts: seq<Tensor>, i: nat, n: nat)
    requires i < |ts| && Loaded(before, ts[..i], n)
    requires forall k :: k in after <==> k in before || OfTensor(k, ts[i].start, n)
    ensures Loaded(after, ts[..i + 1], n)
  {
    var was, now := ts[..i], ts[..i + 1];
    forall k ensures k in after <==> exists j :: 0 <= j < |now| && OfTensor(k, now[j].start, n) {
      if k in before {
        var j :| 0 <= j < |was| && OfTensor(k, was[j].start, n);
        assert now[j] == was[j];
      }
      if j :| 0 <= j < i && OfTensor(k, now[j].start, n) {
        assert was[j] == now[j];
      }
      assert now[i] == ts[i];
    }
  }

  // ----- fusing -----

  /** Where role 0 (gate), 1 (up) or 2 (down) of layer `i` starts. */
  function Start(layers: seq<Layer>, i: nat, role: nat): nat
    requires i < |layers|
  {
    if role == 0 then layers[i].gate.start else if role == 1 then layers[i].up.start else layers[i].down.start
  }

  /** The key is one of layer `i`'s, when the first `done` layers are fused. */
  predicate InLayer(layers: seq<Layer>, i: nat, n: nat, k: Key, done: nat)
    requires i < |layers|
  {
    && k.expert < n
    && (k == One(Start(layers, i, 2), k.expert)
        || if i < done then k == Both(Start(layers, i, 0), Start(layers, i, 1), k.expert)
           else k == One(Start(layers, i, 0), k.expert) || k == One(Start(layers, i, 1), k.expert))
  }

  /** The first `done` layers are fused, the others are not. */
  ghost predicate Fused(entries: Entries, layers: seq<Layer>, n: nat, done: nat) {
    forall k :: k in entries <==> exists i :: 0 <= i < |layers| && InLayer(layers, i, n, k, done)
  }

  ghost predicate StartsDiffer(layers: seq<Layer>) {
    forall i, j, r, q | 0 <= i < |layers| && 0 <= j < |layers| && 0 <= r < 3 && 0 <= q < 3 ::
      Start(layers, i, r) == Start(layers, j, q) ==> i == j && r == q
  }

  lemma {:induction false} TensorAt(layers: seq<Layer>, i: nat)
    requires i < |layers|
    ensures |TensorsOf(layers)| == 3 * |layers|
    ensures TensorsOf(layers)[3 * i] == layers[i].gate && TensorsOf(layers)[3 * i + 1] == layers[i].up
    ensures TensorsOf(layers)[3 * i + 2] == layers[i].down
    decreases |layers|
  {
    var front := layers[..|layers| - 1];
    if i < |front| {
      TensorAt(front, i);
    } else if front != [] {
      TensorAt(front, 0);
    }
  }

  lemma DistinctTensors(layers: seq<Layer>)
    requires DistinctStarts(TensorsOf(layers))
    ensures StartsDiffer(layers)
  {
    forall i, j, r, q | 0 <= i < |layers| && 0 <= j < |layers| && 0 <= r < 3 && 0 <= q < 3
        && Start(layers, i, r) == Start(layers, j, q)
      ensures i == j && r == q
    {
      TensorAt(layers, i);
      TensorAt(layers, j);
      var a, b := 3 * i + r, 3 * j + q;
      assert TensorsOf(layers)[a].start == TensorsOf(layers)[b].start;
    }
  }

  lemma {:induction false} WhichTensor(layers: seq<Layer>, t: Tensor) returns (i: nat, r: nat)
    requires t in TensorsOf(layers)
    ensures i < |layers| && r < 3 && t == if r == 0 then layers[i].gate else if r == 1 then layers[i].up else layers[i].down
    decreases |layers|
  {
    var front := layers[..|layers| - 1];
    if t in TensorsOf(front) {
      i, r := WhichTensor(front, t);
    } else {
      i := |layers| - 1;
      r := if t == layers[i].gate then 0 else if t == layers[i].up then 1 else 2;
    }
  }

  lemma LoadedIsUnfused(entries: Entries, layers: seq<Layer>, ts: seq<Tensor>, n: nat)
    requires Loaded(entries, ts, n) && forall t :: t in ts <==> t in TensorsOf(layers)
    ensures Fused(entries, layers, n, 0)
  {
    forall k ensures k in entries <==> exists i :: 0 <= i < |layers| && InLayer(layers, i, n, k, 0) {
      if k in entries {
        var j :| 0 <= j < |ts| && OfTensor(k, ts[j].start, n);
        assert ts[j] in ts;
        var i, r := WhichTensor(layers, ts[j]);
        assert InLayer(layers, i, n, k, 0);
      }
      if i :| 0 <= i < |layers| && InLayer(layers, i, n, k, 0) {
        TensorAt(layers, i);
        var t := TensorsOf(layers)[3 * i + if k == One(Start(layers, i, 0), k.expert) then 0
                                           else if k == One(Start(layers, i, 1), k.expert) then 1 else 2];
        assert t in TensorsOf(layers) && t in ts;
        var j :| 0 <= j < |ts| && ts[j] == t;
        assert OfTensor(k, ts[j].start, n);
      }
    }
  }

  lemma FuseStep(was: Entries, now: Entries, lru: seq<Record>, layers: seq<Layer>, n: nat, l: nat)
    requires l < |layers| && StartsDiffer(layers) && Fused(was, layers, n, l)
    requires FusedUpTo(was, now, lru, Start(layers, l, 0), Start(layers, l, 1), n)
    ensures Fused(now, layers, n, l + 1)
  {
    var g, u := Start(layers, l, 0), Start(layers, l, 1);
    var done := l + 1;
    forall k ensures k in now <==> exists i :: 0 <= i < |layers| && InLayer(layers, i, n, k, done) {
      if Touched(k, g, u, n) {
        NotFusedYet(was, layers, n, l, k.expert);
        assert FusedAt(was, now, g, u, k.expert);
        assert k == Both(g, u, k.expert) ==> InLayer(layers, l, n, k, done);
        forall i | 0 <= i < |layers| && InLayer(layers, i, n, k, done) ensures k == Both(g, u, k.expert) {
          OwnLayer(layers, n, l, i, k, done);
        }
      } else {
        if i :| 0 <= i < |layers| && InLayer(layers, i, n, k, l) {
          assert InLayer(layers, i, n, k, done);
        }
        if i :| 0 <= i < |layers| && InLayer(layers, i, n, k, done) {
          assert InLayer(layers, i, n, k, l);
        }
      }
    }
  }

  lemma OwnLayer(layers: seq<Layer>, n: nat, l: nat, i: nat, k: Key, done: nat)
    requires l < |layers| && i < |layers| && StartsDiffer(layers) && InLayer(layers, i, n, k, done)
    requires k.tensorStart == Start(layers, l, 0) || k.tensorStart == Start(layers, l, 1)
    ensures i == l && k.tensorStart != Start(layers, l, 2)
  {
    var r := if k.tensorStart == Start(layers, l, 0) then 0 else 1;
    var q := if k.tensorStart == Start(layers, i, 2) then 2 else if k.tensorStart == Start(layers, i, 1) then 1 else 0;
    assert Start(layers, i, q) == Start(layers, l, r);
  }

  lemma NotFusedYet(was: Entries, layers: seq<Layer>, n: nat, l: nat, e: nat)
    requires l < |layers| && StartsDiffer(layers) && Fused(was, layers, n, l)
    ensures Both(Start(layers, l, 0), Start(layers, l, 1), e) !in was
  {
    var k := Both(Start(layers, l, 0), Start(layers, l, 1), e);
    if k in was {
      var i :| 0 <= i < |layers| && InLayer(layers, i, n, k, l);
      OwnLayer(layers, n, l, i, k, l);
    }
  }

  /** Fuse every layer's gate and up matrices, stopping at an incompatible pair. */
  method FuseLayers(cache: ExpertMatrixCache, layers: seq<Layer>, n: nat, d: Disk) returns (ok: bool)
    requires cache.Loose() && cache.Coherent(FileOf(d)) && cache.capacity > 0
    requires StartsDiffer(layers) && Fused(cache.entries, layers, n, 0)
    requires forall l :: l in layers ==> l.gate.experts == n
    modifies cache`resident, cache`clock, cache`entries, cache`order
    ensures cache.Loose() && cache.Coherent(FileOf(d)) && cache.resident == old(cache.resident)
    ensures ok <==> forall l :: l in layers ==> Compatible(l)
    ensures ok ==> Fused(cache.entries, layers, n, |layers|)
  {
    hide OrderOk, QueueOk, Used, Total, Fused, StartsDiffer, FusedAt, Fusible, NoRecord, FileOf, ExpertMatrixCache.Loose, ExpertMatrixCache.Coherent;
    for i := 0 to |layers|
      invariant cache.Loose() && cache.Coherent(FileOf(d)) && cache.resident == old(cache.resident)
      invariant Fused(cache.entries, layers, n, i) && forall j :: 0 <= j < i ==> Compatible(layers[j])
    {
      if !Compatible(layers[i]) { return false; }
      var g, u := layers[i].gate.start, layers[i].up.start;
      GateIsNotUp(layers, i);
      forall e | 0 <= e < n ensures Fusible(cache.entries, g, u, e) {
        BothLoaded(cache.entries, layers, n, i, e);
      }
      ghost var before := cache.entries;
      CoherentMeans(cache, d);
      var fused := cache.FusePair(g, u, layers[i].gate.experts);
      FusedIsCoherent(cache, before, d, g, u, n);
      FuseStep(before, cache.entries, cache.lru, layers, n, i);
    }
    ok := true;
  }

  lemma GateIsNotUp(layers: seq<Layer>, i: nat)
    requires i < |layers| && StartsDiffer(layers)
    ensures layers[i].gate.start != layers[i].up.start
  {
    assert Start(layers, i, 0) != Start(layers, i, 1);
  }

  lemma BothLoaded(entries: Entries, layers: seq<Layer>, n: nat, i: nat, e: nat)
    requires i < |layers| && e < n && Fused(entries, layers, n, i)
    ensures Fusible(entries, layers[i].gate.start, layers[i].up.start, e)
  {
    assert InLayer(layers, i, n, One(Start(layers, i, 0), e), i);
    assert InLayer(layers, i, n, One(Start(layers, i, 1), e), i);
  }

  ghost predicate FromDisk(entries: Entries, d: Disk) {
    forall k :: k in entries ==> entries[k].matrix == FileMatrix(d, k)
  }

  lemma CoherentMeans(cache: ExpertMatrixCache, d: Disk)
    ensures cache.Coherent(FileOf(d)) <==> FromDisk(cache.entries, d)
  {
    assert forall k :: FileOf(d)(k) == FileMatrix(d, k);
  }

  /** A fused entry holds exactly what reading the pair from the file yields. */
  lemma FusedIsCoherent(cache: ExpertMatrixCache, was: Entries, d: Disk, first: nat, second: nat, n: nat)
    requires FromDisk(was, d) && FusedUpTo(was, cache.entries, cache.lru, first, second, n)
    ensures cache.Coherent(FileOf(d))
  {
    hide Extent;
    var now := cache.entries;
    forall k | k in now ensures now[k].matrix == FileMatrix(d, k) {
      if Touched(k, first, second, n) {
        assert FusedAt(was, now, first, second, k.expert);
      }
    }
    CoherentMeans(cache, d);
  }

  // ----- the warm-up -----

  /** The keys of a warm cache: one fused entry and one down entry per expert. */
  predicate WarmKey(layers: seq<Layer>, n: nat, k: Key) {
    k.expert < n && exists l :: l in layers && (k == Both(l.gate.start, l.up.start, k.expert) || k == One(l.down.start, k.expert))
  }

  ghost predicate Warm(entries: Entries, layers: seq<Layer>, n: nat) {
    forall k :: k in entries <==> WarmKey(layers, n, k)
  }

  lemma FusedIsWarm(entries: Entries, layers: seq<Layer>, n: nat)
    requires Fused(entries, layers, n, |layers|)
    ensures Warm(entries, layers, n) && (entries != map[] <==> layers != [] && n > 0)
  {
    forall k ensures k in entries <==> WarmKey(layers, n, k) {
      if k in entries {
        var i :| 0 <= i < |layers| && InLayer(layers, i, n, k, |layers|);
        assert layers[i] in layers;
      }
      if l :| l in layers && k.expert < n && (k == Both(l.gate.start, l.up.start, k.expert) || k == One(l.down.start, k.expert)) {
        var i :| 0 <= i < |layers| && layers[i] == l;
        assert InLayer(layers, i, n, k, |layers|);
      }
    }
    if layers != [] && n > 0 {
      assert InLayer(layers, 0, n, One(Start(layers, 0, 2), 0), |layers|);
      assert One(Start(layers, 0, 2), 0) in entries;
    }
    if entries != map[] {
      var k :| k in entries;
      var i :| 0 <= i < |layers| && InLayer(layers, i, n, k, |layers|);
    }
  }

  /** When a full warm-up of an empty cache succeeds. */
  predicate Warmable(capacity: nat, layers: seq<Layer>, n: nat) {
    || capacity == 0
    || (&& TotalBytes(TensorsOf(layers)) <= capacity && layers != [] && n > 0
        && (forall t :: t in TensorsOf(layers) ==> t.experts == n)
        && forall l :: l in layers ==>
             && l.gate.dtype == l.up.dtype && l.gate.experts == l.up.experts
             && l.gate.rows == l.up.rows && l.gate.columns == l.up.columns)
  }

  /** Warm an empty cache. Success pins every expert: nothing was evicted, the
      keys are exactly the fused and the down ones, every entry is the file's
      bytes, and the bytes resident are the bytes of all the tensors. */
  method WarmAll(cache: ExpertMatrixCache, layers: seq<Layer>, n: nat, d: Disk) returns (loaded: Option<nat>)
    requires cache.Valid() && cache.entries == map[] && cache.resident == 0 && !cache.fullyResident
    requires DistinctStarts(TensorsOf(layers)) && Described(d, TensorsOf(layers))
    modifies cache
    ensures loaded.Some? <==> Warmable(cache.capacity, layers, n)
    ensures loaded.Some? ==> loaded.value == TotalBytes(TensorsOf(layers))
    ensures cache.Loose() && cache.Coherent(FileOf(d)) && cache.resident <= cache.capacity
    ensures cache.stats.evictions == old(cache.stats).evictions
    ensures loaded.Some? && cache.capacity > 0 ==>
      && cache.Valid() && cache.fullyResident && Warm(cache.entries, layers, n)
      && cache.resident == loaded.value
    ensures cache.capacity == 0 ==> cache.entries == map[] && cache.stats == old(cache.stats)
  {
    hide OrderOk, QueueOk, Covered, Used, Total, Fused, Loaded, Warm, TotalBytes, TensorsOf, Sorted, StartsDiffer, InFileOrder,
      DistinctStarts, ExpertMatrixCache.Coherent, FileOf;
    CoherentMeans(cache, d);
    var tensors := TensorsOf(layers);
    var ts := Sorted(tensors);
    if cache.capacity == 0 {
      return Some(PageWarm(ts));
    }
    if cache.capacity < TotalBytes(ts) { return None; }
    loaded := WarmTensors(cache, ts, n, d);
    if loaded.None? { return; }
    LoadedIsUnfused(cache.entries, layers, ts, n);
    DistinctTensors(layers);
    GatesHaveCount(layers, n);
    var ok := FuseLayers(cache, layers, n, d);
    if !ok { return None; }
    FusedIsWarm(cache.entries, layers, n);
    ok := cache.MarkFullyResident();
    if !ok { return None; }
  }

  /** With no cache the traversal reads each tensor's pages and keeps nothing. */
  function PageWarm(ts: seq<Tensor>): nat { TotalBytes(ts) }

  lemma GatesHaveCount(layers: seq<Layer>, n: nat)
    requires forall t :: t in TensorsOf(layers) ==> t.experts == n
    ensures forall l :: l in layers ==> l.gate.experts == n
  {
    forall l | l in layers ensures l.gate.experts == n {
      var i :| 0 <= i < |layers| && layers[i] == l;
      TensorAt(layers, i);
    }
  }

  /** After a warm-up every fused or down request hits; the first other key
      misses, and the queue rebuilt then evicts in warm-up order. */
  method ServeUntilMiss(cache: ExpertMatrixCache, layers: seq<Layer>, n: nat, d: Disk, keys: seq<Key>, other: Key)
    returns (served: seq<Matrix>, last: Matrix)
    requires cache.Valid() && cache.fullyResident && cache.capacity > 0 && cache.Coherent(FileOf(d))
    requires Warm(cache.entries, layers, n) && (forall k :: k in keys ==> WarmKey(layers, n, k)) && !WarmKey(layers, n, other)
    modifies cache
    ensures |served| == |keys| && (forall i :: 0 <= i < |keys| ==> served[i] == FileMatrix(d, keys[i]))
    ensures last == FileMatrix(d, other)
    ensures cache.stats.hits == old(cache.stats).hits + |keys| && cache.stats.requests == old(cache.stats).requests + |keys| + 1
    ensures cache.Valid() && cache.Coherent(FileOf(d)) && !cache.fullyResident
    ensures |last.data| <= cache.capacity ==>
      var gone := EvictCount(old(cache.order), old(cache.entries), |last.data|, cache.capacity);
      && cache.order == Used(old(cache.order)[gone..], other)
      && cache.stats.evictions == old(cache.stats).evictions + gone
  {
    hide OrderOk, QueueOk, Covered, Used, Total, EvictCount, KeysOf, WarmKey, ExpertMatrixCache.Valid, ExpertMatrixCache.Coherent, FileMatrix;
    served := [];
    for i := 0 to |keys|
      invariant cache.Valid() && cache.Coherent(FileOf(d)) && cache.fullyResident
      invariant |served| == i && forall j :: 0 <= j < i ==> served[j] == FileMatrix(d, keys[j])
      invariant cache.stats.hits == old(cache.stats).hits + i && cache.stats.requests == old(cache.stats).requests + i
      invariant cache.stats.evictions == old(cache.stats).evictions
      invariant cache.entries == old(cache.entries) && cache.order == old(cache.order)
    {
      assert WarmKey(layers, n, keys[i]);
      var m := cache.Load(keys[i], FileOf(d));
      served := served + [m];
    }
    last := cache.Load(other, FileOf(d));
  }
}
