/** The prompt cache's index: block boundaries, byte accounting, budgeted
    eviction in recency order and longest-prefix lookup. */
module PromptCache {
  import opened Wrappers
  import opened PromptCacheNames

  type Token = nat

  /** A file's name within the cache directory. */
  type Path = string

  type Time = nat

  const UNIX_EPOCH: Time := 0

  datatype Meta = Meta(path: Path, bytes: nat, used: Time)

  type Entries = map<Key, Meta>

  // ----- boundaries -----

  /** From `from` down, in steps of `block`, those at or above `min`. */
  function Descending(from: nat, block: nat, min: nat): seq<nat>
    requires block > 0
    decreases from
  {
    if from == 0 then []
    else (if from >= min then [from] else []) + if from >= block then Descending(from - block, block, min) else []
  }

  /** Where an entry may be stored or looked up, longest first. */
  function Boundaries(length: nat, block: nat, min: nat): seq<nat> {
    if block == 0 || length == 0 then [] else Descending((length - 1) / block * block, block, min)
  }

  predicate IsBoundary(b: nat, length: nat, block: nat, min: nat) {
    0 < b < length && min <= b && block > 0 && b % block == 0
  }

  predicate Falls(s: seq<nat>) {
    forall i, j :: 0 <= i < j < |s| ==> s[i] > s[j]
  }

  lemma StepDown(from: nat, block: nat)
    requires block > 0 && from % block == 0 && from > 0
    ensures from >= block && (from - block) % block == 0
  {
    assert from == from / block * block;
    assert from - block == (from / block - 1) * block;
    Multiple(from / block - 1, block);
  }

  lemma Multiple(n: nat, block: nat)
    requires block > 0
    ensures n * block % block == 0
  {
    var r := n * block % block;
    assert n * block == n * block / block * block + r;
    if r > 0 {
      var q := n * block / block;
      if q < n { MulMono(q + 1, n, block); } else { MulMono(n, q, block); }
    }
  }

  lemma {:induction false} MulMono(a: nat, b: nat, c: nat)
    requires a <= b
    ensures a * c <= b * c
    decreases b
  {
    if a < b { MulMono(a, b - 1, c); }
  }

  /** Between two neighbouring multiples there is none. */
  lemma NoMultipleBetween(b: nat, from: nat, block: nat)
    requires block > 0 && from % block == 0 && b % block == 0 && b < from
    ensures b <= from - block
  {
    var x, y := b / block, from / block;
    assert b == x * block && from == y * block;
    if x >= y { MulMono(y, x, block); } else { MulMono(x + 1, y, block); }
  }

  lemma {:induction false} DescendingMembers(from: nat, block: nat, min: nat, b: nat)
    requires block > 0 && from % block == 0
    ensures b in Descending(from, block, min) <==> 0 < b <= from && min <= b && b % block == 0
    decreases from
  {
    if from > 0 {
      StepDown(from, block);
      DescendingMembers(from - block, block, min, b);
      if b % block == 0 && b < from { NoMultipleBetween(b, from, block); }
    }
  }

  lemma {:induction false} DescendingFalls(from: nat, block: nat, min: nat)
    requires block > 0
    ensures Falls(Descending(from, block, min)) && forall x :: x in Descending(from, block, min) ==> x <= from
    decreases from
  {
    if from >= block {
      DescendingFalls(from - block, block, min);
      var rest := Descending(from - block, block, min);
      var all := (if from >= min then [from] else []) + rest;
      forall i, j | 0 <= i < j < |all| ensures all[i] > all[j] {
        if from >= min {
          assert all[j] == rest[j - 1] && rest[j - 1] in rest;
          if i > 0 { assert all[i] == rest[i - 1]; }
        }
      }
    }
  }

  /** The boundaries are exactly the positive multiples of the block in
      `[min, length - 1]`, longest first. */
  lemma BoundariesExact(length: nat, block: nat, min: nat, b: nat)
    ensures b in Boundaries(length, block, min) <==> IsBoundary(b, length, block, min)
    ensures Falls(Boundaries(length, block, min))
  {
    if block > 0 && length > 0 {
      var highest := (length - 1) / block * block;
      Multiple((length - 1) / block, block);
      DescendingMembers(highest, block, min, b);
      DescendingFalls(highest, block, min);
      assert highest <= length - 1;
      if 0 < b < length && b % block == 0 && b > highest {
        NoMultipleBetween(highest, b, block);
      }
    }
  }

  function FirstAbove(boundaries: seq<nat>, ceiling: nat, reused: nat): Option<nat> {
    if boundaries == [] then None
    else if boundaries[0] <= ceiling && boundaries[0] > reused then Some(boundaries[0])
    else FirstAbove(boundaries[1..], ceiling, reused)
  }

  /** The boundary a request should leave an entry at, if any. */
  function StoreBoundary(length: nat, reused: nat, stable: Option<nat>, block: nat, min: nat): Option<nat> {
    var ceiling := if stable.None? then length else if stable.value < length then stable.value else length;
    FirstAbove(Boundaries(length, block, min), ceiling, reused)
  }

  lemma {:induction false} FirstAboveIsLargest(boundaries: seq<nat>, ceiling: nat, reused: nat, b: nat)
    requires Falls(boundaries)
    ensures FirstAbove(boundaries, ceiling, reused) == Some(b) ==> b in boundaries && reused < b <= ceiling
    ensures b in boundaries && reused < b <= ceiling ==>
      FirstAbove(boundaries, ceiling, reused).Some? && FirstAbove(boundaries, ceiling, reused).value >= b
    decreases |boundaries|
  {
    if boundaries != [] {
      FirstAboveIsLargest(boundaries[1..], ceiling, reused, b);
      if b in boundaries { var i :| 0 <= i < |boundaries| && boundaries[i] == b; }
    }
  }

  /** It is the longest boundary within the stable prefix that goes beyond what
      was reused. */
  lemma StoreBoundaryIsLongest(length: nat, reused: nat, stable: Option<nat>, block: nat, min: nat, b: nat)
    ensures
      var chosen := StoreBoundary(length, reused, stable, block, min);
      && (chosen == Some(b) ==> IsBoundary(b, length, block, min) && reused < b && (stable.Some? ==> b <= stable.value))
      && (IsBoundary(b, length, block, min) && reused < b && (stable.Some? ==> b <= stable.value) ==>
            chosen.Some? && b <= chosen.value)
  {
    BoundariesExact(length, block, min, b);
    var ceiling := if stable.None? then length else if stable.value < length then stable.value else length;
    FirstAboveIsLargest(Boundaries(length, block, min), ceiling, reused, b);
  }

  // ----- byte accounting -----

  ghost function Sum(m: Entries): nat
    decreases |m|
  {
    if m == map[] then 0
    else
      var k :| k in m;
      m[k].bytes + Sum(m - {k})
  }

  lemma {:induction false} SumRemove(m: Entries, k: Key)
    requires k in m
    ensures Sum(m) == m[k].bytes + Sum(m - {k})
    decreases |m|
  {
    var p :| p in m && Sum(m) == m[p].bytes + Sum(m - {p});
    if p != k {
      SumRemove(m - {p}, k);
      SumRemove(m - {k}, p);
      assert m - {p} - {k} == m - {k} - {p};
    }
  }

  lemma SumInsert(m: Entries, k: Key, v: Meta)
    ensures Sum(m[k := v]) == Sum(m - {k}) + v.bytes
    ensures Sum(m - {k}) == Sum(m) - if k in m then m[k].bytes else 0
  {
    SumRemove(m[k := v], k);
    assert m[k := v] - {k} == m - {k};
    if k in m { SumRemove(m, k); } else { assert m - {k} == m; }
  }

  function SumAll(metas: seq<Meta>): nat {
    if metas == [] then 0 else metas[0].bytes + SumAll(metas[1..])
  }

  lemma {:induction false} SumAllAppend(a: seq<Meta>, m: Meta)
    ensures SumAll(a + [m]) == SumAll(a) + m.bytes
    decreases |a|
  {
    if a == [] {
      assert a + [m] == [m];
    } else {
      SumAllAppend(a[1..], m);
      assert (a + [m])[1..] == a[1..] + [m];
    }
  }

  predicate DistinctPaths(metas: seq<Meta>) {
    forall i, j :: 0 <= i < j < |metas| ==> metas[i].path != metas[j].path
  }

  /** Drop the metas of a path. */
  function Without(metas: seq<Meta>, path: Path): (r: seq<Meta>)
    ensures forall m :: m in r <==> m in metas && m.path != path
  {
    if metas == [] then []
    else (if metas[0].path != path then [metas[0]] else []) + Without(metas[1..], path)
  }

  lemma {:induction false} WithoutOne(metas: seq<Meta>, m: Meta)
    requires DistinctPaths(metas) && m in metas
    ensures SumAll(metas) == m.bytes + SumAll(Without(metas, m.path))
    decreases |metas|
  {
    if metas[0] == m {
      forall x | x in metas[1..] ensures x.path != m.path {
        var i :| 0 <= i < |metas[1..]| && metas[1..][i] == x;
        assert metas[i + 1] == x;
      }
      WithoutAbsent(metas[1..], m.path);
      assert Without(metas, m.path) == [] + metas[1..] == metas[1..];
    } else {
      var i :| 0 <= i < |metas| && metas[i] == m;
      assert m == metas[1..][i - 1];
      WithoutOne(metas[1..], m);
      assert ([metas[0]] + Without(metas[1..], m.path))[1..] == Without(metas[1..], m.path);
    }
  }

  lemma {:induction false} WithoutAbsent(metas: seq<Meta>, path: Path)
    requires forall m :: m in metas ==> m.path != path
    ensures Without(metas, path) == metas
    decreases |metas|
  {
    if metas != [] { WithoutAbsent(metas[1..], path); }
  }

  lemma {:induction false} WithoutKeepsDistinct(metas: seq<Meta>, path: Path)
    requires DistinctPaths(metas)
    ensures DistinctPaths(Without(metas, path))
    decreases |metas|
  {
    if metas != [] {
      WithoutKeepsDistinct(metas[1..], path);
      var rest := Without(metas[1..], path);
      var all := Without(metas, path);
      if metas[0].path != path {
        forall j | 0 <= j < |rest| ensures rest[j].path != metas[0].path {
          assert rest[j] in metas[1..];
          var i :| 0 <= i < |metas[1..]| && metas[1..][i] == rest[j];
          assert metas[i + 1] == rest[j];
        }
      }
    }
  }

  // ----- eviction order -----

  /** A file eviction may remove: a foreign one, or one of the entries. */
  datatype Candidate = Candidate(used: Time, key: Option<Key>, path: Path, bytes: nat)

  predicate Earlier(c: Candidate, d: Candidate) {
    c.used < d.used || (c.used == d.used && NameLe(c.path, d.path))
  }

  lemma EarlierOrLater(c: Candidate, d: Candidate)
    ensures Earlier(c, d) || Earlier(d, c)
  {
    NamesCompare(c.path, d.path);
  }

  lemma EarlierFollows(c: Candidate, d: Candidate, e: Candidate)
    requires Earlier(c, d) && Earlier(d, e)
    ensures Earlier(c, e)
  {
    if c.used == d.used == e.used { NamesFollow(c.path, d.path, e.path); }
  }

  predicate InOrder(order: seq<Candidate>) {
    forall i, j :: 0 <= i < j < |order| ==> Earlier(order[i], order[j])
  }

  predicate Apart(c: Candidate, d: Candidate) {
    c.key != d.key || (c.key.None? && c.path != d.path)
  }

  predicate AllApart(order: seq<Candidate>) {
    forall i, j :: 0 <= i < j < |order| ==> Apart(order[i], order[j])
  }

  function Placed(order: seq<Candidate>, c: Candidate): (r: seq<Candidate>)
    ensures |r| == |order| + 1 && forall x :: x in r <==> x in order || x == c
  {
    if order == [] || !Earlier(order[0], c) then [c] + order else [order[0]] + Placed(order[1..], c)
  }

  lemma {:induction false} PlacedInOrder(order: seq<Candidate>, c: Candidate)
    requires InOrder(order)
    ensures InOrder(Placed(order, c))
    decreases |order|
  {
    hide Earlier;
    if order != [] {
      if Earlier(order[0], c) {
        PlacedInOrder(order[1..], c);
        var rest := Placed(order[1..], c);
        forall j | 0 <= j < |rest| ensures Earlier(order[0], rest[j]) {
          assert rest[j] in rest;
          if rest[j] != c {
            var i :| 0 <= i < |order[1..]| && order[1..][i] == rest[j];
            assert order[i + 1] == rest[j];
          }
        }
        var all := Placed(order, c);
        assert all == [order[0]] + rest;
      } else {
        EarlierOrLater(order[0], c);
        forall j | 0 <= j < |order| ensures Earlier(c, order[j]) {
          if j > 0 { EarlierFollows(c, order[0], order[j]); }
        }
      }
    }
  }

  lemma {:induction false} PlacedApart(order: seq<Candidate>, c: Candidate)
    requires AllApart(order) && forall x :: x in order ==> Apart(x, c)
    ensures AllApart(Placed(order, c))
    decreases |order|
  {
    if order != [] {
      if Earlier(order[0], c) {
        assert order[0] in order;
        PlacedApart(order[1..], c);
        var rest := Placed(order[1..], c);
        forall j | 0 <= j < |rest| ensures Apart(order[0], rest[j]) {
          assert rest[j] in rest;
          if rest[j] != c {
            var i :| 0 <= i < |order[1..]| && order[1..][i] == rest[j];
            assert order[i + 1] == rest[j];
          }
        }
        var all := Placed(order, c);
        assert all == [order[0]] + rest;
      } else {
        forall j | 0 <= j < |order| ensures Apart(c, order[j]) { assert order[j] in order; }
      }
    }
  }

  /** What eviction removes: down the order, until the bytes fit, skipping what
      cannot be removed. */
  function Taken(order: seq<Candidate>, bytes: int, budget: nat, removable: Path -> bool): seq<Candidate> {
    if order == [] || bytes <= budget then []
    else if !removable(order[0].path) then Taken(order[1..], bytes, budget, removable)
    else [order[0]] + Taken(order[1..], bytes - order[0].bytes, budget, removable)
  }

  function BytesOf(taken: seq<Candidate>): nat {
    if taken == [] then 0 else taken[0].bytes + BytesOf(taken[1..])
  }

  /** Eviction stops within the budget, or with nothing removable left. */
  lemma {:induction false} TakenFits(order: seq<Candidate>, bytes: int, budget: nat, removable: Path -> bool)
    ensures bytes - BytesOf(Taken(order, bytes, budget, removable)) <= budget
         || forall c :: c in order && removable(c.path) ==> c in Taken(order, bytes, budget, removable)
    decreases |order|
  {
    if order != [] && bytes > budget {
      var rest := if removable(order[0].path) then bytes - order[0].bytes else bytes;
      TakenFits(order[1..], rest, budget, removable);
      var more := Taken(order[1..], rest, budget, removable);
      var all := Taken(order, bytes, budget, removable);
      assert removable(order[0].path) ==> all[0] == order[0] && all[1..] == more;
    }
  }

  /** The candidates whose files can be removed. */
  function Removable(order: seq<Candidate>, removable: Path -> bool): seq<Candidate> {
    if order == [] then []
    else (if removable(order[0].path) then [order[0]] else []) + Removable(order[1..], removable)
  }

  /** How far down the order eviction goes: `n` is the first place at which what
      could be removed before it makes the bytes fit, or the end. */
  ghost predicate StopsAt(order: seq<Candidate>, bytes: int, budget: nat, removable: Path -> bool, n: nat) {
    && n <= |order| && (n == |order| || bytes - BytesOf(Removable(order[..n], removable)) <= budget)
    && forall m :: 0 <= m < n ==> bytes - BytesOf(Removable(order[..m], removable)) > budget
  }

  /** Eviction takes everything removable up to there, and nothing after. */
  lemma {:induction false} TakenIsLeast(order: seq<Candidate>, bytes: int, budget: nat, removable: Path -> bool) returns (n: nat)
    ensures StopsAt(order, bytes, budget, removable, n)
    ensures Taken(order, bytes, budget, removable) == Removable(order[..n], removable)
    decreases |order|
  {
    n := 0;
    if order != [] && bytes > budget {
      var first := removable(order[0].path);
      var left := if first then bytes - order[0].bytes else bytes;
      var more := TakenIsLeast(order[1..], left, budget, removable);
      n := more + 1;
      forall m | 0 <= m <= more
        ensures Removable(order[..m + 1], removable) == (if first then [order[0]] else []) + Removable(order[1..][..m], removable)
        ensures bytes - BytesOf(Removable(order[..m + 1], removable)) == left - BytesOf(Removable(order[1..][..m], removable))
      {
        assert order[..m + 1][1..] == order[1..][..m];
        var rest := Removable(order[1..][..m], removable);
        assert first ==> ([order[0]] + rest)[1..] == rest;
        assert [] + rest == rest;
      }
      forall m | 0 <= m < n ensures bytes - BytesOf(Removable(order[..m], removable)) > budget {
        if m > 0 { assert left - BytesOf(Removable(order[1..][..m - 1], removable)) > budget; } else { assert order[..0] == []; }
      }
    } else {
      assert order[..0] == [];
    }
  }

  /** When every removal succeeds, eviction takes a prefix of the recency order,
      and no shorter prefix would have fitted. */
  lemma {:induction false} TakenIsPrefix(order: seq<Candidate>, bytes: int, budget: nat, removable: Path -> bool, m: nat)
    requires forall c :: c in order ==> removable(c.path)
    ensures Taken(order, bytes, budget, removable) <= order
    ensures m < |Taken(order, bytes, budget, removable)| ==> bytes - BytesOf(order[..m]) > budget
    decreases |order|
  {
    if order != [] && bytes > budget {
      var rest := bytes - order[0].bytes;
      assert order[0] in order;
      TakenIsPrefix(order[1..], rest, budget, removable, if m > 0 then m - 1 else 0);
      assert Taken(order, bytes, budget, removable) == [order[0]] + Taken(order[1..], rest, budget, removable);
      if 0 < m <= |order| { assert order[..m][1..] == order[1..][..m - 1]; }
    }
  }

  /** Foreign files go before every entry used after the epoch. */
  lemma ForeignFirst(order: seq<Candidate>, i: nat, j: nat)
    requires InOrder(order) && i < |order| && j < |order|
    requires order[i].key.None? && order[i].used == UNIX_EPOCH && order[j].key.Some? && order[j].used > UNIX_EPOCH
    ensures i < j
  {
    if j < i { OrderAt(order, j, i); }
  }

  lemma OrderAt(order: seq<Candidate>, i: nat, j: nat)
    requires InOrder(order) && i < j < |order|
    ensures Earlier(order[i], order[j])
  {}

  // ----- the index -----

  function OfForeign(m: Meta): Candidate { Candidate(UNIX_EPOCH, None, m.path, m.bytes) }

  function OfEntry(k: Key, m: Meta): Candidate { Candidate(m.used, Some(k), m.path, m.bytes) }

  /** `order` lists the foreign files and every entry but `keep`. */
  ghost predicate Lists(order: seq<Candidate>, entries: Entries, foreign: seq<Meta>, keep: Option<Key>) {
    forall c :: c in order <==>
      (c.key.None? && c.used == UNIX_EPOCH && exists m :: m in foreign && c == OfForeign(m))
      || (c.key.Some? && c.key.value in entries && c.key != keep && c == OfEntry(c.key.value, entries[c.key.value]))
  }

  function KeysIn(taken: seq<Candidate>): set<Key> {
    set i | 0 <= i < |taken| && taken[i].key.Some? :: taken[i].key.value
  }

  function WithoutAll(foreign: seq<Meta>, taken: seq<Candidate>): seq<Meta> {
    if taken == [] then foreign
    else
      var rest := WithoutAll(foreign, taken[..|taken| - 1]);
      var last := taken[|taken| - 1];
      if last.key.None? then Without(rest, last.path) else rest
  }

  /** Nothing is left that eviction could remove. */
  ghost predicate Exhausted(entries: Entries, foreign: seq<Meta>, keep: Option<Key>, removable: Path -> bool) {
    && (forall k :: k in entries && Some(k) != keep ==> !removable(entries[k].path))
    && forall m :: m in foreign ==> !removable(m.path)
  }

  lemma NothingMore(list: seq<Candidate>, entries: Entries, foreign: seq<Meta>, keep: Option<Key>, taken: seq<Candidate>, removable: Path -> bool)
    requires Lists(list, entries, foreign, keep) && forall c :: c in list && removable(c.path) ==> c in taken
    ensures Exhausted(entries - KeysIn(taken), WithoutAll(foreign, taken), keep, removable)
  {
    hide WithoutAll;
    var left := entries - KeysIn(taken);
    forall k | k in left && Some(k) != keep ensures !removable(left[k].path) {
      var c := OfEntry(k, entries[k]);
      assert c in list;
    }
    forall m | m in WithoutAll(foreign, taken) ensures !removable(m.path) {
      ForeignShrinks(foreign, taken);
      var c := OfForeign(m);
      assert c in list;
      if c in taken { TakenForeignGone(foreign, taken, m); }
    }
  }

  lemma {:induction false} TakenForeignGone(foreign: seq<Meta>, taken: seq<Candidate>, m: Meta)
    requires OfForeign(m) in taken
    ensures m !in WithoutAll(foreign, taken)
    decreases |taken|
  {
    var n := |taken| - 1;
    if taken[n] != OfForeign(m) {
      assert taken == taken[..n] + [taken[n]];
      TakenForeignGone(foreign, taken[..n], m);
    }
  }

  /** What holds when the loop ends. */
  lemma Evicted(list: seq<Candidate>, n: nat, entries: Entries, foreign: seq<Meta>, keep: Option<Key>, taken: seq<Candidate>,
                before: int, now: int, budget: nat, removable: Path -> bool)
    requires n <= |list| && (n == |list| || now <= budget) && Lists(list, entries, foreign, keep)
    requires taken + Taken(list[n..], now, budget, removable) == Taken(list, before, budget, removable)
    requires now == before - BytesOf(taken) && forall c :: c in taken ==> c in list[..n]
    ensures taken == Taken(list, before, budget, removable) && forall c :: c in taken ==> c in list
    ensures now <= budget || Exhausted(entries - KeysIn(taken), WithoutAll(foreign, taken), keep, removable)
    ensures keep.Some? ==> keep.value !in KeysIn(taken)
  {
    hide Taken, Lists, KeysIn, WithoutAll, BytesOf, Exhausted;
    TakenEnds(list, n, now, budget, removable);
    Regrouped(taken, [], []);
    KeepKept(list, entries, foreign, keep, taken);
    if now > budget {
      TakenFits(list, before, budget, removable);
      NothingMore(list, entries, foreign, keep, taken, removable);
    }
  }

  class Index {
    /** Entries belonging to the loaded checkpoint. */
    var entries: Entries
    /** Entries left by another checkpoint. */
    var foreign: seq<Meta>
    var bytes: nat

    /** The bytes are those of the entries and the foreign files, and `extra`
        that no file accounts for. */
    ghost predicate Counts(extra: nat)
      reads this
    {
      bytes == Sum(entries) + SumAll(foreign) + extra && DistinctPaths(foreign)
    }

    ghost predicate Valid()
      reads this
    {
      Counts(0)
    }

    constructor ()
      ensures Valid() && bytes == 0 && entries == map[] && foreign == []
    {
      entries, foreign, bytes := map[], [], 0;
    }

    method Insert(key: Key, meta: Meta, ghost extra: nat)
      requires Counts(extra)
      modifies this`entries, this`bytes
      ensures Counts(extra) && entries == old(entries)[key := meta]
      ensures bytes == old(bytes) - (if key in old(entries) then old(entries)[key].bytes else 0) + meta.bytes
    {
      SumInsert(entries, key, meta);
      if key in entries { bytes := bytes - entries[key].bytes; }
      entries := entries[key := meta];
      bytes := bytes + meta.bytes;
    }

    method Remove(key: Key, ghost extra: nat) returns (meta: Option<Meta>)
      requires Counts(extra)
      modifies this`entries, this`bytes
      ensures Counts(extra) && entries == old(entries) - {key}
      ensures meta == if key in old(entries) then Some(old(entries)[key]) else None
    {
      if key !in entries {
        assert entries - {key} == entries;
        return None;
      }
      SumRemove(entries, key);
      meta := Some(entries[key]);
      bytes := bytes - entries[key].bytes;
      entries := entries - {key};
    }

    /** The eviction candidates, least recently used first. */
    method Candidates(keep: Option<Key>) returns (order: seq<Candidate>)
      requires DistinctPaths(foreign)
      ensures InOrder(order) && AllApart(order) && Lists(order, entries, foreign, keep)
    {
      hide InOrder, AllApart, Placed;
      NoOrder();
      order := [];
      for i := 0 to |foreign|
        invariant InOrder(order) && AllApart(order)
        invariant forall c :: c in order <==> exists j :: 0 <= j < i && c == OfForeign(foreign[j])
      {
        PlacedInOrder(order, OfForeign(foreign[i]));
        PlacedApart(order, OfForeign(foreign[i]));
        order := Placed(order, OfForeign(foreign[i]));
      }
      ghost var files := order;
      var rest := entries.Keys;
      while rest != {}
        invariant rest <= entries.Keys && InOrder(order) && AllApart(order)
        invariant forall c: Candidate :: c.key.None? ==> (c in order <==> c in files)
        invariant forall c: Candidate :: c.key.Some? ==>
          (c in order <==> c.key.value in entries && c.key.value !in rest && c.key != keep && c == OfEntry(c.key.value, entries[c.key.value]))
        decreases rest
      {
        var k :| k in rest;
        if Some(k) != keep {
          var c := OfEntry(k, entries[k]);
          PlacedInOrder(order, c);
          PlacedApart(order, c);
          order := Placed(order, c);
        }
        rest := rest - {k};
      }
    }

    /** Remove least recently used files until the bytes fit the budget. */
    method Evict(keep: Option<Key>, budget: nat, removable: Path -> bool, ghost extra: nat)
      returns (taken: seq<Candidate>, ghost order: seq<Candidate>)
      requires Counts(extra)
      modifies this
      ensures Counts(extra) && InOrder(order) && AllApart(order) && Lists(order, old(entries), old(foreign), keep)
      ensures
        && taken == Taken(order, old(bytes), budget, removable)
        && entries == old(entries) - KeysIn(taken) && foreign == WithoutAll(old(foreign), taken)
        && bytes == old(bytes) - BytesOf(taken)
      ensures keep.Some? && keep.value in old(entries) ==> keep.value in entries && entries[keep.value] == old(entries)[keep.value]
      ensures bytes <= budget || Exhausted(entries, foreign, keep, removable)
      ensures forall c :: c in taken ==> c in order
    {
      hide InOrder, AllApart, Taken, Lists, KeysIn, WithoutAll, BytesOf, Index.Counts, Exhausted;
      CountsMeans(extra);
      var list := Candidates(keep);
      order := list;
      taken := [];
      NothingTaken(entries, foreign, list);
      var n := 0;
      while n < |list| && bytes > budget
        invariant 0 <= n <= |list| && Counts(extra)
        invariant entries == old(entries) - KeysIn(taken) && foreign == WithoutAll(old(foreign), taken)
        invariant bytes == old(bytes) - BytesOf(taken)
        invariant taken + Taken(list[n..], bytes, budget, removable) == Taken(list, old(bytes), budget, removable)
        invariant forall c :: c in taken ==> c in list[..n]
      {
        var c := list[n];
        TakenStep(list, n, bytes, budget, removable);
        if removable(c.path) {
          StillThere(list, n, old(entries), old(foreign), keep, taken);
          RemoveFile(c, extra);
          TakeOne(old(entries), old(foreign), taken, c);
          Regrouped(taken, [c], Taken(list[n + 1..], bytes, budget, removable));
          taken := taken + [c];
        }
        n := n + 1;
      }
      Evicted(list, n, old(entries), old(foreign), keep, taken, old(bytes), bytes, budget, removable);
    }

    lemma CountsMeans(extra: nat)
      requires Counts(extra)
      ensures DistinctPaths(foreign)
    {}

    /** Remove one file's entry, or the foreign file of its path. */
    method RemoveFile(c: Candidate, ghost extra: nat)
      requires Counts(extra) && (c.key.Some? ==> c.key.value in entries && entries[c.key.value].bytes == c.bytes)
      requires c.key.None? ==> exists m :: m in foreign && OfForeign(m) == c
      modifies this
      ensures Counts(extra) && bytes == old(bytes) - c.bytes
      ensures entries == if c.key.Some? then old(entries) - {c.key.value} else old(entries)
      ensures foreign == if c.key.Some? then old(foreign) else Without(old(foreign), c.path)
    {
      match c.key
      case Some(key) =>
        SumRemove(entries, key);
        bytes := bytes - c.bytes;
        entries := entries - {key};
      case None =>
        ghost var m: Meta :| m in foreign && OfForeign(m) == c;
        WithoutOne(foreign, m);
        WithoutKeepsDistinct(foreign, c.path);
        foreign := Without(foreign, c.path);
        bytes := bytes - c.bytes;
    }
  }

  lemma NoOrder()
    ensures InOrder([]) && AllApart([])
  {}

  lemma NothingTaken(entries: Entries, foreign: seq<Meta>, list: seq<Candidate>)
    ensures entries - KeysIn([]) == entries && WithoutAll(foreign, []) == foreign && BytesOf([]) == 0
    ensures list[0..] == list
    ensures forall t: seq<Candidate> :: [] + t == t
  {}

  lemma Regrouped(a: seq<Candidate>, b: seq<Candidate>, c: seq<Candidate>)
    ensures (a + b) + c == a + (b + c) && a + [] == a
  {}

  lemma TakenStep(list: seq<Candidate>, n: nat, bytes: int, budget: nat, removable: Path -> bool)
    requires n < |list| && bytes > budget
    ensures
      var c := list[n];
      Taken(list[n..], bytes, budget, removable)
      == if removable(c.path) then [c] + Taken(list[n + 1..], bytes - c.bytes, budget, removable)
         else Taken(list[n + 1..], bytes, budget, removable)
    ensures list[..n + 1] == list[..n] + [list[n]]
  {
    assert list[n..][1..] == list[n + 1..];
  }

  lemma TakenEnds(list: seq<Candidate>, n: nat, bytes: int, budget: nat, removable: Path -> bool)
    requires n <= |list| && (n == |list| || bytes <= budget)
    ensures Taken(list[n..], bytes, budget, removable) == []
  {}

  /** What is next in the order is still indexed: nothing taken before it is the
      same file. */
  lemma StillThere(list: seq<Candidate>, n: nat, entries: Entries, foreign: seq<Meta>, keep: Option<Key>, taken: seq<Candidate>)
    requires n < |list| && AllApart(list) && Lists(list, entries, foreign, keep) && forall c :: c in taken ==> c in list[..n]
    ensures
      var c := list[n];
      && (c.key.Some? ==> c.key.value in entries - KeysIn(taken) && entries[c.key.value].bytes == c.bytes)
      && (c.key.None? ==> exists m :: m in WithoutAll(foreign, taken) && OfForeign(m) == c)
  {
    hide AllApart, Lists, KeysIn, WithoutAll;
    var c := list[n];
    forall d | d in taken ensures Apart(d, c) { BeforeApart(list, n, d); }
    ListedThere(list, n, entries, foreign, keep);
    if c.key.Some? {
      NotAmong(taken, c);
    } else {
      var m: Meta :| m in foreign && OfForeign(m) == c;
      StillForeign(foreign, taken, m);
    }
  }

  lemma BeforeApart(list: seq<Candidate>, n: nat, d: Candidate)
    requires n < |list| && AllApart(list) && d in list[..n]
    ensures Apart(d, list[n])
  {
    var i :| 0 <= i < n && list[..n][i] == d;
  }

  lemma ListedThere(list: seq<Candidate>, n: nat, entries: Entries, foreign: seq<Meta>, keep: Option<Key>)
    requires n < |list| && Lists(list, entries, foreign, keep)
    ensures
      var c := list[n];
      && (c.key.Some? ==> c.key.value in entries && entries[c.key.value].bytes == c.bytes)
      && (c.key.None? ==> exists m :: m in foreign && OfForeign(m) == c)
  {
    assert list[n] in list;
  }

  lemma NotAmong(taken: seq<Candidate>, c: Candidate)
    requires c.key.Some? && forall d :: d in taken ==> Apart(d, c)
    ensures c.key.value !in KeysIn(taken)
  {
    forall i | 0 <= i < |taken| && taken[i].key.Some? ensures taken[i].key.value != c.key.value {
      assert taken[i] in taken;
    }
  }

  lemma {:induction false} StillForeign(foreign: seq<Meta>, taken: seq<Candidate>, m: Meta)
    requires m in foreign && forall d :: d in taken ==> Apart(d, OfForeign(m))
    ensures m in WithoutAll(foreign, taken)
    decreases |taken|
  {
    if taken != [] {
      var n := |taken| - 1;
      assert taken[n] in taken;
      forall d | d in taken[..n] ensures Apart(d, OfForeign(m)) { assert d in taken; }
      StillForeign(foreign, taken[..n], m);
    }
  }

  lemma TakeOne(entries: Entries, foreign: seq<Meta>, taken: seq<Candidate>, c: Candidate)
    ensures entries - KeysIn(taken + [c]) == if c.key.Some? then entries - KeysIn(taken) - {c.key.value} else entries - KeysIn(taken)
    ensures WithoutAll(foreign, taken + [c])
         == if c.key.Some? then WithoutAll(foreign, taken) else Without(WithoutAll(foreign, taken), c.path)
    ensures BytesOf(taken + [c]) == BytesOf(taken) + c.bytes
  {
    var all := taken + [c];
    assert all[..|taken|] == taken && all[|taken|] == c;
    KeysAppend(taken, c);
    BytesAppend(taken, c);
  }

  lemma KeysAppend(taken: seq<Candidate>, c: Candidate)
    ensures KeysIn(taken + [c]) == KeysIn(taken) + if c.key.Some? then {c.key.value} else {}
  {
    var all := taken + [c];
    forall k | k in KeysIn(all) ensures k in KeysIn(taken) + if c.key.Some? then {c.key.value} else {} {
      var i :| 0 <= i < |all| && all[i].key.Some? && all[i].key.value == k;
      if i < |taken| { assert taken[i] == all[i]; }
    }
    forall k | k in KeysIn(taken) ensures k in KeysIn(all) {
      var i :| 0 <= i < |taken| && taken[i].key.Some? && taken[i].key.value == k;
      assert all[i] == taken[i];
    }
    if c.key.Some? { assert all[|taken|] == c; }
  }

  lemma {:induction false} BytesAppend(taken: seq<Candidate>, c: Candidate)
    ensures BytesOf(taken + [c]) == BytesOf(taken) + c.bytes
    decreases |taken|
  {
    if taken == [] {
      assert taken + [c] == [c];
    } else {
      BytesAppend(taken[1..], c);
      assert (taken + [c])[1..] == taken[1..] + [c];
    }
  }

  lemma KeepKept(list: seq<Candidate>, entries: Entries, foreign: seq<Meta>, keep: Option<Key>, taken: seq<Candidate>)
    requires Lists(list, entries, foreign, keep) && forall c :: c in taken ==> c in list
    ensures keep.Some? ==> keep.value !in KeysIn(taken)
  {
    if keep.Some? {
      forall i | 0 <= i < |taken| && taken[i].key.Some? ensures taken[i].key.value != keep.value {
        assert taken[i] in taken;
      }
    }
  }

  // ----- opening a directory -----

  /** What listing the directory gives. */
  datatype Found = Found(name: Path, bytes: nat, modified: Option<Time>, isFile: bool)

  predicate DistinctNames(found: seq<Found>) {
    forall i, j :: 0 <= i < j < |found| ==> found[i].name != found[j].name
  }

  const HALF_WRITTEN := ".writing"

  predicate IsHalfWritten(name: string) {
    |name| > |HALF_WRITTEN| && name[|name| - |HALF_WRITTEN|..] == HALF_WRITTEN
  }

  /** A cache file: its key, if its name is one of this checkpoint's. */
  datatype Listed = Listed(key: Option<Key>, meta: Meta)

  predicate Counted(f: Found) { !IsHalfWritten(f.name) && IsEntry(f.name) && f.isFile }

  function ListedAs(short: string, f: Found): Listed {
    Listed(ParseName(f.name, short), Meta(f.name, f.bytes, if f.modified.Some? then f.modified.value else UNIX_EPOCH))
  }

  /** The cache files of a listing. */
  function Listing(short: string, found: seq<Found>): seq<Listed> {
    if found == [] then []
    else
      var last := found[|found| - 1];
      Listing(short, found[..|found| - 1]) + if Counted(last) then [ListedAs(short, last)] else []
  }

  /** The bytes of the files of this checkpoint. */
  function KeyedBytes(files: seq<Listed>): nat {
    if files == [] then 0 else (if files[0].key.Some? then files[0].meta.bytes else 0) + KeyedBytes(files[1..])
  }

  /** The entries and foreign files the listing leaves. */
  function EntriesOf(files: seq<Listed>): Entries {
    if files == [] then map[]
    else
      var last := files[|files| - 1];
      var before := EntriesOf(files[..|files| - 1]);
      if last.key.Some? then before[last.key.value := last.meta] else before
  }

  function ForeignOf(files: seq<Listed>): seq<Meta> {
    if files == [] then []
    else
      var last := files[|files| - 1];
      var before := ForeignOf(files[..|files| - 1]);
      if last.key.None? then before + [last.meta] else before
  }

  /** The bytes counted for files whose key a later file took over. */
  ghost function Lost(files: seq<Listed>): int { KeyedBytes(files) - Sum(EntriesOf(files)) }

  /** No file with bytes was displaced: where two files have one key, all but
      the last are empty. */
  predicate NoneDisplaced(files: seq<Listed>) {
    forall i, j :: 0 <= i < j < |files| && files[i].key.Some? && files[i].key == files[j].key ==> files[i].meta.bytes == 0
  }

  lemma {:induction false} KeyedAppend(files: seq<Listed>, f: Listed)
    ensures KeyedBytes(files + [f]) == KeyedBytes(files) + if f.key.Some? then f.meta.bytes else 0
    decreases |files|
  {
    if files == [] {
      assert files + [f] == [f];
    } else {
      KeyedAppend(files[1..], f);
      assert (files + [f])[1..] == files[1..] + [f];
    }
  }

  lemma {:induction false} EntriesFrom(files: seq<Listed>, k: Key)
    ensures k in EntriesOf(files) <==> exists i :: 0 <= i < |files| && files[i].key == Some(k)
    decreases |files|
  {
    if files != [] {
      var n := |files| - 1;
      EntriesFrom(files[..n], k);
      if i :| 0 <= i < |files| && files[i].key == Some(k) {
        if i < n { assert files[..n][i] == files[i]; }
      }
    }
  }

  /** The entry of `k` is the last file with that key. */
  predicate LastOf(files: seq<Listed>, k: Key, i: nat) {
    i < |files| && files[i].key == Some(k) && forall j :: i < j < |files| ==> files[j].key != Some(k)
  }

  lemma {:induction false} EntryLast(files: seq<Listed>, k: Key)
    requires k in EntriesOf(files)
    ensures exists i: nat :: LastOf(files, k, i) && files[i].meta == EntriesOf(files)[k]
    decreases |files|
  {
    var n := |files| - 1;
    if files[n].key == Some(k) {
      assert LastOf(files, k, n);
    } else {
      EntryLast(files[..n], k);
      var i: nat :| LastOf(files[..n], k, i) && files[..n][i].meta == EntriesOf(files[..n])[k];
      forall j | i < j < |files| ensures files[j].key != Some(k) { if j < n { assert files[..n][j] == files[j]; } }
      assert LastOf(files, k, i);
    }
  }

  /** Whatever the names, the entries account for no more than the files, and for
      all of them exactly when no file with bytes was displaced. */
  lemma {:induction false} LostIffDisplaced(files: seq<Listed>)
    ensures Lost(files) >= 0 && (Lost(files) == 0 <==> NoneDisplaced(files))
    decreases |files|
  {
    if files != [] {
      var n := |files| - 1;
      var front, last := files[..n], files[n];
      assert files == front + [last];
      LostIffDisplaced(front);
      KeyedAppend(front, last);
      if last.key.Some? {
        SumInsert(EntriesOf(front), last.key.value, last.meta);
        DisplacedByLast(front, last);
      } else {
        DisplacedByNone(front, last);
      }
    }
  }

  lemma DisplacedByNone(front: seq<Listed>, last: Listed)
    requires last.key.None?
    ensures NoneDisplaced(front + [last]) <==> NoneDisplaced(front)
  {
    var files := front + [last];
    assert forall i :: 0 <= i < |front| ==> files[i] == front[i];
  }

  /** A new file displaces the entry of its key; earlier files of that key were
      displaced already. */
  lemma DisplacedByLast(front: seq<Listed>, last: Listed)
    requires last.key.Some?
    ensures
      var k, before := last.key.value, EntriesOf(front);
      NoneDisplaced(front + [last]) <==> NoneDisplaced(front) && (k in before ==> before[k].bytes == 0)
  {
    var files, k, before := front + [last], last.key.value, EntriesOf(front);
    assert forall i :: 0 <= i < |front| ==> files[i] == front[i];
    EntriesFrom(front, k);
    if k in before {
      EntryLast(front, k);
      var i: nat :| LastOf(front, k, i) && front[i].meta == before[k];
      assert files[|front|] == last && files[i].key == last.key;
      if NoneDisplaced(front) && before[k].bytes == 0 {
        forall x, y | 0 <= x < y < |files| && files[x].key.Some? && files[x].key == files[y].key ensures files[x].meta.bytes == 0 {
          if y == |front| && x != i { assert x < i; assert front[x].key == front[i].key; }
        }
      }
    }
  }

  /** Index a directory's files. The bytes are those of every cache file, so they
      exceed the index's by what displaced files hold. */
  method Scan(short: string, found: seq<Found>) returns (index: Index)
    requires DistinctNames(found)
    ensures
      var files := Listing(short, found);
      && fresh(index) && index.entries == EntriesOf(files) && index.foreign == ForeignOf(files)
      && Lost(files) >= 0 && index.Counts(Lost(files)) && (index.Valid() <==> NoneDisplaced(files))
  {
    hide Counted, ListedAs, EntriesOf, ForeignOf, KeyedBytes;
    index := new Index();
    ghost var files := Listing(short, found);
    NoFiles();
    for n := 0 to |found|
      invariant fresh(index)
      invariant
        var done := Listing(short, found[..n]);
        && index.entries == EntriesOf(done) && index.foreign == ForeignOf(done)
        && index.bytes == KeyedBytes(done) + SumAll(index.foreign)
    {
      ghost var done := Listing(short, found[..n]);
      assert found[..n + 1][..n] == found[..n];
      if Counted(found[n]) {
        var f := ListedAs(short, found[n]);
        OneMoreFile(done, f);
        index.bytes := index.bytes + f.meta.bytes;
        match f.key
        case Some(key) =>
          index.entries := index.entries[key := f.meta];
        case None =>
          index.foreign := index.foreign + [f.meta];
      } else {
        assert done + [] == done;
      }
    }
    assert found[..|found|] == found;
    ListingNames(short, found);
    ForeignPaths(files);
    LostIffDisplaced(files);
  }

  lemma NoFiles()
    ensures EntriesOf([]) == map[] && ForeignOf([]) == [] && KeyedBytes([]) == 0 && SumAll([]) == 0
  {}

  lemma OneMoreFile(done: seq<Listed>, f: Listed)
    ensures EntriesOf(done + [f]) == if f.key.Some? then EntriesOf(done)[f.key.value := f.meta] else EntriesOf(done)
    ensures ForeignOf(done + [f]) == if f.key.None? then ForeignOf(done) + [f.meta] else ForeignOf(done)
    ensures KeyedBytes(done + [f]) == KeyedBytes(done) + if f.key.Some? then f.meta.bytes else 0
    ensures SumAll(ForeignOf(done) + [f.meta]) == SumAll(ForeignOf(done)) + f.meta.bytes
  {
    assert (done + [f])[..|done|] == done;
    KeyedAppend(done, f);
    SumAllAppend(ForeignOf(done), f.meta);
  }

  /** Every cache file stands under its own name. */
  predicate Named(short: string, found: seq<Found>, f: Listed) {
    f.key == ParseName(f.meta.path, short) && exists i :: 0 <= i < |found| && found[i].name == f.meta.path
  }

  predicate DistinctFiles(files: seq<Listed>) {
    forall i, j :: 0 <= i < j < |files| ==> files[i].meta.path != files[j].meta.path
  }

  lemma {:induction false} ListingNames(short: string, found: seq<Found>)
    requires DistinctNames(found)
    ensures forall f :: f in Listing(short, found) ==> Named(short, found, f)
    ensures DistinctFiles(Listing(short, found))
    decreases |found|
  {
    hide ParseName, Counted;
    if found != [] {
      var n := |found| - 1;
      ListingNames(short, found[..n]);
      var done, files, last := Listing(short, found[..n]), Listing(short, found), ListedAs(short, found[n]);
      forall f | f in files ensures Named(short, found, f) {
        if f in done {
          var i :| 0 <= i < n && found[..n][i].name == f.meta.path;
          assert found[i].name == f.meta.path;
        } else {
          assert f == last && found[n].name == f.meta.path;
        }
      }
      forall i | 0 <= i < |done| ensures done[i].meta.path != found[n].name {
        assert Named(short, found[..n], done[i]);
        var j :| 0 <= j < n && found[..n][j].name == done[i].meta.path;
        assert found[j] == found[..n][j];
      }
      forall i, j | 0 <= i < j < |files| ensures files[i].meta.path != files[j].meta.path {
        assert files[i] == done[i];
        if j < |done| {
          assert files[j] == done[j];
        } else {
          assert files[j] == last && last.meta.path == found[n].name;
        }
      }
    }
  }

  lemma {:induction false} ForeignPaths(files: seq<Listed>)
    requires DistinctFiles(files)
    ensures DistinctPaths(ForeignOf(files))
    ensures forall m :: m in ForeignOf(files) ==> Listed(None, m) in files
    decreases |files|
  {
    if files != [] {
      var n := |files| - 1;
      ForeignPaths(files[..n]);
      var before := ForeignOf(files[..n]);
      forall i | 0 <= i < |before| ensures before[i].path != files[n].meta.path {
        assert before[i] in before && Listed(None, before[i]) in files[..n];
        var j :| 0 <= j < n && files[..n][j] == Listed(None, before[i]);
        assert files[j] == files[..n][j];
      }
      assert files == files[..n] + [files[n]];
      assert files[n].key.None? ==> files[n] == Listed(None, files[n].meta);
    }
  }

  lemma NotHalfWritten(name: string)
    requires IsEntry(name)
    ensures !IsHalfWritten(name)
  {
    assert name[|name| - |EXTENSION|..][|EXTENSION| - 1] == 't';
    assert |name| > |HALF_WRITTEN| && name[|name| - |HALF_WRITTEN|..][|HALF_WRITTEN| - 1] == 't';
  }

  /** A directory with two spellings of one key's name: the index goes on counting
      the first file's bytes, which no entry holds. */
  method TwoSpellings(short: string, key: Key, first: nat, second: nat) returns (index: Index)
    requires '-' !in short && first > 0
    ensures index.entries == map[key := Meta(FileName(short, key), second, UNIX_EPOCH)] && index.foreign == []
    ensures index.bytes == Sum(index.entries) + first && !index.Valid()
  {
    hide FileName, PlusName, IsEntry, IsHalfWritten, ParseName, NoneDisplaced;
    OtherSpelling(short, key);
    NameParses(short, key);
    NotHalfWritten(PlusName(short, key));
    NotHalfWritten(FileName(short, key));
    var found := [Found(PlusName(short, key), first, None, true), Found(FileName(short, key), second, None, true)];
    index := Scan(short, found);
    TwoListed(short, found);
    SpelledTwice(short, found, key);
  }

  lemma TwoListed(short: string, found: seq<Found>)
    requires |found| == 2 && Counted(found[0]) && Counted(found[1])
    ensures Listing(short, found) == [ListedAs(short, found[0]), ListedAs(short, found[1])]
  {
    hide Counted, ListedAs;
    assert found[..1] == [found[0]] && found[..1][..0] == [];
    assert Listing(short, found[..1]) == [] + [ListedAs(short, found[0])];
  }

  lemma SpelledTwice(short: string, found: seq<Found>, key: Key)
    requires |found| == 2 && ListedAs(short, found[0]).key == Some(key) && ListedAs(short, found[1]).key == Some(key)
    requires found[0].bytes > 0
    ensures
      var a, b := ListedAs(short, found[0]), ListedAs(short, found[1]);
      && EntriesOf([a, b]) == map[key := b.meta] && ForeignOf([a, b]) == [] && Lost([a, b]) == found[0].bytes
      && !NoneDisplaced([a, b])
  {
    hide ParseName;
    var a, b := ListedAs(short, found[0]), ListedAs(short, found[1]);
    NoFiles();
    OneMoreFile([], a);
    OneMoreFile([a], b);
    assert [] + [a] == [a] && [a] + [b] == [a, b];
    var none: Entries := map[];
    SumInsert(none, key, b.meta);
    SumEmpty();
    assert none - {key} == none && none[key := b.meta] == map[key := b.meta] && map[key := a.meta][key := b.meta] == map[key := b.meta];
    assert [a, b][0].key == [a, b][1].key;
  }

  lemma SumEmpty()
    ensures Sum(map[]) == 0
  {}

  // ----- the cache over its directory -----

  type Image(==,!new)

  /** Token lists are slices, so their lengths fit a `usize`. */
  type Tokens = s: seq<Token> | |s| <= USIZE_MAX witness []

  /** What reading a file gives: the tokens of its header, and its image. */
  datatype File = File(header: Option<seq<Token>>, image: Option<Image>)

  /** The checkpoint's fingerprint, and the hash of a token prefix. */
  datatype Naming = Naming(short: string, hashOf: seq<Token> -> u64)

  function KeyOf(naming: Naming, tokens: Tokens): Key { Key(|tokens|, naming.hashOf(tokens)) }

  function PathOf(naming: Naming, key: Key): Path { FileName(naming.short, key) }

  /** An entry's file has its key's name, and no foreign file's name is a key's. */
  ghost predicate NamedBy(naming: Naming, entries: Entries, foreign: seq<Meta>) {
    && '-' !in naming.short
    && (forall k :: k in entries ==> entries[k].path == PathOf(naming, k))
    && forall m :: m in foreign ==> ParseName(m.path, naming.short).None?
  }

  /** So no two of these files are one. */
  lemma PathsDifferFrom(naming: Naming, entries: Entries, foreign: seq<Meta>, key: Key)
    requires NamedBy(naming, entries, foreign)
    ensures forall k :: k in entries && k != key ==> entries[k].path != PathOf(naming, key)
    ensures forall m :: m in foreign ==> m.path != PathOf(naming, key)
  {
    hide FileName, ParseName;
    forall k | k in entries && k != key ensures entries[k].path != PathOf(naming, key) {
      NamesDiffer(naming.short, k, key);
    }
    NameParses(naming.short, key);
  }

  /** The entry of this prefix is indexed, holds exactly these tokens and can be
      read. */
  predicate Usable(naming: Naming, entries: Entries, disk: map<Path, File>, prefix: Tokens) {
    var key := KeyOf(naming, prefix);
    && key in entries && entries[key].path in disk
    && disk[entries[key].path].header == Some(prefix) && disk[entries[key].path].image.Some?
  }

  function Prefix(tokens: Tokens, b: nat): Tokens { tokens[..if b <= |tokens| then b else |tokens|] }

  /** The keys of the first `n` boundaries' prefixes. */
  ghost function KeysOfFirst(naming: Naming, tokens: Tokens, boundaries: seq<nat>, n: nat): set<Key>
    requires n <= |boundaries|
  {
    set i | 0 <= i < n :: KeyOf(naming, Prefix(tokens, boundaries[i]))
  }

  /** What is taken is what eviction takes of all that may go, in order of use. */
  ghost predicate MakesRoom(order: seq<Candidate>, entries: Entries, foreign: seq<Meta>, keep: Option<Key>, bytes: int, budget: nat,
                            removable: Path -> bool, taken: seq<Candidate>) {
    InOrder(order) && AllApart(order) && Lists(order, entries, foreign, keep) && taken == Taken(order, bytes, budget, removable)
  }

  function PathsOf(taken: seq<Candidate>): set<Path> { set c | c in taken :: c.path }

  class Cache {
    const naming: Naming
    const block: nat
    const min: nat
    const budget: nat
    const index: Index
    var disk: map<Path, File>

    ghost predicate Valid()
      reads this, index
    {
      index.Valid() && NamedBy(naming, index.entries, index.foreign)
    }

    constructor (naming: Naming, block: nat, min: nat, budget: nat, index: Index, disk: map<Path, File>)
      ensures this.naming == naming && this.block == block && this.min == min && this.budget == budget
      ensures this.index == index && this.disk == disk
    {
      this.naming, this.block, this.min, this.budget, this.index, this.disk := naming, block, min, budget, index, disk;
    }

    /** Forget an entry whose file turned out to be unusable, and delete the file
        if that succeeds. */
    method Discard(key: Key, path: Path, removable: Path -> bool)
      requires Valid() && key in index.entries && path == index.entries[key].path
      modifies this`disk, index`entries, index`bytes
      ensures Valid() && index.entries == old(index.entries) - {key}
      ensures disk == if removable(path) then old(disk) - {path} else old(disk)
    {
      hide PathOf;
      if removable(path) { disk := disk - {path}; }
      var meta := index.Remove(key, 0);
    }

    /** The longest cached prefix of `tokens` above `above`: `passed` boundaries
        were tried before it and had no usable entry. Their entries are gone,
        the found one is the most recently used, the others are untouched. */
    method Lookup(tokens: Tokens, above: nat, now: Time, removable: Path -> bool) returns (found: Option<Image>, ghost passed: nat)
      requires Valid()
      modifies this`disk, index`entries, index`bytes
      ensures Valid() && KeptFiles(index.entries, old(disk), disk) && Within(old(disk), disk)
      ensures
        var bs := Boundaries(|tokens|, block, min);
        && passed <= |bs|
        && (forall i :: 0 <= i < passed ==> above < bs[i] && !Usable(naming, old(index.entries), old(disk), Prefix(tokens, bs[i])))
        && (if found.Some? then
              && passed < |bs| && above < bs[passed] && Usable(naming, old(index.entries), old(disk), Prefix(tokens, bs[passed]))
              && (var key := KeyOf(naming, Prefix(tokens, bs[passed]));
                  && found == old(disk)[old(index.entries)[key].path].image
                  && index.entries == (old(index.entries) - KeysOfFirst(naming, tokens, bs, passed))
                       [key := old(index.entries)[key].(used := now)])
            else
              && (passed < |bs| ==> bs[passed] <= above)
              && index.entries == old(index.entries) - KeysOfFirst(naming, tokens, bs, passed))
    {
      hide Cache.Valid, Falls, Boundaries, KeyOf, Prefix, Usable, KeptFiles, KeysOfFirst, Within;
      var bs := Boundaries(|tokens|, block, min);
      BoundaryLengths(|tokens|, block, min);
      passed := 0;
      ghost var was, files := index.entries, disk;
      NoKeys(naming, tokens, bs, was);
      AllKept(was, files);
      for i := 0 to |bs|
        invariant Valid() && passed == i
        invariant forall j :: 0 <= j < i ==> above < bs[j] && !Usable(naming, was, files, Prefix(tokens, bs[j]))
        invariant index.entries == was - KeysOfFirst(naming, tokens, bs, i) && KeptFiles(index.entries, files, disk)
        invariant Within(files, disk)
      {
        if bs[i] <= above { return None, i; }
        var prefix := Prefix(tokens, bs[i]);
        NewKey(naming, tokens, bs, i);
        UsableSame(naming, was, files, KeysOfFirst(naming, tokens, bs, i), disk, prefix);
        ghost var disk0, entries0 := disk, index.entries;
        found := TryPrefix(prefix, now, removable);
        if found.Some? {
          TouchKeeps(entries0, KeyOf(naming, prefix), now, files, disk);
          return found, i;
        }
        StillWithin(files, disk0, disk);
        OneMoreKey(naming, tokens, bs, i, was);
        StillKept(index.entries, files, disk0, disk, KeyOf(naming, prefix), was - KeysOfFirst(naming, tokens, bs, i));
        passed := passed + 1;
      }
      return None, |bs|;
    }

    /** Try one boundary: a usable entry is touched and returned, an entry that
        is not is forgotten. */
    method TryPrefix(prefix: Tokens, now: Time, removable: Path -> bool) returns (found: Option<Image>)
      requires Valid()
      modifies this`disk, index`entries, index`bytes
      ensures Valid() && found.Some? == Usable(naming, old(index.entries), old(disk), prefix)
      ensures
        var key := KeyOf(naming, prefix);
        if found.Some? then
          && found == old(disk)[old(index.entries)[key].path].image
          && index.entries == old(index.entries)[key := old(index.entries)[key].(used := now)]
          && disk == old(disk)
        else
          && index.entries == old(index.entries) - {key}
          && KeptFiles(index.entries, old(disk), disk) && Within(old(disk), disk)
    {
      hide Index.Counts, KeyOf, PathOf;
      var key := KeyOf(naming, prefix);
      if key !in index.entries {
        assert index.entries - {key} == index.entries;
        return None;
      }
      var path := index.entries[key].path;
      if path in disk && disk[path].header == Some(prefix) && disk[path].image.Some? {
        index.Insert(key, index.entries[key].(used := now), 0);
        return disk[path].image;
      }
      PathsDifferFrom(naming, index.entries, index.foreign, key);
      Discard(key, path, removable);
      found := None;
    }

    /** Store an image of `tokens`, if it can be written, and make room for it.
        The new entry stays and is usable, and the files of the entries that
        stay are as they were. */
    method Write(tokens: Tokens, image: Image, written: Option<nat>, now: Time, removable: Path -> bool)
      returns (ok: bool, taken: seq<Candidate>, ghost order: seq<Candidate>)
      requires Valid()
      modifies this`disk, index
      ensures Valid() && ok == written.Some?
      ensures !ok ==> taken == [] && disk == old(disk) && unchanged(index)
      ensures ok ==>
        var key := KeyOf(naming, tokens);
        var path := PathOf(naming, key);
        && Usable(naming, index.entries, disk, tokens) && disk[path].image == Some(image)
        && index.entries == old(index.entries)[key := Meta(path, written.value, now)] - KeysIn(taken)
        && (forall c :: c in taken ==> removable(c.path) && c.key != Some(key))
        && MakesRoom(order, old(index.entries)[key := Meta(path, written.value, now)], old(index.foreign), Some(key),
                     old(index.bytes) - (if key in old(index.entries) then old(index.entries)[key].bytes else 0) + written.value,
                     budget, removable, taken)
        && index.foreign == WithoutAll(old(index.foreign), taken)
        && (index.bytes <= budget || Exhausted(index.entries, index.foreign, Some(key), removable))
        && KeptFiles(index.entries - {key}, old(disk), disk)
        && Within(old(disk)[path := File(Some(tokens), Some(image))], disk)
    {
      hide Index.Counts, Usable, Taken, KeysIn, WithoutAll, Lists, Exhausted, PathOf, KeyOf, NamedBy, KeptFiles, Within, InOrder, PathsOf,
        AllApart;
      if written.None? { return false, [], []; }
      ok := true;
      ghost var was, files := index.entries, disk;
      var key := KeyOf(naming, tokens);
      var path := PathOf(naming, key);
      StillNamed(naming, index.entries, index.foreign, key, Meta(path, written.value, now));
      disk := disk[path := File(Some(tokens), Some(image))];
      index.Insert(key, Meta(path, written.value, now), 0);
      ghost var entries, foreign, stored := index.entries, index.foreign, disk;
      ghost var before := index.bytes;
      taken, order := index.Evict(Some(key), budget, removable, 0);
      TakenRemovable(order, before, budget, removable);
      disk := disk - PathsOf(taken);
      EvictKeeps(naming, entries, foreign, order, Some(key), taken, stored);
      StoredThere(naming, was, entries, foreign, index.entries, files, stored, disk, tokens, image, key, path);
    }
  }

  /** Every cache file of this checkpoint has its key's own name. */
  predicate CanonicalNames(naming: Naming, found: seq<Found>) {
    && '-' !in naming.short
    && forall f :: f in Listing(naming.short, found) && f.key.Some? ==> f.meta.path == PathOf(naming, f.key.value)
  }

  lemma CanonicalIsNamed(naming: Naming, found: seq<Found>)
    requires DistinctNames(found) && CanonicalNames(naming, found)
    ensures
      var files := Listing(naming.short, found);
      NoneDisplaced(files) && NamedBy(naming, EntriesOf(files), ForeignOf(files))
  {
    hide Listing, PathOf, ParseName, EntriesOf, ForeignOf;
    var files := Listing(naming.short, found);
    ListingNames(naming.short, found);
    ForeignPaths(files);
    forall i, j | 0 <= i < j < |files| && files[i].key.Some? ensures files[i].key != files[j].key {
      assert files[i] in files && files[j] in files;
    }
    forall k | k in EntriesOf(files) ensures EntriesOf(files)[k].path == PathOf(naming, k) {
      EntryLast(files, k);
      var i: nat :| LastOf(files, k, i) && files[i].meta == EntriesOf(files)[k];
      assert files[i] in files;
    }
    forall m | m in ForeignOf(files) ensures ParseName(m.path, naming.short).None? {
      assert Named(naming.short, found, Listed(None, m));
    }
  }

  /** What the index keeps of a file. A file without a modification time counts
      as never used. */
  function MetaOf(f: Found): Meta {
    Meta(f.name, f.bytes, match f.modified case Some(time) => time case None => 0)
  }

  lemma {:induction false} ListingHolds(short: string, found: seq<Found>, i: nat)
    requires i < |found| && found[i].isFile && IsEntry(found[i].name)
    ensures Listed(ParseName(found[i].name, short), MetaOf(found[i])) in Listing(short, found)
    decreases |found|
  {
    hide ParseName, IsEntry, IsHalfWritten;
    var n := |found| - 1;
    NotHalfWritten(found[i].name);
    if i < n {
      assert found[..n][i] == found[i];
      ListingHolds(short, found[..n], i);
    }
  }

  lemma {:induction false} ListingOnly(short: string, found: seq<Found>, l: Listed)
    requires l in Listing(short, found)
    ensures exists i :: 0 <= i < |found| && found[i].isFile && IsEntry(found[i].name) && l.meta == MetaOf(found[i])
    decreases |found|
  {
    hide ParseName, IsEntry, IsHalfWritten;
    var n := |found| - 1;
    if l in Listing(short, found[..n]) {
      ListingOnly(short, found[..n], l);
      var i :| 0 <= i < n && found[..n][i].isFile && IsEntry(found[..n][i].name) && l.meta == MetaOf(found[..n][i]);
      assert found[i] == found[..n][i];
    } else {
      assert l.meta == MetaOf(found[n]);
    }
  }

  lemma {:induction false} ForeignHolds(files: seq<Listed>, m: Meta)
    requires Listed(None, m) in files
    ensures m in ForeignOf(files)
    decreases |files|
  {
    var n := |files| - 1;
    if files[n] != Listed(None, m) {
      assert files == files[..n] + [files[n]];
      ForeignHolds(files[..n], m);
    }
  }

  /** Of a directory with canonical names, the index has exactly the cache files:
      each under its key if its name is one of this checkpoint's, and among the
      foreign ones otherwise, with its own size and time. */
  lemma ScannedExactly(naming: Naming, found: seq<Found>)
    requires DistinctNames(found) && CanonicalNames(naming, found)
    ensures
      var files := Listing(naming.short, found);
      && (forall i :: 0 <= i < |found| && found[i].isFile && IsEntry(found[i].name) ==>
           Indexed(naming.short, EntriesOf(files), ForeignOf(files), found[i]))
      && (forall k :: k in EntriesOf(files) ==>
           exists i :: 0 <= i < |found| && found[i].isFile && IsEntry(found[i].name) && EntriesOf(files)[k] == MetaOf(found[i]))
  {
    hide ParseName, IsEntry, PathOf, MetaOf, EntriesOf, ForeignOf, Listing, ListedAs;
    var files := Listing(naming.short, found);
    ListingNames(naming.short, found);
    forall i | 0 <= i < |found| && found[i].isFile && IsEntry(found[i].name)
      ensures Indexed(naming.short, EntriesOf(files), ForeignOf(files), found[i])
    {
      var l := Listed(ParseName(found[i].name, naming.short), MetaOf(found[i]));
      ListingHolds(naming.short, found, i);
      if l.key.Some? { OneOfKey(naming, files, l); } else { ForeignHolds(files, l.meta); }
    }
    forall k | k in EntriesOf(files)
      ensures exists i :: 0 <= i < |found| && found[i].isFile && IsEntry(found[i].name) && EntriesOf(files)[k] == MetaOf(found[i])
    {
      EntryLast(files, k);
      var j: nat :| LastOf(files, k, j) && files[j].meta == EntriesOf(files)[k];
      ListingOnly(naming.short, found, files[j]);
    }
  }

  predicate Indexed(short: string, entries: Entries, foreign: seq<Meta>, f: Found) {
    var key := ParseName(f.name, short);
    if key.Some? then key.value in entries && entries[key.value] == MetaOf(f) else MetaOf(f) in foreign
  }

  lemma OneOfKey(naming: Naming, files: seq<Listed>, l: Listed)
    requires DistinctFiles(files) && l in files && l.key.Some?
    requires forall f :: f in files && f.key.Some? ==> f.meta.path == PathOf(naming, f.key.value)
    ensures l.key.value in EntriesOf(files) && EntriesOf(files)[l.key.value] == l.meta
  {
    hide PathOf;
    EntriesFrom(files, l.key.value);
    EntryLast(files, l.key.value);
    var j: nat :| LastOf(files, l.key.value, j) && files[j].meta == EntriesOf(files)[l.key.value];
    var i :| 0 <= i < |files| && files[i] == l;
    assert files[i] in files && files[j] in files;
  }

  /** The files a killed process left half-written, where they can be removed. */
  function Leftovers(found: seq<Found>, removable: Path -> bool): set<Path> {
    set f | f in found && IsHalfWritten(f.name) && removable(f.name) :: f.name
  }

  /** Open a cache directory: refuse a bad configuration, clear half-written
      files, index the rest and make room. With canonical names the cache is
      sound from the start, and in any case its surplus is what displaced files
      hold. */
  method Open(naming: Naming, block: nat, min: nat, budget: nat, found: seq<Found>, files: map<Path, File>, removable: Path -> bool)
    returns (cache: Option<Cache>, taken: seq<Candidate>, ghost order: seq<Candidate>)
    requires DistinctNames(found)
    ensures cache.None? <==> block == 0 || min < block
    ensures cache.Some? ==>
      && fresh(cache.value) && fresh(cache.value.index) && cache.value.naming == naming
      && cache.value.block == block && cache.value.min == min && cache.value.budget == budget
      && Lost(Listing(naming.short, found)) >= 0 && cache.value.index.Counts(Lost(Listing(naming.short, found)))
      && (cache.value.index.bytes <= budget || Exhausted(cache.value.index.entries, cache.value.index.foreign, None, removable))
      && Within(files, cache.value.disk)
    // It holds what the listing gives but for what makes room, and so does the disk but for half-written files.
    ensures cache.Some? ==>
      var listed := Listing(naming.short, found);
      && MakesRoom(order, EntriesOf(listed), ForeignOf(listed), None,
                   Sum(EntriesOf(listed)) + SumAll(ForeignOf(listed)) + Lost(listed), budget, removable, taken)
      && cache.value.index.entries == EntriesOf(listed) - KeysIn(taken)
      && cache.value.index.foreign == WithoutAll(ForeignOf(listed), taken)
    ensures cache.Some? ==>
      forall path :: path in cache.value.disk <==> path in files && path !in PathsOf(taken) && !Cleared(found, removable, path)
    ensures cache.Some? && CanonicalNames(naming, found) ==>
      cache.value.Valid() && KeptFiles(cache.value.index.entries, files, cache.value.disk)
  {
    hide Lost, Listing, CanonicalNames, NoneDisplaced, EntriesOf, ForeignOf, Taken, KeysIn, WithoutAll, Lists, Exhausted, NamedBy, KeptFiles,
      InOrder, AllApart, PathsOf, Leftovers, Within, Cleared;
    if block == 0 || min < block { return None, [], []; }
    var index := Scan(naming.short, found);
    var cleared := files - Leftovers(found, removable);
    ghost var entries, foreign := index.entries, index.foreign;
    taken, order := index.Evict(None, budget, removable, Lost(Listing(naming.short, found)));
    var built := new Cache(naming, block, min, budget, index, cleared - PathsOf(taken));
    FewerFiles(files, Leftovers(found, removable), PathsOf(taken));
    LeftoversAre(found, removable);
    if CanonicalNames(naming, found) {
      CanonicalIsNamed(naming, found);
      EvictKeeps(naming, entries, foreign, order, None, taken, cleared);
      ClearedKeeps(naming, found, removable, index.entries, index.foreign, files, built.disk);
    }
    cache := Some(built);
  }

  /** A half-written file of the listing that can be removed. */
  ghost predicate Cleared(found: seq<Found>, removable: Path -> bool, path: Path) {
    IsHalfWritten(path) && removable(path) && exists f :: f in found && f.name == path
  }

  lemma LeftoversAre(found: seq<Found>, removable: Path -> bool)
    ensures forall path :: path in Leftovers(found, removable) <==> Cleared(found, removable, path)
  {
    hide IsHalfWritten;
  }

  lemma FewerFiles(files: map<Path, File>, a: set<Path>, b: set<Path>)
    ensures Within(files, files - a - b)
  {}

  /** No half-written file is an entry's. */
  lemma ClearedKeeps(naming: Naming, found: seq<Found>, removable: Path -> bool, entries: Entries, foreign: seq<Meta>,
                     files: map<Path, File>, disk: map<Path, File>)
    requires NamedBy(naming, entries, foreign)
    requires KeptFiles(entries, files - Leftovers(found, removable), disk)
    ensures KeptFiles(entries, files, disk)
  {
    hide FileName, IsHalfWritten, IsEntry;
    forall k | k in entries ensures SameFile(files, disk, entries[k].path) {
      NameParses(naming.short, k);
      NotHalfWritten(entries[k].path);
      assert SameFile(files - Leftovers(found, removable), disk, entries[k].path);
    }
  }

  // ----- every run -----

  datatype Step =
    | Look(tokens: Tokens, above: nat, now: Time, removable: Path -> bool)
    | Store(tokens: Tokens, written: Option<nat>, now: Time, removable: Path -> bool)

  /** Every readable file holds the image of the tokens in its header. */
  ghost predicate Truthful(disk: map<Path, File>, imageOf: seq<Token> -> Image) {
    forall path :: path in disk && disk[path].header.Some? && disk[path].image.Some? ==>
      disk[path].image.value == imageOf(disk[path].header.value)
  }

  /** What a lookup may serve: nothing, or the image of a prefix of the request at
      a boundary above the bound. */
  ghost predicate Serves(block: nat, min: nat, imageOf: seq<Token> -> Image, step: Step, found: Option<Image>) {
    found.Some? ==>
      step.Look? && exists b: nat :: ServedAt(block, min, imageOf, step, found.value, b)
  }

  predicate ServedAt(block: nat, min: nat, imageOf: seq<Token> -> Image, step: Step, image: Image, b: nat)
    requires step.Look?
  {
    IsBoundary(b, |step.tokens|, block, min) && step.above < b && image == imageOf(step.tokens[..b])
  }

  /** What a run leaves between its steps. */
  datatype Snap = Snap(entries: Entries, disk: map<Path, File>)

  ghost function SnapOf(cache: Cache): Snap
    reads cache, cache.index
  {
    Snap(cache.index.entries, cache.disk)
  }

  /** The boundary `b` above the bound has a usable entry. */
  predicate Serving(naming: Naming, block: nat, min: nat, was: Snap, tokens: Tokens, above: nat, b: nat) {
    IsBoundary(b, |tokens|, block, min) && above < b && Usable(naming, was.entries, was.disk, Prefix(tokens, b))
  }

  ghost predicate ServesLongest(naming: Naming, block: nat, min: nat, was: Snap, tokens: Tokens, above: nat, image: Image, b: nat) {
    && Serving(naming, block, min, was, tokens, above, b)
    && (forall c: nat :: Serving(naming, block, min, was, tokens, above, c) ==> c <= b)
    && was.disk[was.entries[KeyOf(naming, Prefix(tokens, b))].path].image == Some(image)
  }

  /** A lookup misses only when nothing usable is there, and otherwise serves the
      longest; a write that succeeds leaves its entry usable, one that fails
      changes nothing; and neither touches a file of an entry it leaves. */
  ghost predicate Took(naming: Naming, block: nat, min: nat, imageOf: seq<Token> -> Image, was: Snap, step: Step,
                       found: Option<Image>, now: Snap) {
    match step
    case Look(tokens, above, _, _) =>
      && KeptFiles(now.entries, was.disk, now.disk) && Within(was.disk, now.disk)
      && (forall k :: k in now.entries ==> k in was.entries)
      && (if found.None? then forall b: nat :: !Serving(naming, block, min, was, tokens, above, b)
          else exists b: nat :: ServesLongest(naming, block, min, was, tokens, above, found.value, b))
    case Store(tokens, written, _, _) =>
      && found.None?
      && (if written.None? then now == was
          else
            var key := KeyOf(naming, tokens);
            && Usable(naming, now.entries, now.disk, tokens) && now.disk[now.entries[key].path].image == Some(imageOf(tokens))
            && KeptFiles(now.entries - {key}, was.disk, now.disk)
            && forall k :: k in now.entries ==> k in was.entries || k == key)
  }

  /** Over any run of lookups and writes, failed ones included, on any disk that
      starts truthful, the byte count stays exact, every step does what it should
      and every lookup that hits is served the image of its own prefix. */
  method RunCache(cache: Cache, steps: seq<Step>, imageOf: seq<Token> -> Image)
    returns (served: seq<Option<Image>>, ghost states: seq<Snap>)
    requires cache.Valid() && Truthful(cache.disk, imageOf)
    modifies cache, cache.index
    ensures cache.Valid() && Truthful(cache.disk, imageOf) && |served| == |steps| && |states| == |steps| + 1
    ensures states[0] == old(SnapOf(cache)) && states[|steps|] == SnapOf(cache)
    ensures forall i :: 0 <= i < |steps| ==>
      Took(cache.naming, cache.block, cache.min, imageOf, states[i], steps[i], served[i], states[i + 1])
    ensures forall i :: 0 <= i < |steps| ==> Serves(cache.block, cache.min, imageOf, steps[i], served[i])
  {
    hide Cache.Valid, Truthful, Serves, Took;
    served, states := [], [SnapOf(cache)];
    for i := 0 to |steps|
      invariant cache.Valid() && Truthful(cache.disk, imageOf) && |served| == i && |states| == i + 1
      invariant states[0] == old(SnapOf(cache)) && states[i] == SnapOf(cache)
      invariant forall j :: 0 <= j < i ==>
        Took(cache.naming, cache.block, cache.min, imageOf, states[j], steps[j], served[j], states[j + 1])
      invariant forall j :: 0 <= j < i ==> Serves(cache.block, cache.min, imageOf, steps[j], served[j])
    {
      var found := RunStep(cache, steps[i], imageOf);
      served, states := served + [found], states + [SnapOf(cache)];
    }
  }

  method RunStep(cache: Cache, step: Step, imageOf: seq<Token> -> Image) returns (found: Option<Image>)
    requires cache.Valid() && Truthful(cache.disk, imageOf)
    modifies cache, cache.index
    ensures cache.Valid() && Truthful(cache.disk, imageOf)
    ensures Took(cache.naming, cache.block, cache.min, imageOf, old(SnapOf(cache)), step, found, SnapOf(cache))
    ensures Serves(cache.block, cache.min, imageOf, step, found)
  {
    hide Cache.Valid, Truthful, Serves, Within, KeptFiles, Exhausted, KeysIn, Boundaries, KeysOfFirst, MakesRoom, WithoutAll,
      ServesLongest, Serving, IsBoundary;
    ghost var was := SnapOf(cache);
    found := None;
    match step
    case Look(tokens, above, now, removable) =>
      ghost var passed;
      found, passed := cache.Lookup(tokens, above, now, removable);
      TruthShrinks(was.disk, cache.disk, imageOf);
      LookedLongest(cache.naming, was, tokens, cache.block, cache.min, above, passed, found);
      if found.Some? {
        ServedTruth(cache.naming, cache.block, cache.min, was.entries, was.disk, imageOf, step, passed, found.value);
      } else {
        NothingServed(cache.block, cache.min, imageOf, step);
      }
    case Store(tokens, written, now, removable) =>
      ghost var order;
      var ok, taken;
      ok, taken, order := cache.Write(tokens, imageOf(tokens), written, now, removable);
      if ok { TruthStored(was.disk, PathOf(cache.naming, KeyOf(cache.naming, tokens)), tokens, cache.disk, imageOf); }
      NothingServed(cache.block, cache.min, imageOf, step);
  }

  /** Where a lookup stops is the longest usable boundary, or there is none. */
  lemma LookedLongest(naming: Naming, was: Snap, tokens: Tokens, block: nat, min: nat, above: nat, passed: nat, found: Option<Image>)
    requires
      var bs := Boundaries(|tokens|, block, min);
      && passed <= |bs| && (forall i :: 0 <= i < passed ==> !Usable(naming, was.entries, was.disk, Prefix(tokens, bs[i])))
      && (if found.Some? then
            && passed < |bs| && above < bs[passed] && Usable(naming, was.entries, was.disk, Prefix(tokens, bs[passed]))
            && found == was.disk[was.entries[KeyOf(naming, Prefix(tokens, bs[passed]))].path].image
          else passed < |bs| ==> bs[passed] <= above)
    ensures
      if found.None? then forall b: nat :: !Serving(naming, block, min, was, tokens, above, b)
      else exists b: nat :: ServesLongest(naming, block, min, was, tokens, above, found.value, b)
  {
    hide Boundaries, KeyOf, Prefix, IsBoundary, Usable;
    var bs := Boundaries(|tokens|, block, min);
    BoundaryFacts(|tokens|, block, min);
    forall b: nat | Serving(naming, block, min, was, tokens, above, b) ensures passed < |bs| && b <= bs[passed] {
      LookupIsLongest(naming, was.entries, was.disk, tokens, block, min, above, passed, b);
    }
    if found.Some? {
      assert bs[passed] in bs;
      assert ServesLongest(naming, block, min, was, tokens, above, found.value, bs[passed]);
    }
  }

  /** No longer boundary of the request has an entry. */
  ghost predicate NothingLonger(naming: Naming, entries: Entries, tokens: Tokens, block: nat, min: nat, b: nat) {
    forall c: nat :: b < c && IsBoundary(c, |tokens|, block, min) ==> KeyOf(naming, Prefix(tokens, c)) !in entries
  }

  /** What was just stored at a boundary of a longer request is served to it, or
      something longer is. */
  method StoreThenLook(cache: Cache, tokens: Tokens, b: nat, image: Image, bytes: nat, above: nat, now: Time, later: Time,
                       removable: Path -> bool)
    returns (found: Option<Image>)
    requires cache.Valid() && IsBoundary(b, |tokens|, cache.block, cache.min) && above < b
    modifies cache, cache.index
    ensures cache.Valid() && found.Some?
    ensures NothingLonger(cache.naming, old(cache.index.entries), tokens, cache.block, cache.min, b) ==> found == Some(image)
  {
    hide Cache.Valid, Within, KeptFiles, MakesRoom, Exhausted, KeysIn, Boundaries, KeysOfFirst, WithoutAll, NothingLonger;
    var prefix := Prefix(tokens, b);
    ghost var was, order := cache.index.entries, [];
    var ok, taken;
    ok, taken, order := cache.Write(prefix, image, Some(bytes), now, removable);
    ghost var entries, disk := cache.index.entries, cache.disk;
    ghost var passed;
    found, passed := cache.Lookup(tokens, above, later, removable);
    LookupIsLongest(cache.naming, entries, disk, tokens, cache.block, cache.min, above, passed, b);
    FoundThere(cache.naming, was, entries, disk, tokens, cache.block, cache.min, passed, b, image, taken);
  }

  lemma FoundThere(naming: Naming, was: Entries, entries: Entries, disk: map<Path, File>, tokens: Tokens, block: nat, min: nat,
                   passed: nat, b: nat, image: Image, taken: seq<Candidate>)
    requires IsBoundary(b, |tokens|, block, min)
    requires forall k :: k in entries ==> k in was || k == KeyOf(naming, Prefix(tokens, b))
    requires
      var key := KeyOf(naming, Prefix(tokens, b));
      Usable(naming, entries, disk, Prefix(tokens, b)) && entries[key].path == PathOf(naming, key)
      && disk[PathOf(naming, key)].image == Some(image)
    requires
      var bs := Boundaries(|tokens|, block, min);
      passed < |bs| && b <= bs[passed] && Usable(naming, entries, disk, Prefix(tokens, bs[passed]))
    ensures NothingLonger(naming, was, tokens, block, min, b) ==> Boundaries(|tokens|, block, min)[passed] == b
  {
    hide Boundaries, PathOf;
    var bs := Boundaries(|tokens|, block, min);
    BoundaryFacts(|tokens|, block, min);
    var c := bs[passed];
    assert c in bs;
    assert c > b ==> KeyOf(naming, Prefix(tokens, c)).tokens == c && KeyOf(naming, Prefix(tokens, b)).tokens == b;
  }

  lemma NothingServed(block: nat, min: nat, imageOf: seq<Token> -> Image, step: Step)
    ensures Serves(block, min, imageOf, step, None)
  {}

  lemma TruthShrinks(a: map<Path, File>, b: map<Path, File>, imageOf: seq<Token> -> Image)
    requires Truthful(a, imageOf) && Within(a, b)
    ensures Truthful(b, imageOf)
  {}

  lemma TruthStored(a: map<Path, File>, path: Path, tokens: Tokens, b: map<Path, File>, imageOf: seq<Token> -> Image)
    requires Truthful(a, imageOf) && Within(a[path := File(Some(tokens), Some(imageOf(tokens)))], b)
    ensures Truthful(b, imageOf)
  {}

  lemma ServedTruth(naming: Naming, block: nat, min: nat, entries: Entries, disk: map<Path, File>, imageOf: seq<Token> -> Image,
                    step: Step, passed: nat, image: Image)
    requires step.Look? && Truthful(disk, imageOf)
    requires
      var bs := Boundaries(|step.tokens|, block, min);
      && passed < |bs| && step.above < bs[passed] && Usable(naming, entries, disk, Prefix(step.tokens, bs[passed]))
      && Some(image) == disk[entries[KeyOf(naming, Prefix(step.tokens, bs[passed]))].path].image
    ensures Serves(block, min, imageOf, step, Some(image))
  {
    hide Boundaries;
    var bs := Boundaries(|step.tokens|, block, min);
    BoundaryFacts(|step.tokens|, block, min);
    assert bs[passed] in bs;
    assert ServedAt(block, min, imageOf, step, image, bs[passed]);
  }

  /** Adding a key's own file keeps the names right. */
  lemma StillNamed(naming: Naming, entries: Entries, foreign: seq<Meta>, key: Key, meta: Meta)
    requires NamedBy(naming, entries, foreign) && meta.path == PathOf(naming, key)
    ensures NamedBy(naming, entries[key := meta], foreign)
  {
    hide FileName, ParseName;
  }

  /** Eviction takes no file of an entry it leaves, and leaves the names right. */
  lemma EvictKeeps(naming: Naming, entries: Entries, foreign: seq<Meta>, order: seq<Candidate>, keep: Option<Key>,
                   taken: seq<Candidate>, disk: map<Path, File>)
    requires NamedBy(naming, entries, foreign) && Lists(order, entries, foreign, keep)
    requires forall c :: c in taken ==> c in order
    ensures
      var left := entries - KeysIn(taken);
      && KeptFiles(left, disk, disk - PathsOf(taken)) && Within(disk, disk - PathsOf(taken))
      && NamedBy(naming, left, WithoutAll(foreign, taken))
    ensures keep.Some? ==> keep.value !in KeysIn(taken) && forall c :: c in taken ==> c.key != keep
  {
    hide FileName, ParseName, WithoutAll;
    var left := entries - KeysIn(taken);
    forall k | k in left ensures SameFile(disk, disk - PathsOf(taken), left[k].path) {
      PathsDifferFrom(naming, entries, foreign, k);
      forall c | c in taken ensures c.path != entries[k].path {
        assert c in order;
      }
    }
    ForeignShrinks(foreign, taken);
    forall c | c in taken ensures c.key.Some? ==> c.key != keep { assert c in order; }
    KeepKept(order, entries, foreign, keep, taken);
  }

  lemma StoredThere(naming: Naming, was: Entries, entries: Entries, foreign: seq<Meta>, left: Entries,
                    files: map<Path, File>, stored: map<Path, File>, disk: map<Path, File>, tokens: Tokens, image: Image, key: Key, path: Path)
    requires key == KeyOf(naming, tokens) && path == PathOf(naming, key) && stored == files[path := File(Some(tokens), Some(image))]
    requires key in entries && entries == was[key := entries[key]] && entries[key].path == path
    requires (forall k :: k in left ==> k in entries && left[k] == entries[k]) && key in left
    requires NamedBy(naming, entries, foreign) && KeptFiles(left, stored, disk)
    ensures Usable(naming, left, disk, tokens) && disk[path].image == Some(image)
    ensures KeptFiles(left - {key}, files, disk)
  {
    hide FileName, ParseName;
    PathsDifferFrom(naming, entries, foreign, key);
    assert SameFile(stored, disk, left[key].path);
    var others := left - {key};
    forall k | k in others ensures SameFile(files, disk, others[k].path) {
      assert SameFile(stored, disk, left[k].path);
    }
  }

  lemma {:induction false} TakenRemovable(order: seq<Candidate>, bytes: int, budget: nat, removable: Path -> bool)
    ensures forall c :: c in Taken(order, bytes, budget, removable) ==> removable(c.path)
    decreases |order|
  {
    if order != [] && bytes > budget {
      TakenRemovable(order[1..], if removable(order[0].path) then bytes - order[0].bytes else bytes, budget, removable);
    }
  }

  lemma {:induction false} ForeignShrinks(foreign: seq<Meta>, taken: seq<Candidate>)
    ensures forall m :: m in WithoutAll(foreign, taken) ==> m in foreign
    decreases |taken|
  {
    if taken != [] { ForeignShrinks(foreign, taken[..|taken| - 1]); }
  }

  /** Every file of `b` is as it was in `a`. */
  predicate Within(a: map<Path, File>, b: map<Path, File>) {
    forall path :: path in b ==> path in a && a[path] == b[path]
  }

  lemma StillWithin(a: map<Path, File>, b: map<Path, File>, c: map<Path, File>)
    requires Within(a, b) && Within(b, c)
    ensures Within(a, c)
  {}

  lemma TouchKeeps(entries: Entries, key: Key, now: Time, a: map<Path, File>, b: map<Path, File>)
    requires key in entries && KeptFiles(entries, a, b)
    ensures KeptFiles(entries[key := entries[key].(used := now)], a, b)
  {
    forall k | k in entries ensures SameFile(a, b, entries[k].path) {}
  }

  predicate SameFile(a: map<Path, File>, b: map<Path, File>, path: Path) {
    (path in a <==> path in b) && (path in a ==> a[path] == b[path])
  }

  /** Every entry's file is as it was. */
  ghost predicate KeptFiles(entries: Entries, a: map<Path, File>, b: map<Path, File>) {
    forall k :: k in entries ==> SameFile(a, b, entries[k].path)
  }

  lemma AllKept(entries: Entries, disk: map<Path, File>)
    ensures KeptFiles(entries, disk, disk) && Within(disk, disk)
  {}

  lemma StillKept(entries: Entries, a: map<Path, File>, b: map<Path, File>, c: map<Path, File>, key: Key, before: Entries)
    requires entries == before - {key} && KeptFiles(before, a, b) && KeptFiles(entries, b, c)
    ensures KeptFiles(entries, a, c)
  {
    forall k | k in entries ensures SameFile(a, c, entries[k].path) {
      assert SameFile(a, b, before[k].path) && SameFile(b, c, entries[k].path);
    }
  }

  lemma UsableSame(naming: Naming, was: Entries, files: map<Path, File>, gone: set<Key>, disk: map<Path, File>, prefix: Tokens)
    requires KeyOf(naming, prefix) !in gone && KeptFiles(was - gone, files, disk)
    ensures Usable(naming, was - gone, disk, prefix) <==> Usable(naming, was, files, prefix)
    ensures Usable(naming, was, files, prefix) ==>
      var key := KeyOf(naming, prefix);
      && key in was && key in was - gone && (was - gone)[key] == was[key]
      && was[key].path in disk && was[key].path in files && disk[was[key].path] == files[was[key].path]
  {
    var key := KeyOf(naming, prefix);
    if key in was { assert SameFile(files, disk, (was - gone)[key].path); }
  }

  lemma NoKeys(naming: Naming, tokens: Tokens, bs: seq<nat>, entries: Entries)
    ensures entries - KeysOfFirst(naming, tokens, bs, 0) == entries
  {}

  lemma OneMoreKey(naming: Naming, tokens: Tokens, bs: seq<nat>, i: nat, entries: Entries)
    requires i < |bs|
    ensures
      var key := KeyOf(naming, Prefix(tokens, bs[i]));
      entries - KeysOfFirst(naming, tokens, bs, i + 1) == entries - KeysOfFirst(naming, tokens, bs, i) - {key}
  {}

  /** A shorter prefix has another key. */
  lemma NewKey(naming: Naming, tokens: Tokens, bs: seq<nat>, i: nat)
    requires i < |bs| && Falls(bs) && forall j :: 0 <= j < |bs| ==> bs[j] <= |tokens|
    ensures KeyOf(naming, Prefix(tokens, bs[i])) !in KeysOfFirst(naming, tokens, bs, i)
  {
    forall j | 0 <= j < i ensures KeyOf(naming, Prefix(tokens, bs[j])) != KeyOf(naming, Prefix(tokens, bs[i])) {
      assert bs[j] > bs[i];
      assert KeyOf(naming, Prefix(tokens, bs[j])).tokens == bs[j];
    }
  }

  lemma BoundaryLengths(length: nat, block: nat, min: nat)
    ensures Falls(Boundaries(length, block, min))
    ensures forall i :: 0 <= i < |Boundaries(length, block, min)| ==> Boundaries(length, block, min)[i] <= length
  {
    hide Boundaries, Falls;
    BoundaryFacts(length, block, min);
    var bs := Boundaries(length, block, min);
    forall i | 0 <= i < |bs| ensures bs[i] <= length { assert bs[i] in bs; }
  }

  /** What the lookup passed over and found is the longest usable boundary. */
  lemma LookupIsLongest(naming: Naming, entries: Entries, disk: map<Path, File>, tokens: Tokens,
                        block: nat, min: nat, above: nat, passed: nat, b: nat)
    requires
      var bs := Boundaries(|tokens|, block, min);
      && passed <= |bs| && (forall i :: 0 <= i < passed ==> !Usable(naming, entries, disk, Prefix(tokens, bs[i])))
      && (passed == |bs| || bs[passed] <= above || Usable(naming, entries, disk, Prefix(tokens, bs[passed])))
    ensures
      var bs := Boundaries(|tokens|, block, min);
      IsBoundary(b, |tokens|, block, min) && above < b && Usable(naming, entries, disk, Prefix(tokens, b)) ==>
        passed < |bs| && b <= bs[passed]
  {
    hide Usable;
    BoundariesExact(|tokens|, block, min, b);
    var bs := Boundaries(|tokens|, block, min);
    if b in bs {
      var i :| 0 <= i < |bs| && bs[i] == b;
    }
  }

  lemma BoundaryFacts(length: nat, block: nat, min: nat)
    ensures Falls(Boundaries(length, block, min))
    ensures forall b :: b in Boundaries(length, block, min) <==> IsBoundary(b, length, block, min)
  {
    BoundariesExact(length, block, min, 0);
    forall b ensures b in Boundaries(length, block, min) <==> IsBoundary(b, length, block, min) {
      BoundariesExact(length, block, min, b);
    }
  }
}
