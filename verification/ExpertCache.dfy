/** The expert-matrix cache: a least-recently-used map whose recency queue is
    lazy. A hit appends a record and leaves the old one stale; records are
    skipped at eviction time and swept when too many have gathered. */
module ExpertCache {
  import opened Wrappers

  type Byte(==,!new)

  datatype Matrix = Matrix(data: seq<Byte>)

  datatype Key = Key(tensorStart: nat, second: Option<nat>, expert: nat)

  datatype Entry = Entry(matrix: Matrix, bytes: nat, lastAccess: nat)

  datatype Record = Record(key: Key, access: nat)

  datatype Stats = Stats(requests: nat, hits: nat, misses: nat, evictions: nat, bytesLoaded: nat)

  type Entries = map<Key, Entry>

  // ----- sizes -----

  ghost function Total(m: Entries): nat
    decreases |m|
  {
    if m == map[] then 0
    else
      var k :| k in m;
      m[k].bytes + Total(m - {k})
  }

  lemma {:induction false} TotalRemove(m: Entries, k: Key)
    requires k in m
    ensures Total(m) == m[k].bytes + Total(m - {k})
    decreases |m|
  {
    var p :| p in m && Total(m) == m[p].bytes + Total(m - {p});
    if p != k {
      TotalRemove(m - {p}, k);
      TotalRemove(m - {k}, p);
      assert m - {p} - {k} == m - {k} - {p};
    }
  }

  lemma TotalInsert(m: Entries, k: Key, e: Entry)
    ensures Total(m[k := e]) == Total(m - {k}) + e.bytes
    ensures Total(m - {k}) == Total(m) - if k in m then m[k].bytes else 0
  {
    TotalRemove(m[k := e], k);
    assert m[k := e] - {k} == m - {k};
    if k in m { TotalRemove(m, k); } else { assert m - {k} == m; }
  }

  lemma {:induction false} TotalMonotone(small: Entries, big: Entries)
    requires forall k :: k in small ==> k in big && big[k] == small[k]
    ensures Total(small) <= Total(big)
    decreases |small|
  {
    if small != map[] {
      var k :| k in small;
      TotalRemove(small, k);
      TotalRemove(big, k);
      TotalMonotone(small - {k}, big - {k});
    }
  }

  // ----- recency order -----

  ghost predicate Before(entries: Entries, a: Key, b: Key) {
    a in entries && b in entries && entries[a].lastAccess < entries[b].lastAccess
  }

  ghost predicate Ordered(entries: Entries, order: seq<Key>) {
    forall i, j :: 0 <= i < j < |order| ==> Before(entries, order[i], order[j])
  }

  /** `order` lists the entries from least to most recently used. */
  ghost predicate OrderOk(entries: Entries, order: seq<Key>, clock: nat) {
    && (forall i :: 0 <= i < |order| ==> order[i] in entries)
    && (forall k :: k in entries ==> k in order)
    && Ordered(entries, order)
    && (forall k :: k in entries ==> entries[k].lastAccess <= clock && entries[k].bytes == |entries[k].matrix.data|)
  }

  /** The queue is strictly increasing in access time. */
  ghost predicate QueueOk(lru: seq<Record>, clock: nat) {
    && (forall i, j :: 0 <= i < j < |lru| ==> lru[i].access < lru[j].access)
    && (forall r :: r in lru ==> r.access <= clock)
  }

  predicate Live(entries: Entries, r: Record) {
    r.key in entries && entries[r.key].lastAccess == r.access
  }

  /** Every entry has its live record in the queue. */
  ghost predicate Covered(entries: Entries, lru: seq<Record>) {
    forall k :: k in entries ==> Record(k, entries[k].lastAccess) in lru
  }

  /** The entries whose live record is not in the queue. */
  ghost function Unrecorded(entries: Entries, lru: seq<Record>): Entries {
    map k | k in entries && Record(k, entries[k].lastAccess) !in lru :: entries[k]
  }

  function Without(order: seq<Key>, key: Key): (r: seq<Key>)
    ensures forall k :: k in r <==> k in order && k != key
    ensures |r| <= |order|
  {
    if order == [] then []
    else if order[0] == key then Without(order[1..], key)
    else [order[0]] + Without(order[1..], key)
  }

  /** A true LRU's use of `key`. */
  function Used(order: seq<Key>, key: Key): seq<Key> {
    Without(order, key) + [key]
  }

  /** How many of the oldest entries must go before `need` more bytes fit. */
  ghost function EvictCount(order: seq<Key>, entries: Entries, need: nat, capacity: nat): (n: nat)
    ensures n <= |order|
    decreases |order|
  {
    if Total(entries) + need <= capacity || order == [] then 0
    else 1 + EvictCount(order[1..], entries - {order[0]}, need, capacity)
  }

  function KeysOf(order: seq<Key>): set<Key> {
    set k | k in order
  }

  /** Eviction takes the fewest oldest entries that make the room. */
  lemma {:induction false} EvictCountIsLeast(order: seq<Key>, entries: Entries, need: nat, capacity: nat, m: nat)
    requires m < EvictCount(order, entries, need, capacity)
    ensures Total(entries - KeysOf(order[..m])) + need > capacity
    decreases m
  {
    if m == 0 {
      assert entries - KeysOf(order[..0]) == entries;
    } else {
      EvictCountIsLeast(order[1..], entries - {order[0]}, need, capacity, m - 1);
      assert order[..m] == [order[0]] + order[1..][..m - 1];
      assert entries - KeysOf(order[..m]) == entries - {order[0]} - KeysOf(order[1..][..m - 1]);
    }
  }

  lemma {:induction false} EvictCountFits(order: seq<Key>, entries: Entries, need: nat, capacity: nat)
    requires need <= capacity && forall k :: k in entries ==> k in order
    ensures Total(entries - KeysOf(order[..EvictCount(order, entries, need, capacity)])) + need <= capacity
    decreases |order|
  {
    var n := EvictCount(order, entries, need, capacity);
    if n == 0 {
      assert entries - KeysOf(order[..0]) == entries;
      if order == [] { assert entries == map[]; }
    } else {
      EvictCountFits(order[1..], entries - {order[0]}, need, capacity);
      assert order[..n] == [order[0]] + order[1..][..n - 1];
      assert entries - KeysOf(order[..n]) == entries - {order[0]} - KeysOf(order[1..][..n - 1]);
    }
  }

  // ----- steps of the invariant, on values -----

  lemma {:induction false} WithoutIsOrdered(entries: Entries, order: seq<Key>, key: Key)
    requires Ordered(entries, order)
    ensures Ordered(entries, Without(order, key))
    decreases |order|
  {
    if order != [] {
      assert Ordered(entries, order[1..]) by {
        forall i, j | 0 <= i < j < |order[1..]| ensures Before(entries, order[1..][i], order[1..][j]) {
          assert Before(entries, order[i + 1], order[j + 1]);
        }
      }
      WithoutIsOrdered(entries, order[1..], key);
      var rest := Without(order[1..], key);
      if order[0] != key {
        var now := [order[0]] + rest;
        forall i, j | 0 <= i < j < |now| ensures Before(entries, now[i], now[j]) {
          if i == 0 {
            assert rest[j - 1] in order[1..];
            var k :| 0 <= k < |order[1..]| && order[1..][k] == rest[j - 1];
            assert Before(entries, order[0], order[k + 1]);
          } else {
            assert Before(entries, rest[i - 1], rest[j - 1]);
          }
        }
      }
    }
  }

  /** Giving `key` the newest access time moves it to the end of the order. */
  lemma UseKeepsOrder(entries: Entries, order: seq<Key>, clock: nat, key: Key, e: Entry)
    requires OrderOk(entries, order, clock) && e.lastAccess == clock + 1 && e.bytes == |e.matrix.data|
    ensures OrderOk(entries[key := e], Used(order, key), clock + 1)
  {
    WithoutIsOrdered(entries, order, key);
    var rest, now, after := Without(order, key), Used(order, key), entries[key := e];
    forall i, j | 0 <= i < j < |now| ensures Before(after, now[i], now[j]) {
      assert now[i] == rest[i] && rest[i] in rest;
      if j < |rest| {
        assert rest[j] in rest && Before(entries, rest[i], rest[j]);
      }
    }
    forall i | 0 <= i < |now| ensures now[i] in after {
      if i < |rest| {
        assert rest[i] in rest;
        var j :| 0 <= j < |order| && order[j] == rest[i];
      }
    }
    forall k | k in after ensures k in now {
      if k != key {
        assert k in rest;
      } else {
        assert now[|rest|] == key;
      }
    }
  }

  lemma UseKeepsQueue(entries: Entries, lru: seq<Record>, clock: nat, key: Key, e: Entry)
    requires QueueOk(lru, clock) && e.lastAccess == clock + 1
    ensures QueueOk(lru + [Record(key, clock + 1)], clock + 1)
    ensures Covered(entries, lru) ==> Covered(entries[key := e], lru + [Record(key, clock + 1)])
  {}

  /** Popping a stale record changes nothing that matters. */
  lemma StalePop(entries: Entries, lru: seq<Record>, clock: nat)
    requires lru != [] && QueueOk(lru, clock) && !Live(entries, lru[0])
    ensures QueueOk(lru[1..], clock)
    ensures Unrecorded(entries, lru[1..]) == Unrecorded(entries, lru)
    ensures Covered(entries, lru) ==> Covered(entries, lru[1..])
  {
    assert lru == [lru[0]] + lru[1..];
  }

  /** Popping a live record evicts an entry no recorded entry is older than. */
  lemma LivePop(entries: Entries, lru: seq<Record>, clock: nat)
    requires lru != [] && QueueOk(lru, clock) && Live(entries, lru[0])
    ensures var left := entries - {lru[0].key};
            && QueueOk(lru[1..], clock)
            && Unrecorded(left, lru[1..]) == Unrecorded(entries, lru)
            && (Covered(entries, lru) ==> Covered(left, lru[1..]))
    ensures Covered(entries, lru) ==>
      forall k :: k in entries ==> entries[lru[0].key].lastAccess <= entries[k].lastAccess
  {
    assert lru == [lru[0]] + lru[1..];
    forall k | k in entries && Record(k, entries[k].lastAccess) in lru
      ensures entries[lru[0].key].lastAccess <= entries[k].lastAccess
    {
      var i :| 0 <= i < |lru| && lru[i] == Record(k, entries[k].lastAccess);
    }
  }

  /** The entry that goes is the head of the recency order. */
  lemma OldestIsFirst(entries: Entries, order: seq<Key>, clock: nat, key: Key)
    requires OrderOk(entries, order, clock) && key in entries
    requires forall k :: k in entries ==> entries[key].lastAccess <= entries[k].lastAccess
    ensures order != [] && order[0] == key && OrderOk(entries - {key}, order[1..], clock)
  {
    var i :| 0 <= i < |order| && order[i] == key;
    assert i > 0 ==> Before(entries, order[0], order[i]);
    var left, rest := entries - {key}, order[1..];
    forall k | k in left ensures k in rest {
      var j :| 0 <= j < |order| && order[j] == k;
      assert rest[j - 1] == k;
    }
    forall j | 0 <= j < |rest| ensures rest[j] in left {
      assert Before(entries, order[0], order[j + 1]);
    }
    forall a, b | 0 <= a < b < |rest| ensures Before(left, rest[a], rest[b]) {
      assert Before(entries, order[a + 1], order[b + 1]);
      assert rest[a] in left && rest[b] in left;
    }
  }

  // ----- rebuilding the queue from the entries -----

  predicate Ascending(records: seq<Record>) {
    forall i, j :: 0 <= i < j < |records| ==> records[i].access < records[j].access
  }

  /** Insert a record with a new access time into a sorted run. */
  function Placed(records: seq<Record>, r: Record): (out: seq<Record>)
    ensures |out| == |records| + 1 && (forall x :: x in out <==> x in records || x == r)
  {
    if records == [] || r.access < records[0].access then [r] + records
    else [records[0]] + Placed(records[1..], r)
  }

  lemma {:induction false} PlacedAscends(records: seq<Record>, r: Record)
    requires Ascending(records) && (forall x :: x in records ==> x.access != r.access)
    ensures Ascending(Placed(records, r))
    decreases |records|
  {
    if records != [] && r.access >= records[0].access {
      var rest := Placed(records[1..], r);
      assert records[0] in records;
      PlacedAscends(records[1..], r);
      forall j | 0 <= j < |rest| ensures records[0].access < rest[j].access {
        assert rest[j] in rest;
        if rest[j] != r {
          var i :| 0 <= i < |records[1..]| && records[1..][i] == rest[j];
          assert records[i + 1] == rest[j];
        }
      }
    }
  }

  ghost predicate Distinct(entries: Entries) {
    forall a, b :: a in entries && b in entries && a != b ==> entries[a].lastAccess != entries[b].lastAccess
  }

  /** All entries as records in access order: collect, then sort. */
  method SortedRecords(entries: Entries) returns (records: seq<Record>)
    requires Distinct(entries)
    ensures Ascending(records) && |records| == |entries|
    ensures forall r :: r in records <==> Live(entries, r)
  {
    records := [];
    assert Ascending(records);
    hide Ascending, Placed;
    var rest := entries.Keys;
    ghost var done := {};
    while rest != {}
      invariant done + rest == entries.Keys && done !! rest
      invariant Ascending(records) && |records| == |done|
      invariant forall r :: r in records <==> r.key in done && Live(entries, r)
      decreases rest
    {
      var k :| k in rest;
      var r := Record(k, entries[k].lastAccess);
      PlacedAscends(records, r);
      records := Placed(records, r);
      rest := rest - {k};
      done := done + {k};
    }
    assert done == entries.Keys;
  }

  lemma OrderedIsDistinct(entries: Entries, order: seq<Key>, clock: nat)
    requires OrderOk(entries, order, clock)
    ensures Distinct(entries)
  {
    forall a, b | a in entries && b in entries && a != b ensures entries[a].lastAccess != entries[b].lastAccess {
      var i :| 0 <= i < |order| && order[i] == a;
      var j :| 0 <= j < |order| && order[j] == b;
      assert if i < j then Before(entries, order[i], order[j]) else Before(entries, order[j], order[i]);
    }
  }

  // ----- the cache -----

  function QueueLimit(entries: nat): nat {
    entries * 4 + 1024
  }

  class ExpertMatrixCache {
    const capacity: nat
    var resident: nat
    var clock: nat
    var stats: Stats
    var entries: Entries
    var lru: seq<Record>
    var fullyResident: bool
    /** The entries, least recently used first. */
    ghost var order: seq<Key>

    /** What holds even right after a fusion, which records no use. */
    ghost predicate Loose()
      reads this
    {
      && OrderOk(entries, order, clock) && QueueOk(lru, clock)
      && resident == Total(entries)
      && stats.requests == stats.hits + stats.misses
    }

    /** The refinement of a true LRU map. */
    ghost predicate Valid()
      reads this
    {
      && Loose() && resident <= capacity
      && (!fullyResident ==> Covered(entries, lru) && |lru| <= QueueLimit(|entries|))
    }

    constructor (bytes: nat)
      ensures Valid() && capacity == bytes && entries == map[] && order == [] && !fullyResident && resident == 0
      ensures stats == Stats(0, 0, 0, 0, 0)
    {
      capacity, resident, clock, stats, entries, lru, fullyResident := bytes, 0, 0, Stats(0, 0, 0, 0, 0), map[], [], false;
      order := [];
    }

    method RebuildQueue()
      requires OrderOk(entries, order, clock)
      modifies this`lru
      ensures QueueOk(lru, clock) && Covered(entries, lru) && |lru| == |entries|
    {
      OrderedIsDistinct(entries, order, clock);
      lru := SortedRecords(entries);
    }

    /** Sweep the stale records out once there are too many. */
    method CompactIfNeeded()
      requires OrderOk(entries, order, clock) && QueueOk(lru, clock)
      modifies this`lru
      ensures QueueOk(lru, clock) && |lru| <= QueueLimit(|entries|)
      ensures if |old(lru)| <= 4 * |entries| + 1024 then lru == old(lru) else |lru| == |entries|
      ensures old(Covered(entries, lru)) ==> Covered(entries, lru)
    {
      if |lru| > QueueLimit(|entries|) { RebuildQueue(); }
    }

    /** Look `key` up: a hit is a use of it, except while fully resident. */
    method Get(key: Key) returns (r: Option<Matrix>)
      requires Loose()
      modifies this`clock, this`stats, this`entries, this`lru, this`order
      ensures Loose() && (old(Valid()) ==> Valid())
      ensures r == if capacity > 0 && key in old(entries) then Some(old(entries)[key].matrix) else None
      ensures stats == old(stats).(requests := old(stats).requests + 1,
                                   hits := old(stats).hits + if r.Some? then 1 else 0,
                                   misses := old(stats).misses + if r.None? then 1 else 0)
      ensures order == if r.Some? && !fullyResident then Used(old(order), key) else old(order)
      ensures entries.Keys == old(entries).Keys && (r.None? || fullyResident ==> entries == old(entries))
      ensures forall k :: k in entries ==> entries[k].matrix == old(entries)[k].matrix
    {
      hide OrderOk, QueueOk, Covered, Used, Total;
      stats := stats.(requests := stats.requests + 1);
      if capacity == 0 {
        stats := stats.(misses := stats.misses + 1);
        return None;
      }
      if fullyResident {
        if key in entries {
          stats := stats.(hits := stats.hits + 1);
          return Some(entries[key].matrix);
        }
        stats := stats.(misses := stats.misses + 1);
        return None;
      }
      if key !in entries {
        stats := stats.(misses := stats.misses + 1);
        TimePasses(entries, order, lru, clock);
        clock := clock + 1;
        return None;
      }
      stats := stats.(hits := stats.hits + 1);
      r := Some(entries[key].matrix);
      Touch(key);
    }

    /** Give `key` the newest access time and record the use. */
    method Touch(key: Key)
      requires Loose() && key in entries
      modifies this`clock, this`entries, this`lru, this`order
      ensures Loose() && |lru| <= QueueLimit(|entries|) && order == Used(old(order), key)
      ensures old(Covered(entries, lru)) ==> Covered(entries, lru)
      ensures entries == old(entries)[key := old(entries)[key].(lastAccess := clock)] && Total(entries) == old(Total(entries))
    {
      hide OrderOk, QueueOk, Covered, Used, Total;
      clock := clock + 1;
      var entry := entries[key].(lastAccess := clock);
      SizesMatch(entries, order, clock - 1, key);
      UseKeepsOrder(entries, order, clock - 1, key, entry);
      UseKeepsQueue(entries, lru, clock - 1, key, entry);
      TotalInsert(entries, key, entry);
      entries := entries[key := entry];
      order := Used(order, key);
      lru := lru + [Record(key, clock)];
      CompactIfNeeded();
    }

    /** Evict from the front of the queue until `need` more bytes fit, or the
        queue is spent. */
    method MakeRoom(need: nat)
      requires Loose()
      modifies this`resident, this`stats, this`entries, this`lru, this`order
      ensures Loose() && Unrecorded(entries, lru) == old(Unrecorded(entries, lru))
      ensures resident + need <= capacity || entries == Unrecorded(entries, lru)
      ensures forall k :: k in entries ==> k in old(entries) && entries[k] == old(entries)[k]
      ensures stats == old(stats).(evictions := stats.evictions)
      ensures old(resident) + need <= capacity ==> entries == old(entries) && resident == old(resident) && stats == old(stats)
      ensures old(Covered(entries, lru)) && need <= capacity ==>
        var n := EvictCount(old(order), old(entries), need, capacity);
        && order == old(order)[n..] && entries == old(entries) - KeysOf(old(order)[..n])
        && entries.Keys == old(entries).Keys - KeysOf(old(order)[..n])
        && stats.evictions == old(stats).evictions + n && Covered(entries, lru) && resident + need <= capacity
    {
      hide OrderOk, QueueOk, Total, Used, Ordered, EvictCount, Covered;
      ghost var n := 0;
      ghost var covered := Covered(entries, lru);
      assert order[0..] == order && entries - KeysOf(order[..0]) == entries;
      while resident + need > capacity
        invariant Loose() && Unrecorded(entries, lru) == old(Unrecorded(entries, lru))
        invariant forall k :: k in entries ==> k in old(entries) && entries[k] == old(entries)[k]
        invariant stats == old(stats).(evictions := stats.evictions)
        invariant old(resident) + need <= capacity ==>
          entries == old(entries) && resident == old(resident) && stats == old(stats)
        invariant covered ==> Covered(entries, lru) && n <= |old(order)| && order == old(order)[n..]
        invariant covered ==> entries == old(entries) - KeysOf(old(order)[..n]) && stats.evictions == old(stats).evictions + n
        invariant covered ==>
          n + EvictCount(order, entries, need, capacity) == EvictCount(old(order), old(entries), need, capacity)
        decreases |lru|
      {
        if lru == [] { break; }
        var oldest := lru[0];
        if Live(entries, oldest) {
          LivePop(entries, lru, clock);
          RemoveKeepsOrder(entries, order, clock, oldest.key);
          TotalRemove(entries, oldest.key);
          if covered {
            OldestIsFirst(entries, order, clock, oldest.key);
            EvictOldest(old(order), old(entries), entries, order, clock, n, need, capacity);
          }
          resident := resident - entries[oldest.key].bytes;
          entries := entries - {oldest.key};
          stats := stats.(evictions := stats.evictions + 1);
          order := Without(order, oldest.key);
          n := n + 1;
        } else {
          StalePop(entries, lru, clock);
        }
        lru := lru[1..];
      }
      RoomIsEnough(entries, order, lru, clock, need, capacity);
    }

    /** The entries an insertion cannot evict: those without a live record.
        Leaving full residency rebuilds the queue, so then there are none. */
    ghost function Stuck(): Entries
      reads this
    {
      if fullyResident then map[] else Unrecorded(entries, lru)
    }

    /** Insert a matrix just read, evicting least recently used entries first.
        From any state, the capacity is respected exactly when the entries
        without a record, apart from `key` itself, leave room for the matrix. */
    method RecordReadAndInsert(key: Key, matrix: Matrix)
      requires Loose()
      modifies this
      ensures Loose() && !fullyResident && (old(Valid()) ==> Valid())
      ensures stats == old(stats).(evictions := stats.evictions, bytesLoaded := old(stats).bytesLoaded + |matrix.data|)
      ensures capacity == 0 || |matrix.data| > capacity ==>
        entries == old(entries) && order == old(order) && stats.evictions == old(stats).evictions
      ensures 0 < capacity && |matrix.data| <= capacity ==>
        && key in entries && entries[key].matrix == matrix
        && (forall k :: k in entries && k != key ==> k in old(entries) && entries[k] == old(entries)[k])
        && (resident <= capacity <==> Total(old(Stuck()) - {key}) + |matrix.data| <= capacity)
      ensures 0 < capacity && old(resident) + |matrix.data| <= capacity ==>
        && entries.Keys == old(entries).Keys + {key} && stats.evictions == old(stats).evictions
        && (key !in old(entries) ==> resident == old(resident) + |matrix.data|)
      ensures 0 < capacity && |matrix.data| <= capacity && old(fullyResident || Covered(entries, lru)) ==>
        var n := EvictCount(old(order), old(entries), |matrix.data|, capacity);
        && order == Used(old(order)[n..], key)
        && entries.Keys == old(entries).Keys - KeysOf(old(order)[..n]) + {key}
        && stats.evictions == old(stats).evictions + n
    {
      hide OrderOk, QueueOk, Covered, Used, Total, Unrecorded, EvictCount, KeysOf;
      LeaveFullResidency();
      var bytes := |matrix.data|;
      stats := stats.(bytesLoaded := stats.bytesLoaded + bytes);
      if capacity == 0 || bytes > capacity { return; }
      EvictAndStore(key, matrix);
    }

    method EvictAndStore(key: Key, matrix: Matrix)
      requires Loose() && |matrix.data| <= capacity
      modifies this`resident, this`clock, this`stats, this`entries, this`lru, this`order
      ensures Loose() && |lru| <= QueueLimit(|entries|)
      ensures stats == old(stats).(evictions := stats.evictions)
      ensures key in entries && entries[key].matrix == matrix
      ensures forall k :: k in entries && k != key ==> k in old(entries) && entries[k] == old(entries)[k]
      ensures resident <= capacity <==> Total(old(Unrecorded(entries, lru)) - {key}) + |matrix.data| <= capacity
      ensures old(resident) + |matrix.data| <= capacity ==>
        && entries.Keys == old(entries).Keys + {key} && stats.evictions == old(stats).evictions
        && (key !in old(entries) ==> resident == old(resident) + |matrix.data|)
      ensures old(Covered(entries, lru)) ==>
        var n := EvictCount(old(order), old(entries), |matrix.data|, capacity);
        && order == Used(old(order)[n..], key)
        && entries.Keys == old(entries).Keys - KeysOf(old(order)[..n]) + {key}
        && stats.evictions == old(stats).evictions + n && Covered(entries, lru) && resident <= capacity
    {
      hide OrderOk, QueueOk, Covered, Used, Total, Unrecorded, EvictCount, KeysOf;
      var bytes := |matrix.data|;
      ghost var stuck := Unrecorded(entries, lru);
      if Covered(entries, lru) {
        CoveredIsRecorded(entries, lru);
        assert stuck - {key} == map[];
      }
      MakeRoom(bytes);
      UnrecordedPart(entries, lru);
      InsertFits(entries, stuck, key, bytes, capacity);
      AbsentTotal(entries, key);
      Store(key, matrix);
    }

    /** Restore recency tracking after a fully resident period. */
    method LeaveFullResidency()
      requires Loose()
      modifies this`fullyResident, this`lru
      ensures Loose() && !fullyResident && (old(Valid()) ==> Valid())
      ensures Unrecorded(entries, lru) == old(Stuck())
      ensures old(fullyResident || Covered(entries, lru)) ==> Covered(entries, lru)
      ensures old(fullyResident || Covered(entries, lru)) ==> old(Stuck()) == map[] && Total(map[]) == 0
    {
      hide OrderOk, QueueOk, Covered, Used, Total, Unrecorded;
      if fullyResident {
        fullyResident := false;
        RebuildQueue();
        CoveredIsRecorded(entries, lru);
      } else if Covered(entries, lru) {
        CoveredIsRecorded(entries, lru);
      }
    }

    /** Put the matrix in as the most recently used entry. */
    method Store(key: Key, matrix: Matrix)
      requires Loose()
      modifies this`resident, this`clock, this`entries, this`lru, this`order
      ensures Loose() && |lru| <= QueueLimit(|entries|) && order == Used(old(order), key)
      ensures entries == old(entries)[key := Entry(matrix, |matrix.data|, clock)]
      ensures entries.Keys == old(entries).Keys + {key} && entries[key].matrix == matrix
      ensures forall k :: k in entries && k != key ==> k in old(entries) && entries[k] == old(entries)[k]
      ensures resident == Total(old(entries) - {key}) + |matrix.data|
      ensures old(Covered(entries, lru)) ==> Covered(entries, lru)
    {
      hide OrderOk, QueueOk, Covered, Used, Total;
      clock := clock + 1;
      var entry := Entry(matrix, |matrix.data|, clock);
      UseKeepsOrder(entries, order, clock - 1, key, entry);
      UseKeepsQueue(entries, lru, clock - 1, key, entry);
      TotalInsert(entries, key, entry);
      var previous := if key in entries then entries[key].bytes else 0;
      entries := entries[key := entry];
      resident := resident - previous + entry.bytes;
      order := Used(order, key);
      lru := lru + [Record(key, clock)];
      CompactIfNeeded();
    }

    // ----- fusion and full residency -----

    /** Replace each expert's two matrices by one holding both. Fusion pushes no
        queue record. `None` is the error of a disabled cache or of a member
        that is not resident; what was fused before it stays fused. */
    method FusePair(first: nat, second: nat, count: nat) returns (fusedBytes: Option<nat>)
      requires Loose() && first != second
      modifies this`resident, this`clock, this`entries, this`order
      ensures Loose() && resident == old(resident)
      ensures fusedBytes.Some? <==> capacity > 0 && forall e :: 0 <= e < count ==> Fusible(old(entries), first, second, e)
      ensures fusedBytes.Some? ==> FusedUpTo(old(entries), entries, lru, first, second, count)
      ensures fusedBytes.Some? ==>
        PairsIn(entries, first, second, count) && fusedBytes.value == PairBytes(entries, first, second, count)
      ensures exists n :: 0 <= n <= count && FusedUpTo(old(entries), entries, lru, first, second, n)
    {
      hide OrderOk, QueueOk, Used, Total, FusedAt, Fusible, NoRecord, Touched;
      NothingFused(entries, lru, first, second);
      if capacity == 0 { return None; }
      var bytes: nat := 0;
      for e := 0 to count
        invariant Loose() && resident == old(resident)
        invariant FusedUpTo(old(entries), entries, lru, first, second, e)
        invariant PairsIn(entries, first, second, e) && bytes == PairBytes(entries, first, second, e)
        invariant forall x :: 0 <= x < e ==> Fusible(old(entries), first, second, x)
      {
        ghost var before := entries;
        var pair := Both(first, second, e);
        NotTouchedYet(old(entries), entries, lru, first, second, e);
        if pair in entries {
          SizesMatch(entries, order, clock, pair);
          bytes := bytes + entries[pair].bytes;
        } else {
          if One(first, e) !in entries || One(second, e) !in entries { return None; }
          FuseOne(first, second, e);
          PairsKept(before, entries, first, second, e);
          SizesMatch(entries, order, clock, pair);
          bytes := bytes + entries[pair].bytes;
        }
        OneMoreFused(old(entries), before, entries, lru, first, second, e);
      }
      fusedBytes := Some(bytes);
    }

    method FuseOne(first: nat, second: nat, e: nat)
      requires Loose() && first != second
      requires One(first, e) in entries && One(second, e) in entries && Both(first, second, e) !in entries
      modifies this`resident, this`clock, this`entries, this`order
      ensures Loose() && resident == old(resident)
      ensures entries == (old(entries) - {One(first, e)} - {One(second, e)})
        [Both(first, second, e) := Entry(Concatenated(old(entries)[One(first, e)].matrix, old(entries)[One(second, e)].matrix),
                                         old(entries)[One(first, e)].bytes + old(entries)[One(second, e)].bytes, clock)]
      ensures NoRecord(entries, lru, Both(first, second, e))
    {
      hide OrderOk, QueueOk, Used, Total;
      var a, b, pair := One(first, e), One(second, e), Both(first, second, e);
      var left, right := entries[a], entries[b];
      var combined := Concatenated(left.matrix, right.matrix);
      SizesMatch(entries, order, clock, a);
      SizesMatch(entries, order, clock, b);
      RemoveKeepsOrder(entries, order, clock, a);
      TotalRemove(entries, a);
      ghost var half := Without(order, a);
      RemoveKeepsOrder(entries - {a}, half, clock, b);
      TotalRemove(entries - {a}, b);
      entries := entries - {a} - {b};
      resident := resident - left.bytes - right.bytes;
      TimePasses(entries, Without(half, b), lru, clock);
      assert Record(pair, clock + 1) !in lru by { NoFutureRecord(lru, clock, pair); }
      var entry := Entry(combined, |combined.data|, clock + 1);
      UseKeepsOrder(entries, Without(half, b), clock, pair, entry);
      TotalInsert(entries, pair, entry);
      assert entries - {pair} == entries;
      clock := clock + 1;
      entries := entries[pair := entry];
      order := Used(Without(half, b), pair);
      resident := resident + entry.bytes;
    }

    /** Mark a completed warm-up: hits stop maintaining the queue. `false` is
        the error of an empty or disabled cache. */
    method MarkFullyResident() returns (ok: bool)
      requires Loose() && resident <= capacity
      modifies this`fullyResident, this`lru
      ensures ok <==> capacity > 0 && entries != map[]
      ensures ok ==> Valid() && fullyResident
      ensures !ok ==> fullyResident == old(fullyResident) && lru == old(lru)
    {
      if capacity == 0 || entries == map[] { return false; }
      fullyResident, lru := true, [];
      ok := true;
    }

    // ----- serving the model -----

    /** Every cached matrix is the file's own. */
    ghost predicate Coherent(file: Key -> Matrix)
      reads this`entries
    {
      forall k :: k in entries ==> entries[k].matrix == file(k)
    }

    lemma ValidMeans()
      requires Valid()
      ensures Loose() && (fullyResident || Covered(entries, lru))
    {}

    /** Serve a matrix: from the cache, or read and then cached. */
    method Load(key: Key, file: Key -> Matrix) returns (m: Matrix)
      requires Valid() && Coherent(file)
      modifies this
      ensures Valid() && Coherent(file) && m == file(key)
      ensures stats.requests == old(stats).requests + 1
      ensures old(capacity > 0 && key in entries) ==>
        && entries.Keys == old(entries).Keys && fullyResident == old(fullyResident) && stats.evictions == old(stats).evictions
        && order == (if fullyResident then old(order) else Used(old(order), key))
        && (fullyResident ==> entries == old(entries))
      ensures stats.hits == old(stats).hits + if old(capacity > 0 && key in entries) then 1 else 0
      ensures old(key !in entries) ==> !fullyResident && (capacity == 0 ==> entries == old(entries))
      ensures old(key !in entries) && 0 < capacity && old(resident) + |file(key).data| <= capacity ==>
        && entries.Keys == old(entries).Keys + {key} && stats.evictions == old(stats).evictions
        && resident == old(resident) + |file(key).data|
      ensures old(key !in entries) && 0 < capacity && |file(key).data| <= capacity ==>
        var n := EvictCount(old(order), old(entries), |file(key).data|, capacity);
        && order == Used(old(order)[n..], key) && stats.evictions == old(stats).evictions + n
        && entries.Keys == old(entries).Keys - KeysOf(old(order)[..n]) + {key}
    {
      hide OrderOk, QueueOk, Covered, Used, Total, EvictCount, KeysOf, Valid, Loose, Stuck;
      ValidMeans();
      var cached := Get(key);
      if cached.Some? { return cached.value; }
      ValidMeans();
      RecordReadAndInsert(key, file(key));
      m := file(key);
    }
  }

  function One(start: nat, expert: nat): Key { Key(start, None, expert) }

  function Both(first: nat, second: nat, expert: nat): Key { Key(first, Some(second), expert) }

  function Concatenated(a: Matrix, b: Matrix): Matrix { Matrix(a.data + b.data) }

  lemma NoFutureRecord(lru: seq<Record>, clock: nat, key: Key)
    requires QueueOk(lru, clock)
    ensures Record(key, clock + 1) !in lru
  {}

  /** The entry of `key` has no live record, so eviction cannot find it. */
  ghost predicate NoRecord(entries: Entries, lru: seq<Record>, key: Key) {
    key in entries && Record(key, entries[key].lastAccess) !in lru
  }

  predicate Touched(k: Key, first: nat, second: nat, count: nat) {
    k.expert < count && (k == One(first, k.expert) || k == One(second, k.expert) || k == Both(first, second, k.expert))
  }

  ghost predicate Fusible(entries: Entries, first: nat, second: nat, e: nat) {
    Both(first, second, e) in entries || (One(first, e) in entries && One(second, e) in entries)
  }

  /** Expert `e` is served by one entry holding the bytes of both members. */
  ghost predicate FusedAt(was: Entries, now: Entries, first: nat, second: nat, e: nat) {
    var a, b, pair := One(first, e), One(second, e), Both(first, second, e);
    && pair in now
    && if pair in was then Same(was, now, pair) && Same(was, now, a) && Same(was, now, b)
       else
         && a in was && b in was && a !in now && b !in now
         && now[pair].matrix.data == was[a].matrix.data + was[b].matrix.data
  }

  predicate PairsIn(entries: Entries, first: nat, second: nat, count: nat) {
    forall e :: 0 <= e < count ==> Both(first, second, e) in entries
  }

  /** The bytes of the first `count` fused matrices. */
  function PairBytes(entries: Entries, first: nat, second: nat, count: nat): nat
    requires PairsIn(entries, first, second, count)
  {
    if count == 0 then 0
    else PairBytes(entries, first, second, count - 1) + |entries[Both(first, second, count - 1)].matrix.data|
  }

  lemma {:induction false} PairsKept(was: Entries, now: Entries, first: nat, second: nat, count: nat)
    requires PairsIn(was, first, second, count)
    requires forall e :: 0 <= e < count ==> Both(first, second, e) in now && now[Both(first, second, e)] == was[Both(first, second, e)]
    ensures PairsIn(now, first, second, count) && PairBytes(now, first, second, count) == PairBytes(was, first, second, count)
    decreases count
  {
    if count > 0 { PairsKept(was, now, first, second, count - 1); }
  }

  ghost predicate Same(was: Entries, now: Entries, k: Key) {
    (k in now <==> k in was) && (k in now ==> now[k] == was[k])
  }

  /** The first `count` experts are fused, and nothing else has changed. */
  ghost predicate FusedUpTo(was: Entries, now: Entries, lru: seq<Record>, first: nat, second: nat, count: nat) {
    && (forall e :: 0 <= e < count ==> FusedAt(was, now, first, second, e))
    && (forall e :: 0 <= e < count && Both(first, second, e) !in was ==> NoRecord(now, lru, Both(first, second, e)))
    && (forall k :: !Touched(k, first, second, count) ==> Same(was, now, k))
  }

  lemma NothingFused(was: Entries, lru: seq<Record>, first: nat, second: nat)
    ensures FusedUpTo(was, was, lru, first, second, 0)
  {}

  lemma NotTouchedYet(was: Entries, now: Entries, lru: seq<Record>, first: nat, second: nat, e: nat)
    requires FusedUpTo(was, now, lru, first, second, e)
    ensures Same(was, now, One(first, e)) && Same(was, now, One(second, e)) && Same(was, now, Both(first, second, e))
    ensures Fusible(was, first, second, e) <==> Fusible(now, first, second, e)
    ensures Fusible(now, first, second, e) <==>
      Both(first, second, e) in now || (One(first, e) in now && One(second, e) in now)
  {
    assert forall k: Key :: k.expert == e ==> !Touched(k, first, second, e);
  }

  /** One expert fused, or already fused: the others are as they were. */
  lemma OneMoreFused(was: Entries, before: Entries, now: Entries, lru: seq<Record>, first: nat, second: nat, e: nat)
    requires FusedUpTo(was, before, lru, first, second, e)
    requires
      var a, b, pair := One(first, e), One(second, e), Both(first, second, e);
      if pair in before then now == before
      else
        && a in before && b in before && NoRecord(now, lru, pair)
        && now == (before - {a} - {b})[pair := now[pair]] && now[pair].matrix == Concatenated(before[a].matrix, before[b].matrix)
    ensures FusedUpTo(was, now, lru, first, second, e + 1)
  {
    NotTouchedYet(was, before, lru, first, second, e);
    forall x | 0 <= x < e + 1
      ensures FusedAt(was, now, first, second, x)
      ensures Both(first, second, x) !in was ==> NoRecord(now, lru, Both(first, second, x))
    {
      if x < e {
        assert FusedAt(was, before, first, second, x);
        assert Both(first, second, x) !in was ==> NoRecord(before, lru, Both(first, second, x));
      }
    }
    forall k | !Touched(k, first, second, e + 1) ensures Same(was, now, k) {
      assert !Touched(k, first, second, e);
    }
  }

  lemma UnrecordedPart(entries: Entries, lru: seq<Record>)
    ensures forall k :: k in Unrecorded(entries, lru) ==> k in entries && entries[k] == Unrecorded(entries, lru)[k]
  {}

  lemma AbsentTotal(entries: Entries, key: Key)
    ensures key !in entries ==> Total(entries - {key}) == Total(entries)
  {
    if key !in entries { assert entries - {key} == entries; }
  }

  lemma InsertFits(before: Entries, stuck: Entries, key: Key, bytes: nat, capacity: nat)
    requires forall k :: k in stuck ==> k in before && before[k] == stuck[k]
    requires Total(before) + bytes <= capacity || before == stuck
    ensures Total(before - {key}) + bytes <= capacity <==> Total(stuck - {key}) + bytes <= capacity
  {
    TotalMonotone(stuck - {key}, before - {key});
    TotalMonotone(before - {key}, before);
  }

  lemma CoveredIsRecorded(entries: Entries, lru: seq<Record>)
    requires Covered(entries, lru)
    ensures Unrecorded(entries, lru) == map[] && Total(map[]) == 0
  {}

  /** One more eviction from the head of the order. */
  lemma EvictOldest(order0: seq<Key>, entries0: Entries, entries: Entries, order: seq<Key>, clock: nat, n: nat,
                    need: nat, capacity: nat)
    requires OrderOk(entries, order, clock) && order != [] && Total(entries) + need > capacity
    requires n < |order0| && order == order0[n..] && entries == entries0 - KeysOf(order0[..n])
    ensures Without(order, order[0]) == order0[n + 1..]
    ensures entries - {order[0]} == entries0 - KeysOf(order0[..n + 1])
    ensures EvictCount(order, entries, need, capacity)
         == 1 + EvictCount(Without(order, order[0]), entries - {order[0]}, need, capacity)
  {
    hide OrderOk, Total, Without;
    HeadGone(entries, order, clock);
    var head := order[0];
    assert order0[..n + 1] == order0[..n] + [head];
    assert order[1..] == order0[n + 1..];
    assert KeysOf(order0[..n + 1]) == KeysOf(order0[..n]) + {head};
  }

  lemma HeadGone(entries: Entries, order: seq<Key>, clock: nat)
    requires OrderOk(entries, order, clock) && order != []
    ensures Without(order, order[0]) == order[1..]
  {
    forall j | 0 <= j < |order[1..]| ensures order[1..][j] != order[0] {
      assert Before(entries, order[0], order[j + 1]);
    }
    WithoutAbsent(order[1..], order[0]);
  }

  lemma {:induction false} WithoutAbsent(order: seq<Key>, key: Key)
    requires key !in order
    ensures Without(order, key) == order
    decreases |order|
  {
    if order != [] { WithoutAbsent(order[1..], key); }
  }

  lemma RemoveKeepsOrder(entries: Entries, order: seq<Key>, clock: nat, key: Key)
    requires OrderOk(entries, order, clock)
    ensures OrderOk(entries - {key}, Without(order, key), clock)
  {
    WithoutIsOrdered(entries, order, key);
    var rest, left := Without(order, key), entries - {key};
    forall i | 0 <= i < |rest| ensures rest[i] in left {
      assert rest[i] in rest;
      var j :| 0 <= j < |order| && order[j] == rest[i];
    }
    forall i, j | 0 <= i < j < |rest| ensures Before(left, rest[i], rest[j]) {
      assert Before(entries, rest[i], rest[j]) && rest[i] in left && rest[j] in left;
    }
  }

  /** With every entry recorded, running out of records means nothing is left. */
  lemma RoomIsEnough(entries: Entries, order: seq<Key>, lru: seq<Record>, clock: nat, need: nat, capacity: nat)
    requires OrderOk(entries, order, clock) && (Total(entries) + need <= capacity || lru == [])
    ensures lru == [] ==> Unrecorded(entries, lru) == entries
    ensures Covered(entries, lru) && need <= capacity ==>
      Total(entries) + need <= capacity && EvictCount(order, entries, need, capacity) == 0
  {
    if Covered(entries, lru) && lru == [] {
      assert entries == map[];
    }
  }

  lemma SizesMatch(entries: Entries, order: seq<Key>, clock: nat, key: Key)
    requires OrderOk(entries, order, clock) && key in entries
    ensures entries[key].bytes == |entries[key].matrix.data|
  {}

  lemma TimePasses(entries: Entries, order: seq<Key>, lru: seq<Record>, clock: nat)
    requires OrderOk(entries, order, clock) && QueueOk(lru, clock)
    ensures OrderOk(entries, order, clock + 1) && QueueOk(lru, clock + 1)
  {}

  // ----- runs -----

  /** Every run of requests serves the file's own bytes and keeps the LRU map. */
  method ServeAll(cache: ExpertMatrixCache, keys: seq<Key>, file: Key -> Matrix) returns (served: seq<Matrix>)
    requires cache.Valid() && cache.Coherent(file)
    modifies cache
    ensures cache.Valid() && cache.Coherent(file) && |served| == |keys|
    ensures forall i :: 0 <= i < |keys| ==> served[i] == file(keys[i])
    ensures cache.stats.requests == old(cache.stats).requests + |keys|
  {
    hide OrderOk, QueueOk, Covered, Used, Total, EvictCount, KeysOf, ExpertMatrixCache.Valid, ExpertMatrixCache.Coherent;
    served := [];
    for i := 0 to |keys|
      invariant cache.Valid() && cache.Coherent(file) && |served| == i
      invariant forall j :: 0 <= j < i ==> served[j] == file(keys[j])
      invariant cache.stats.requests == old(cache.stats).requests + i
    {
      var m := cache.Load(keys[i], file);
      served := served + [m];
    }
  }

  /** A two-byte cache filled with two one-byte matrices. */
  method Filled(a: Byte, b: Byte) returns (cache: ExpertMatrixCache)
    ensures fresh(cache) && cache.Loose() && cache.capacity == 2 && !cache.fullyResident
    ensures One(0, 0) in cache.entries && One(1, 0) in cache.entries && Both(0, 1, 0) !in cache.entries
    ensures cache.entries[One(0, 0)].matrix == Matrix([a]) && cache.entries[One(1, 0)].matrix == Matrix([b])
  {
    hide OrderOk, QueueOk, Used, Total, EvictCount, KeysOf, Covered, Unrecorded;
    cache := new ExpertMatrixCache(2);
    NothingToEvict(cache.order, cache.entries, 1, 2);
    cache.RecordReadAndInsert(One(0, 0), Matrix([a]));
    SizesMatch(cache.entries, cache.order, cache.clock, One(0, 0));
    TotalOfKeys(cache.entries, One(0, 0), One(0, 0));
    NothingToEvict(cache.order, cache.entries, 1, 2);
    cache.RecordReadAndInsert(One(1, 0), Matrix([b]));
  }

  /** Fusing without marking the cache fully resident breaks the capacity: two
      one-byte matrices fill a two-byte cache, fusing them leaves an entry the
      queue does not know, and the next one-byte insertion cannot evict it. */
  method UnmarkedFusionOverflows(a: Byte, b: Byte, c: Byte) returns (cache: ExpertMatrixCache)
    ensures cache.Loose() && cache.capacity == 2 && cache.resident > cache.capacity
  {
    hide OrderOk, QueueOk, Used, Total, EvictCount, KeysOf, Covered, Unrecorded;
    cache := Filled(a, b);
    assert Fusible(cache.entries, 0, 1, 0);
    ghost var before := cache.entries;
    var fused := cache.FusePair(0, 1, 1);
    assert FusedAt(before, cache.entries, 0, 1, 0) && NoRecord(cache.entries, cache.lru, Both(0, 1, 0));
    SizesMatch(cache.entries, cache.order, cache.clock, Both(0, 1, 0));
    StuckBytes(cache.entries, cache.lru, Both(0, 1, 0), One(2, 0));
    cache.RecordReadAndInsert(One(2, 0), Matrix([c]));
  }

  lemma NothingToEvict(order: seq<Key>, entries: Entries, need: nat, capacity: nat)
    requires Total(entries) + need <= capacity
    ensures EvictCount(order, entries, need, capacity) == 0 && KeysOf(order[..0]) == {}
  {}

  lemma TotalOfKeys(m: Entries, a: Key, b: Key)
    requires m.Keys == {a, b}
    ensures a == b ==> Total(m) == m[a].bytes
  {
    TotalRemove(m, a);
    assert a == b ==> m - {a} == map[];
  }

  lemma StuckBytes(entries: Entries, lru: seq<Record>, key: Key, other: Key)
    requires NoRecord(entries, lru, key) && key != other
    ensures Total(Unrecorded(entries, lru) - {other}) >= entries[key].bytes
  {
    TotalRemove(Unrecorded(entries, lru) - {other}, key);
  }
}
