/** The n-gram (prompt-lookup) index: per key length, a hash map to the most
    recent end of each key, plus the cached earlier occurrence of the current
    suffix. Everything is proved for an arbitrary key hash. */
module Ngram {
  import opened Wrappers
  import opened TargetModel

  type Hash(==,!new)

  const MIN_MATCH_LEN: nat := 2
  const MAX_MATCH_LEN: nat := 4

  /** Indexed key lengths, longest first. */
  const LENGTHS: seq<nat> := [4, 3, 2]

  datatype NgramDraft = NgramDraft(tokens: seq<Token>, matchLen: nat, sourcePosition: nat, truncatedAtStop: bool)

  // ----- what a lookup means, by brute force over the tokens -----

  /** The `n`-token key that ends at position `end`. */
  function KeyAt(tokens: seq<Token>, n: nat, end: nat): (r: seq<Token>)
    requires n <= end + 1 <= |tokens|
    ensures |r| == n
  {
    tokens[end + 1 - n..end + 1]
  }

  /** An occurrence of the current `n`-token suffix that ends before the suffix does. */
  predicate OccursAt(tokens: seq<Token>, n: nat, end: nat) {
    n <= end + 1 < |tokens| && KeyAt(tokens, n, end) == KeyAt(tokens, n, |tokens| - 1)
  }

  /** The largest end below `bound` at which the current suffix occurs. */
  function MostRecentBelow(tokens: seq<Token>, n: nat, bound: nat): (r: Option<nat>)
    ensures r.Some? ==> r.value < bound && OccursAt(tokens, n, r.value)
    ensures forall e :: (if r.Some? then r.value else -1) < e < bound ==> !OccursAt(tokens, n, e)
  {
    if bound == 0 then None
    else if OccursAt(tokens, n, bound - 1) then Some(bound - 1)
    else MostRecentBelow(tokens, n, bound - 1)
  }

  function BruteForceMatch(tokens: seq<Token>, n: nat): Option<nat> {
    MostRecentBelow(tokens, n, |tokens|)
  }

  /** The tokens of `s` before its first stop token. */
  function BeforeStop(s: seq<Token>, isStop: Token -> bool): (r: seq<Token>)
    ensures r <= s && (forall t :: t in r ==> !isStop(t))
    ensures |r| < |s| ==> isStop(s[|r|])
  {
    if s == [] || isStop(s[0]) then [] else [s[0]] + BeforeStop(s[1..], isStop)
  }

  /** At most `len` tokens of `tokens` from `start` on. */
  function Window(tokens: seq<Token>, start: nat, len: nat): seq<Token>
    requires start <= |tokens|
  {
    tokens[start..if start + len <= |tokens| then start + len else |tokens|]
  }

  /** The longest key length at or above `floor` among those that hit. */
  function LongestHit(floor: nat, hit4: bool, hit3: bool, hit2: bool): (r: Option<nat>)
    ensures r.Some? ==> r.value >= floor && ((r.value == 4 && hit4) || (r.value == 3 && hit3) || (r.value == 2 && hit2))
    ensures r.None? || r.value < 4 ==> 4 < floor || !hit4
    ensures r.None? || r.value < 3 ==> 3 < floor || !hit3
    ensures r.None? ==> 2 < floor || !hit2
  {
    if 4 >= floor && hit4 then Some(4)
    else if 3 >= floor && hit3 then Some(3)
    else if 2 >= floor && hit2 then Some(2)
    else None
  }

  /** A proposal's tokens are the stretch of the sequence right after its source. */
  predicate Copies(tokens: seq<Token>, d: NgramDraft, isStop: Token -> bool) {
    && d.sourcePosition + 1 + |d.tokens| <= |tokens|
    && d.tokens == tokens[d.sourcePosition + 1..d.sourcePosition + 1 + |d.tokens|]
    && forall t :: t in d.tokens ==> !isStop(t)
  }

  /** A proposal is as long as it was asked to be, unless the sequence ends there
      or a stop token comes next; and it says which. */
  predicate Reaches(tokens: seq<Token>, d: NgramDraft, draftLen: nat, isStop: Token -> bool) {
    var end := d.sourcePosition + 1 + |d.tokens|;
    && end <= |tokens|
    && (|d.tokens| == draftLen || end == |tokens| || isStop(tokens[end]))
    && (d.truncatedAtStop <==> |d.tokens| < draftLen && end < |tokens|)
  }

  lemma WindowCopies(tokens: seq<Token>, source: nat, len: nat, isStop: Token -> bool, matchLen: nat)
    requires source + 1 <= |tokens|
    ensures var window := Window(tokens, source + 1, len);
      var kept := BeforeStop(window, isStop);
      var d := NgramDraft(kept, matchLen, source, |kept| < |window|);
      |kept| <= len && Copies(tokens, d, isStop) && Reaches(tokens, d, len, isStop)
  {
    hide BeforeStop;
    var window := Window(tokens, source + 1, len);
    var kept := BeforeStop(window, isStop);
    assert kept == window[..|kept|];
    assert |kept| < |window| ==> window[|kept|] == tokens[source + 1 + |kept|];
  }

  lemma WindowStart(tokens: seq<Token>, start: nat, len: nat, isStop: Token -> bool)
    requires start < |tokens| && len > 0
    ensures var window := Window(tokens, start, len);
      0 < |window| <= len && (BeforeStop(window, isStop) == [] <==> isStop(tokens[start]))
  {}

  /** The value in the range nearest to `x`. */
  function Clamp(x: nat, lo: nat, hi: nat): (r: nat)
    requires lo <= hi
    ensures lo <= r <= hi && (r < x ==> r == hi) && (r > x ==> r == lo)
  {
    if x < lo then lo else if x > hi then hi else x
  }

  // ----- what the index stores -----

  ghost predicate HashesTo(hash: seq<Token> -> Hash, tokens: seq<Token>, n: nat, e: nat, h: Hash) {
    n <= e + 1 <= |tokens| && hash(KeyAt(tokens, n, e)) == h
  }

  /** A slot's map sends every key hash in the sequence to its last end. */
  ghost predicate MapOk(hash: seq<Token> -> Hash, tokens: seq<Token>, n: nat, m: map<Hash, nat>) {
    && (forall h :: h in m ==> HashesTo(hash, tokens, n, m[h], h))
    && (forall e: nat, h :: HashesTo(hash, tokens, n, e, h) ==> h in m && e <= m[h])
  }

  /** `e` ends a key that hashes like the current suffix, before the suffix. */
  ghost predicate EarlierHash(hash: seq<Token> -> Hash, tokens: seq<Token>, n: nat, e: nat) {
    n <= e + 1 < |tokens| && hash(KeyAt(tokens, n, e)) == hash(KeyAt(tokens, n, |tokens| - 1))
  }

  /** A slot's cached entry is the last earlier end that hashes like the suffix. */
  ghost predicate LastOk(hash: seq<Token> -> Hash, tokens: seq<Token>, n: nat, last: Option<nat>) {
    && (|tokens| < n ==> last == None)
    && (last.Some? ==> EarlierHash(hash, tokens, n, last.value))
    && (forall e: nat :: EarlierHash(hash, tokens, n, e) ==> last.Some? && e <= last.value)
  }

  lemma PushShort(hash: seq<Token> -> Hash, tokens: seq<Token>, t: Token, n: nat, m: map<Hash, nat>)
    requires MapOk(hash, tokens, n, m) && |tokens| + 1 < n
    ensures MapOk(hash, tokens + [t], n, m) && LastOk(hash, tokens + [t], n, None)
  {
    assert forall h :: h in m ==> HashesTo(hash, tokens, n, m[h], h);
  }

  /** Inserting the new end displaces exactly the last earlier end with its hash. */
  lemma PushLong(hash: seq<Token> -> Hash, tokens: seq<Token>, t: Token, n: nat, m: map<Hash, nat>)
    requires MapOk(hash, tokens, n, m) && 0 < n <= |tokens| + 1
    ensures var now := tokens + [t];
            var key := hash(KeyAt(now, n, |tokens|));
            && MapOk(hash, now, n, m[key := |tokens|])
            && LastOk(hash, now, n, if key in m then Some(m[key]) else None)
  {
    var now := tokens + [t];
    var key := hash(KeyAt(now, n, |tokens|));
    forall e: nat, h | e < |tokens| ensures HashesTo(hash, now, n, e, h) == HashesTo(hash, tokens, n, e, h) {
      if n <= e + 1 { assert KeyAt(now, n, e) == KeyAt(tokens, n, e); }
    }
    forall e: nat ensures EarlierHash(hash, now, n, e) == HashesTo(hash, tokens, n, e, key) {}
  }

  /** Some later earlier-end collides with the suffix's hash without being it. */
  ghost predicate Shadowed(hash: seq<Token> -> Hash, tokens: seq<Token>, n: nat) {
    var b := BruteForceMatch(tokens, n);
    b.Some? && exists e: nat :: EarlierHash(hash, tokens, n, e) && b.value < e
  }

  /** The verified lookup: the cached entry, if its tokens really are the suffix. */
  function Verified(tokens: seq<Token>, n: nat, last: Option<nat>): Option<nat> {
    if last.None? || last.value + 1 < n || last.value >= |tokens| then None
    else if n <= |tokens| && KeyAt(tokens, n, last.value) == KeyAt(tokens, n, |tokens| - 1) then last
    else None
  }

  /** Whatever the hash, a lookup that hits is the brute-force answer; and the
      lookup is brute force exactly when no colliding key displaced the occurrence. */
  lemma LookupIsBruteForce(hash: seq<Token> -> Hash, tokens: seq<Token>, n: nat, last: Option<nat>)
    requires LastOk(hash, tokens, n, last)
    ensures Verified(tokens, n, last).Some? ==> BruteForceMatch(tokens, n) == Verified(tokens, n, last)
    ensures Verified(tokens, n, last) == BruteForceMatch(tokens, n) <==> !Shadowed(hash, tokens, n)
  {
    var b := BruteForceMatch(tokens, n);
    if b.Some? {
      assert EarlierHash(hash, tokens, n, b.value);
      assert last.Some? && b.value <= last.value;
      if last.value == b.value {
        assert !Shadowed(hash, tokens, n);
      } else {
        assert !OccursAt(tokens, n, last.value);
        assert Shadowed(hash, tokens, n);
      }
    } else if Verified(tokens, n, last).Some? {
      assert OccursAt(tokens, n, last.value);
    }
  }

  /** Without collisions nothing is ever shadowed. */
  lemma InjectiveHashNeverShadows(hash: seq<Token> -> Hash, tokens: seq<Token>, n: nat)
    requires forall a: seq<Token>, b: seq<Token> :: hash(a) == hash(b) ==> a == b
    ensures !Shadowed(hash, tokens, n)
  {
    if Shadowed(hash, tokens, n) {
      var e: nat :| EarlierHash(hash, tokens, n, e) && BruteForceMatch(tokens, n).value < e;
      assert OccursAt(tokens, n, e);
    }
  }

  /** With a constant hash the lookup misses a match that is there: the suffix
      `1, 2` occurs at the start, but the key `4, 1` has displaced it. */
  lemma ConstantHashShadows(h: Hash, last: Option<nat>)
    requires LastOk(_ => h, [1, 2, 3, 4, 1, 2], 2, last)
    ensures
      var tokens := [1, 2, 3, 4, 1, 2];
      && Shadowed(_ => h, tokens, 2) && BruteForceMatch(tokens, 2) == Some(1) && Verified(tokens, 2, last) == None
  {
    var tokens, hash := [1, 2, 3, 4, 1, 2], (_ => h);
    assert KeyAt(tokens, 2, 5) == [1, 2] && KeyAt(tokens, 2, 1) == [1, 2] && KeyAt(tokens, 2, 2) == [2, 3];
    assert KeyAt(tokens, 2, 3) == [3, 4] && KeyAt(tokens, 2, 4) == [4, 1];
    assert OccursAt(tokens, 2, 1) && !OccursAt(tokens, 2, 2) && !OccursAt(tokens, 2, 3) && !OccursAt(tokens, 2, 4);
    assert EarlierHash(hash, tokens, 2, 4);
    LookupIsBruteForce(hash, tokens, 2, last);
  }

  /** What a lookup finds: the last earlier end that hashes like the suffix, if
      the key there is the suffix. */
  ghost predicate Found(hash: seq<Token> -> Hash, tokens: seq<Token>, n: nat, e: nat) {
    n in LENGTHS && OccursAt(tokens, n, e) && forall later: nat :: EarlierHash(hash, tokens, n, later) ==> later <= e
  }

  lemma VerifiedIsFound(hash: seq<Token> -> Hash, tokens: seq<Token>, n: nat, last: Option<nat>)
    requires n in LENGTHS && LastOk(hash, tokens, n, last)
    ensures forall e: nat :: Verified(tokens, n, last) == Some(e) <==> Found(hash, tokens, n, e)
  {
    hide KeyAt;
    forall e: nat ensures Verified(tokens, n, last) == Some(e) <==> Found(hash, tokens, n, e) {
      if OccursAt(tokens, n, e) { assert EarlierHash(hash, tokens, n, e); }
    }
  }

  ghost predicate NoKey(hash: seq<Token> -> Hash, tokens: seq<Token>, floor: nat) {
    forall k: nat, e: nat :: k >= floor ==> !Found(hash, tokens, k, e)
  }

  /** Keys of length `n` match, and no longer ones do. */
  ghost predicate BestKey(hash: seq<Token> -> Hash, tokens: seq<Token>, n: nat, e: nat) {
    Found(hash, tokens, n, e) && NoKey(hash, tokens, n + 1)
  }

  /** No key of at least `floor` tokens matches, or the longest one that does is
      followed by a stop token. */
  ghost predicate StopsKeys(hash: seq<Token> -> Hash, tokens: seq<Token>, floor: nat, isStop: Token -> bool) {
    || NoKey(hash, tokens, floor)
    || exists n: nat, e: nat :: n >= floor && BestKey(hash, tokens, n, e) && e + 1 < |tokens| && isStop(tokens[e + 1])
  }

  /** A draft continues the best key, or there is none because no key of the
      least length matches or a stop token follows it. */
  ghost predicate FromKeys(hash: seq<Token> -> Hash, tokens: seq<Token>, minMatch: nat, isStop: Token -> bool, d: Option<NgramDraft>) {
    if d.None? then StopsKeys(hash, tokens, minMatch, isStop)
    else d.value.matchLen >= minMatch && BestKey(hash, tokens, d.value.matchLen, d.value.sourcePosition)
  }

  class NgramIndex {
    var tokens: seq<Token>
    var maps: seq<map<Hash, nat>>
    var lastMatch: seq<Option<nat>>
    const hasher: seq<Token> -> Hash

    ghost predicate Valid()
      reads this
    {
      && |maps| == |LENGTHS| && |lastMatch| == |LENGTHS|
      && (forall slot: nat :: slot < |LENGTHS| ==> MapOk(hasher, tokens, LENGTHS[slot], maps[slot]))
      && (forall slot: nat :: slot < |LENGTHS| ==> LastOk(hasher, tokens, LENGTHS[slot], lastMatch[slot]))
    }

    constructor (hash: seq<Token> -> Hash)
      ensures Valid() && tokens == [] && hasher == hash
    {
      tokens, maps, lastMatch, hasher := [], [map[], map[], map[]], [None, None, None], hash;
    }

    method Clear()
      modifies this
      ensures Valid() && tokens == []
    {
      tokens, maps, lastMatch := [], [map[], map[], map[]], [None, None, None];
    }

    method Extend(more: seq<Token>)
      requires Valid()
      modifies this
      ensures Valid() && tokens == old(tokens) + more
    {
      for i := 0 to |more|
        invariant Valid() && tokens == old(tokens) + more[..i]
      {
        Push(more[i]);
        assert more[..i] + [more[i]] == more[..i + 1];
      }
      assert more[..|more|] == more;
    }

    /** Append one committed token: one map insert per key length, keeping the
        entry each insert displaces. */
    method Push(token: Token)
      requires Valid()
      modifies this
      ensures Valid() && tokens == old(tokens) + [token]
    {
      hide MapOk, LastOk;
      ghost var before, mapsBefore := tokens, maps;
      tokens := tokens + [token];
      var end := |tokens| - 1;
      for slot := 0 to |LENGTHS|
        invariant tokens == before + [token] && end == |before|
        invariant |maps| == |LENGTHS| && |lastMatch| == |LENGTHS|
        invariant forall s: nat :: s < slot ==> MapOk(hasher, tokens, LENGTHS[s], maps[s])
        invariant forall s: nat :: s < slot ==> LastOk(hasher, tokens, LENGTHS[s], lastMatch[s])
        invariant forall s: nat :: slot <= s < |LENGTHS| ==> maps[s] == mapsBefore[s]
      {
        var n := LENGTHS[slot];
        if |tokens| < n {
          PushShort(hasher, before, token, n, maps[slot]);
          lastMatch := lastMatch[slot := None];
        } else {
          PushLong(hasher, before, token, n, maps[slot]);
          var key := hasher(KeyAt(tokens, n, end));
          lastMatch := lastMatch[slot := if key in maps[slot] then Some(maps[slot][key]) else None];
          maps := maps[slot := maps[slot][key := end]];
        }
      }
    }

    /** Most recent verified occurrence of the current `n`-token suffix. */
    function MostRecentMatch(n: nat): (r: Option<nat>)
      requires Valid()
      ensures r.Some? ==> n in LENGTHS && BruteForceMatch(tokens, n) == r
      ensures r.Some? ==> r.value + 1 < |tokens| && OccursAt(tokens, n, r.value)
      ensures n in LENGTHS ==> (r == BruteForceMatch(tokens, n) <==> !Shadowed(hasher, tokens, n))
      reads this
    {
      if n !in LENGTHS then None
      else
        var slot: nat := if n == 4 then 0 else if n == 3 then 1 else 2;
        assert LENGTHS[slot] == n;
        LookupIsBruteForce(hasher, tokens, n, lastMatch[slot]);
        Verified(tokens, n, lastMatch[slot])
    }

    /** The longest indexed key length at or above `floor` with a verified match. */
    function LongestMatch(floor: nat): Option<nat>
      requires Valid()
      reads this
    {
      LongestHit(floor, MostRecentMatch(4).Some?, MostRecentMatch(3).Some?, MostRecentMatch(2).Some?)
    }

    /** What is found depends on the hash and the tokens alone. */
    lemma MatchIsFound(n: nat)
      requires Valid()
      ensures forall e: nat :: MostRecentMatch(n) == Some(e) <==> Found(hasher, tokens, n, e)
    {
      hide BruteForceMatch, Shadowed, KeyAt, MapOk, LastOk, Verified, OccursAt;
      if n in LENGTHS {
        var slot: nat := if n == 4 then 0 else if n == 3 then 1 else 2;
        assert LastOk(hasher, tokens, LENGTHS[slot], lastMatch[slot]) && LENGTHS[slot] == n;
        VerifiedIsFound(hasher, tokens, n, lastMatch[slot]);
      }
    }

    lemma OnlyIndexed(k: nat, e: nat)
      requires Valid() && Found(hasher, tokens, k, e)
      ensures k == 4 || k == 3 || k == 2
    {}

    lemma LongestMatchIsBest(floor: nat)
      requires Valid()
      ensures var r := LongestMatch(floor);
        if r.Some? then r.value >= floor && MostRecentMatch(r.value).Some? && BestKey(hasher, tokens, r.value, MostRecentMatch(r.value).value)
        else NoKey(hasher, tokens, floor)
    {
      hide MapOk, LastOk, Shadowed, MostRecentMatch, BruteForceMatch, OccursAt, LongestHit, Found;
      forall k: nat, e: nat ensures MostRecentMatch(k) == Some(e) <==> Found(hasher, tokens, k, e) { MatchIsFound(k); }
      forall k: nat, e: nat | Found(hasher, tokens, k, e) ensures MostRecentMatch(k).Some? && (k == 4 || k == 3 || k == 2) {
        OnlyIndexed(k, e);
      }
    }

    /** Propose the continuation of the longest matching key: the tokens after
        its most recent earlier occurrence, cut at the length bound, at the end
        of the sequence and at the first stop token. */
    method Draft(draftLen: nat, minMatch: nat, isStop: Token -> bool) returns (r: Option<NgramDraft>)
      requires Valid()
      ensures var longest := LongestMatch(Clamp(minMatch, MIN_MATCH_LEN, MAX_MATCH_LEN));
              if draftLen == 0 || longest.None? then r.None?
              else
                var source := BruteForceMatch(tokens, longest.value);
                && source.Some?
                && var window := Window(tokens, source.value + 1, draftLen);
                   var kept := BeforeStop(window, isStop);
                   r == if kept == [] then None
                        else Some(NgramDraft(kept, longest.value, source.value, |kept| < |window|))
      ensures r.Some? ==> 0 < |r.value.tokens| <= draftLen && OccursAt(tokens, r.value.matchLen, r.value.sourcePosition)
      ensures r.Some? ==> Copies(tokens, r.value, isStop) && Reaches(tokens, r.value, draftLen, isStop)
      ensures MIN_MATCH_LEN <= minMatch <= MAX_MATCH_LEN && draftLen > 0 ==> FromKeys(hasher, tokens, minMatch, isStop, r)
    {
      hide MapOk, LastOk, Shadowed, MostRecentMatch, BruteForceMatch, BeforeStop, OccursAt, KeyAt, Copies, Window, Reaches,
           BestKey, NoKey;
      if draftLen == 0 { return None; }
      var floor := Clamp(minMatch, MIN_MATCH_LEN, MAX_MATCH_LEN);
      LongestMatchIsBest(floor);
      for i := 0 to |LENGTHS|
        invariant forall j :: 0 <= j < i && LENGTHS[j] >= floor ==> MostRecentMatch(LENGTHS[j]).None?
      {
        var n := LENGTHS[i];
        if n >= floor && MostRecentMatch(n).Some? {
          assert n == 4 || n == 3 || n == 2;
          assert LongestMatch(floor) == Some(n);
          var position := MostRecentMatch(n).value;
          var candidate := Window(tokens, position + 1, draftLen);
          var kept := BeforeStop(candidate, isStop);
          WindowStart(tokens, position + 1, draftLen, isStop);
          if kept == [] { return None; }
          WindowCopies(tokens, position, draftLen, isStop, n);
          return Some(NgramDraft(kept, n, position, |kept| < |candidate|));
        }
      }
      assert LENGTHS[0] == 4 && LENGTHS[1] == 3 && LENGTHS[2] == 2;
      return None;
    }

    /** Propose the continuation of a span already being copied. */
    method ContinueFrom(next: nat, draftLen: nat, matchLen: nat, isStop: Token -> bool) returns (r: Option<NgramDraft>)
      requires Valid()
      ensures r.None? <==> draftLen == 0 || next == 0 || next >= |tokens| || isStop(tokens[next])
      ensures r.Some? ==>
        && r.value.matchLen == matchLen && r.value.sourcePosition == next - 1
        && r.value.tokens == BeforeStop(Window(tokens, next, draftLen), isStop)
        && 0 < |r.value.tokens| <= draftLen
        && r.value.truncatedAtStop == (|r.value.tokens| < |Window(tokens, next, draftLen)|)
      ensures r.Some? ==> Copies(tokens, r.value, isStop) && Reaches(tokens, r.value, draftLen, isStop)
    {
      hide MapOk, LastOk, BeforeStop, Window, Copies, Reaches;
      if draftLen == 0 || next == 0 || next >= |tokens| { return None; }
      var candidate := Window(tokens, next, draftLen);
      var kept := BeforeStop(candidate, isStop);
      WindowStart(tokens, next, draftLen, isStop);
      WindowCopies(tokens, next - 1, draftLen, isStop, matchLen);
      if kept == [] { return None; }
      return Some(NgramDraft(kept, matchLen, next - 1, |kept| < |candidate|));
    }
  }
}
