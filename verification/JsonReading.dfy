/** Reading JSON is local: what is read depends on the characters consumed, and
    on what follows only where a number could go on. */
module JsonReading {
  import opened Wrappers
  import opened Json

  ghost predicate Suffix(rest: string, s: string) {
    |rest| <= |s| && s[|s| - |rest|..] == rest
  }

  /** The characters consumed. */
  function Cut(s: string, rest: string): string
    requires |rest| <= |s|
  {
    s[..|s| - |rest|]
  }

  /** Consuming up to `b`, then up to `a`. */
  lemma SuffixTrans(a: string, b: string, c: string, r2: string)
    requires Suffix(a, b) && Suffix(b, c)
    ensures Suffix(a, c) && Cut(c, a) + r2 == Cut(c, b) + (Cut(b, a) + r2) && c == Cut(c, a) + a
  {}

  lemma CutStep(s: string, rest: string, r2: string)
    requires s != "" && Suffix(rest, s[1..])
    ensures Suffix(rest, s) && Cut(s, rest) + r2 != ""
    ensures (Cut(s, rest) + r2)[0] == s[0] && (Cut(s, rest) + r2)[1..] == Cut(s[1..], rest) + r2
  {}

  lemma CutNone(s: string, r2: string)
    ensures Suffix(s, s) && Cut(s, s) + r2 == r2
  {}

  lemma {:induction false} SpaceSuffix(s: string)
    ensures Suffix(SkipSpace(s), s)
    decreases |s|
  {
    if s != "" && IsSpace(s[0]) { SpaceSuffix(s[1..]); }
  }

  /** Skipping the same blanks before another text. */
  lemma {:induction false} SpaceMoves(s: string, other: string)
    requires other == "" || !IsSpace(other[0])
    ensures SkipSpace(Cut(s, SkipSpace(s)) + other) == other
    decreases |s|
  {
    if s != "" && IsSpace(s[0]) {
      SpaceMoves(s[1..], other);
      assert Cut(s, SkipSpace(s)) + other == [s[0]] + (Cut(s[1..], SkipSpace(s[1..])) + other);
    } else {
      assert Cut(s, s) + other == other;
    }
  }

  // ----- strings -----

  lemma UnicodeMoves(s: string, r2: string)
    requires UnicodeEscape(s).Some?
    ensures
      var e := UnicodeEscape(s).value;
      Suffix(e.rest, s) && UnicodeEscape(Cut(s, e.rest) + r2) == Some(Read(e.value, r2))
  {
    var e := UnicodeEscape(s).value;
    var x := Cut(s, e.rest) + r2;
    assert HexValue(x) == HexValue(s);
    if |s| - |e.rest| == 10 {
      assert x[6..][..4] == s[6..][..4];
      assert HexValue(x[6..]) == HexValue(s[6..]) by {
        assert forall i :: 0 <= i < 4 ==> x[6..][i] == s[6..][i];
      }
      assert x[10..] == r2;
    } else {
      assert x[4..] == r2;
    }
  }

  lemma EscapeMoves(s: string, r2: string)
    requires Escape(s).Some?
    ensures
      var e := Escape(s).value;
      Suffix(e.rest, s) && Escape(Cut(s, e.rest) + r2) == Some(Read(e.value, r2))
  {
    hide UnicodeEscape, Suffix, Cut;
    var e := Escape(s).value;
    if s[0] == 'u' {
      UnicodeMoves(s[1..], r2);
    } else {
      CutNone(s[1..], r2);
    }
    CutStep(s, e.rest, r2);
  }

  lemma {:induction false} StringMoves(s: string, r2: string)
    requires StringBody(s).Some?
    ensures
      var r := StringBody(s).value;
      Suffix(r.rest, s) && StringBody(Cut(s, r.rest) + r2) == Some(Read(r.value, r2))
    decreases |s|
  {
    hide Escape, Suffix, Cut;
    var r := StringBody(s).value;
    if s[0] == '"' {
      CutNone(s[1..], r2);
    } else if s[0] == '\\' {
      var e := Escape(s[1..]).value;
      StringMoves(e.rest, r2);
      var y := Cut(e.rest, r.rest) + r2;
      EscapeMoves(s[1..], y);
      SuffixTrans(r.rest, e.rest, s[1..], r2);
    } else {
      StringMoves(s[1..], r2);
    }
    CutStep(s, r.rest, r2);
  }

  // ----- numbers -----

  lemma {:induction false} NumberMoves(state: NumberState, s: string, n: nat, other: string)
    requires NumberLength(state, s) == Some(n) && n <= |other| && other[..n] == s[..n]
    requires |other| == n || !NumberChar(other[n])
    ensures NumberLength(state, other) == Some(n)
    decreases |s|
  {
    if s != "" && Next(state, s[0]).Some? {
      assert other[0] == other[..n][0] == s[0];
      assert other[1..][..n - 1] == other[..n][1..] == s[1..][..n - 1];
      NumberMoves(Next(state, s[0]).value, s[1..], n - 1, other[1..]);
    }
  }

  /** Nothing after the text can change what was read. */
  predicate Closed(v: Tree, after: string) {
    v.Number? && after != "" ==> !NumberChar(after[0])
  }

  lemma ScalarMoves(t: string, r2: string)
    requires ReadScalar(t).Some? && Closed(ReadScalar(t).value.value, r2)
    ensures
      var r := ReadScalar(t).value;
      && Suffix(r.rest, t) && Cut(t, r.rest) != "" && Cut(t, r.rest)[0] == t[0]
      && ReadScalar(Cut(t, r.rest) + r2) == Some(Read(r.value, r2))
  {
    var r := ReadScalar(t).value;
    var y := Cut(t, r.rest);
    var x := y + r2;
    if r.value.Number? {
      var n := NumberLength(Start, t).value;
      assert y == t[..n] && x[..n] == t[..n] && x[n..] == r2;
      NumberMoves(Start, t, n, x);
      assert x[0] == t[0] && Next(Start, t[0]).Some?;
    } else {
      assert x[|y|..] == r2;
      assert y <= x;
    }
  }

  // ----- values -----

  lemma {:induction false} ValueMoves(s: string, depth: nat, r2: string)
    requires ReadValue(s, depth).Some? && Closed(ReadValue(s, depth).value.value, r2)
    ensures
      var r := ReadValue(s, depth).value;
      Suffix(r.rest, s) && ReadValue(Cut(s, r.rest) + r2, depth) == Some(Read(r.value, r2))
    decreases |s|, 1
  {
    hide StringBody, ReadArray, ReadObject, ReadScalar, SkipSpace;
    var r := ReadValue(s, depth).value;
    var t := SkipSpace(s);
    SpaceSuffix(s);
    if t[0] == '"' {
      StringMoves(t[1..], r2);
    } else if t[0] == '[' {
      ArrayMoves(t[1..], depth - 1, r2);
    } else if t[0] == '{' {
      ObjectMoves(t[1..], depth - 1, r2);
    } else {
      ScalarMoves(t, r2);
    }
    FromSpace(s, t, r.rest, r2);
  }

  /** The text moved, past its blanks, is the rest moved. */
  lemma FromSpace(s: string, t: string, rest: string, r2: string)
    requires t == SkipSpace(s) && |rest| < |t| && (Suffix(rest, t) || (t != "" && Suffix(rest, t[1..])))
    ensures Suffix(rest, s) && Cut(t, rest) + r2 != "" && (Cut(t, rest) + r2)[0] == t[0]
    ensures SkipSpace(Cut(s, rest) + r2) == Cut(t, rest) + r2
    ensures (Cut(t, rest) + r2)[1..] == Cut(t[1..], rest) + r2
  {
    SpaceSuffix(s);
    assert Suffix(rest, t);
    SuffixTrans(rest, t, s, r2);
    SpaceMoves(s, Cut(t, rest) + r2);
  }

  lemma {:induction false} ArrayMoves(s: string, depth: nat, r2: string)
    requires ReadArray(s, depth).Some?
    ensures
      var r := ReadArray(s, depth).value;
      Suffix(r.rest, s) && ReadArray(Cut(s, r.rest) + r2, depth) == Some(Read(r.value, r2))
    decreases |s|, 3
  {
    hide ReadItems, SkipSpace;
    var r := ReadArray(s, depth).value;
    var t := SkipSpace(s);
    SpaceSuffix(s);
    if t != "" && t[0] == ']' {
      FromSpace(s, t, r.rest, r2);
      assert (Cut(t, r.rest) + r2)[1..] == r2;
    } else {
      ItemsMoves(s, depth, r2);
      ItemsStart(s, depth);
      SuffixWithin(r.rest, t, s);
      FromSpace(s, t, r.rest, r2);
    }
  }

  lemma SuffixWithin(rest: string, t: string, s: string)
    requires Suffix(rest, s) && Suffix(t, s) && |rest| <= |t|
    ensures Suffix(rest, t)
  {}

  /** Reading items or members starts past the blanks. */
  lemma ItemsStart(s: string, depth: nat)
    requires ReadItems(s, depth).Some?
    ensures |ReadItems(s, depth).value.rest| < |SkipSpace(s)|
  {
    ValueStart(s, depth);
  }

  lemma ValueStart(s: string, depth: nat)
    requires ReadValue(s, depth).Some?
    ensures |ReadValue(s, depth).value.rest| < |SkipSpace(s)|
  {
    hide StringBody, ReadArray, ReadObject, ReadScalar, SkipSpace;
  }

  lemma {:induction false} ItemsMoves(s: string, depth: nat, r2: string)
    requires ReadItems(s, depth).Some?
    ensures
      var r := ReadItems(s, depth).value;
      Suffix(r.rest, s) && ReadItems(Cut(s, r.rest) + r2, depth) == Some(Read(r.value, r2))
    decreases |s|, 2
  {
    hide ReadValue, SkipSpace, Suffix, Cut;
    var r := ReadItems(s, depth).value;
    var first := ReadValue(s, depth).value;
    var t := SkipSpace(first.rest);
    SpaceSuffix(first.rest);
    if t[0] == ',' { ItemsMoves(t[1..], depth, r2); } else { CutNone(t[1..], r2); }
    FromSpace(first.rest, t, r.rest, r2);
    var after := Cut(first.rest, r.rest) + r2;
    BlankOrMark(first.rest, t, r.rest, r2);
    ValueMoves(s, depth, after);
    SuffixTrans(r.rest, first.rest, s, r2);
  }

  /** What follows an item starts with a blank or its delimiter. */
  lemma BlankOrMark(s: string, t: string, rest: string, r2: string)
    requires t == SkipSpace(s) && t != "" && !NumberChar(t[0]) && |rest| < |t| && Suffix(rest, s)
    ensures Cut(s, rest) + r2 != "" && !NumberChar((Cut(s, rest) + r2)[0])
  {
    SpaceSuffix(s);
    assert (Cut(s, rest) + r2)[0] == s[0];
    if s != t { assert IsSpace(s[0]); }
  }

  lemma {:induction false} ObjectMoves(s: string, depth: nat, r2: string)
    requires ReadObject(s, depth).Some?
    ensures
      var r := ReadObject(s, depth).value;
      Suffix(r.rest, s) && ReadObject(Cut(s, r.rest) + r2, depth) == Some(Read(r.value, r2))
    decreases |s|, 3
  {
    hide ReadMembers, SkipSpace;
    var r := ReadObject(s, depth).value;
    var t := SkipSpace(s);
    SpaceSuffix(s);
    if t != "" && t[0] == '}' {
      FromSpace(s, t, r.rest, r2);
      assert (Cut(t, r.rest) + r2)[1..] == r2;
    } else {
      MembersMoves(s, depth, r2);
      MembersStart(s, depth);
      SuffixWithin(r.rest, t, s);
      FromSpace(s, t, r.rest, r2);
    }
  }

  lemma MembersStart(s: string, depth: nat)
    requires ReadMembers(s, depth).Some?
    ensures |ReadMembers(s, depth).value.rest| < |SkipSpace(s)|
  {
    hide StringBody, SkipSpace, ReadValue;
  }

  lemma KeyMoves(s: string, r2: string)
    requires ReadKey(s).Some?
    ensures
      var r := ReadKey(s).value;
      Suffix(r.rest, s) && ReadKey(Cut(s, r.rest) + r2) == Some(Read(r.value, r2))
  {
    hide StringBody, SkipSpace, Suffix, Cut;
    var r := ReadKey(s).value;
    var t := SkipSpace(s);
    var key := StringBody(t[1..]).value;
    var u := SkipSpace(key.rest);
    SpaceSuffix(key.rest);
    CutNone(u[1..], r2);
    FromSpace(key.rest, u, r.rest, r2);
    var after := Cut(key.rest, r.rest) + r2;
    StringMoves(t[1..], after);
    SuffixTrans(r.rest, key.rest, t[1..], r2);
    FromSpace(s, t, r.rest, r2);
  }

  lemma {:induction false} MembersMoves(s: string, depth: nat, r2: string)
    requires ReadMembers(s, depth).Some?
    ensures
      var r := ReadMembers(s, depth).value;
      Suffix(r.rest, s) && ReadMembers(Cut(s, r.rest) + r2, depth) == Some(Read(r.value, r2))
    decreases |s|, 2
  {
    hide ReadKey, ReadValue, SkipSpace, Suffix, Cut;
    var r := ReadMembers(s, depth).value;
    var key := ReadKey(s).value;
    var value := ReadValue(key.rest, depth).value;
    var t := SkipSpace(value.rest);
    SpaceSuffix(value.rest);
    if t[0] == ',' { MembersMoves(t[1..], depth, r2); } else { CutNone(t[1..], r2); }
    FromSpace(value.rest, t, r.rest, r2);
    var after := Cut(value.rest, r.rest) + r2;
    BlankOrMark(value.rest, t, r.rest, r2);
    ValueMoves(key.rest, depth, after);
    SuffixTrans(r.rest, value.rest, key.rest, r2);
    KeyMoves(s, Cut(key.rest, r.rest) + r2);
    SuffixTrans(r.rest, key.rest, s, r2);
  }
}
