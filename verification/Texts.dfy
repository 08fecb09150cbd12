/** Searching and trimming text. */
module Texts {
  import opened Wrappers

  predicate OccursAt(text: string, i: nat, pattern: string) {
    i + |pattern| <= |text| && text[i..i + |pattern|] == pattern
  }

  /** Where `pattern` first occurs. */
  function Find(text: string, pattern: string): (at: Option<nat>)
    ensures at.Some? ==> at.value + |pattern| <= |text|
  {
    if pattern <= text then Some(0)
    else if text == "" then None
    else
      var later := Find(text[1..], pattern);
      if later.None? then None else Some(later.value + 1)
  }

  predicate Contains(text: string, pattern: string) { Find(text, pattern).Some? }

  /** `Find` is the first occurrence, and finds one whenever there is one. */
  lemma {:induction false} FindIsFirst(text: string, pattern: string, i: nat)
    ensures Find(text, pattern).Some? ==> OccursAt(text, Find(text, pattern).value, pattern)
    ensures OccursAt(text, i, pattern) ==> Find(text, pattern).Some? && Find(text, pattern).value <= i
    decreases |text|
  {
    hide OccursAt;
    OccursAtStart(text, pattern);
    if pattern <= text {
    } else if text != "" {
      FindIsFirst(text[1..], pattern, if i > 0 then i - 1 else 0);
      if i > 0 { OccursLater(text, pattern, i - 1); }
      var later := Find(text[1..], pattern);
      if later.Some? { OccursLater(text, pattern, later.value); }
    } else {
      LengthOfOccurrence(text, i, pattern);
    }
  }

  lemma OccursAtStart(text: string, pattern: string)
    ensures OccursAt(text, 0, pattern) <==> pattern <= text
  {}

  lemma OccursLater(text: string, pattern: string, i: nat)
    requires text != ""
    ensures OccursAt(text[1..], i, pattern) <==> OccursAt(text, i + 1, pattern)
  {
    OccursPart(text, 1, |text|, i, pattern);
    assert text[1..|text|] == text[1..];
  }

  /** Occurrences within a part of a text. */
  lemma OccursPart(text: string, from: nat, to: nat, i: nat, pattern: string)
    requires from <= to <= |text|
    ensures OccursAt(text[from..to], i, pattern) <==> from + i + |pattern| <= to && OccursAt(text, from + i, pattern)
  {
    if from + i + |pattern| <= to {
      var a, b := text[from..to][i..i + |pattern|], text[from + i..from + i + |pattern|];
      forall k | 0 <= k < |a| ensures a[k] == b[k] {}
      assert a == b;
    }
  }

  /** No occurrence spans a newline that the pattern does not have. */
  lemma NotAcross(text: string, line: nat, i: nat, pattern: string)
    requires line < |text| && text[line] == '\n' && '\n' !in pattern && OccursAt(text, i, pattern)
    ensures i + |pattern| <= line || line < i
  {
    if i <= line < i + |pattern| { CharOfOccurrence(text, i, pattern, line); }
  }

  lemma CharOfOccurrence(text: string, i: nat, pattern: string, at: nat)
    requires OccursAt(text, i, pattern) && i <= at < i + |pattern|
    ensures text[at] in pattern
  {
    assert text[i..i + |pattern|][at - i] == pattern[at - i];
  }

  /** A pattern without newlines is found within a line. */
  lemma FindLine(x: string, y: string, pattern: string)
    requires pattern != "" && '\n' !in pattern
    ensures Find(x + ("\n" + y), pattern)
         == if Contains(x, pattern) then Find(x, pattern)
            else if Contains(y, pattern) then Some(|x| + 1 + Find(y, pattern).value) else None
  {
    FindInLine(x + ("\n" + y), x, y, pattern);
  }

  ghost predicate Joins(text: string, x: string, y: string) { text == x + ("\n" + y) }

  predicate HasNewline(pattern: string) { '\n' in pattern }

  lemma FindInLine(text: string, x: string, y: string, pattern: string)
    requires pattern != "" && !HasNewline(pattern) && Joins(text, x, y)
    ensures Find(text, pattern)
         == if Contains(x, pattern) then Find(x, pattern)
            else if Contains(y, pattern) then Some(|x| + 1 + Find(y, pattern).value) else None
  {
    hide OccursAt, Find, Contains, Joins, HasNewline;
    Finds(text, pattern);
    Finds(x, pattern);
    Finds(y, pattern);
    if Contains(x, pattern) {
      var i := Find(x, pattern).value;
      OccursInLine(text, x, y, pattern, i);
      FindIsFirst(text, pattern, i);
      var k := Find(text, pattern).value;
      OccursInLine(text, x, y, pattern, k);
      FindIsFirst(x, pattern, k);
    } else if Contains(y, pattern) {
      var i := |x| + 1 + Find(y, pattern).value;
      OccursInLine(text, x, y, pattern, i);
      FindIsFirst(text, pattern, i);
      var k := Find(text, pattern).value;
      OccursInLine(text, x, y, pattern, k);
      FindIsFirst(x, pattern, k);
      if k > |x| { FindIsFirst(y, pattern, k - |x| - 1); }
    } else if Contains(text, pattern) {
      var k := Find(text, pattern).value;
      OccursInLine(text, x, y, pattern, k);
      FindIsFirst(x, pattern, k);
      if k > |x| { FindIsFirst(y, pattern, k - |x| - 1); }
    }
  }

  lemma Finds(text: string, pattern: string)
    ensures Contains(text, pattern) <==> Find(text, pattern).Some?
    ensures Find(text, pattern).Some? ==> OccursAt(text, Find(text, pattern).value, pattern)
  {
    FindIsFirst(text, pattern, 0);
  }

  lemma OccursInLine(text: string, x: string, y: string, pattern: string, i: nat)
    requires pattern != "" && !HasNewline(pattern) && Joins(text, x, y)
    ensures OccursAt(text, i, pattern) <==> OccursAt(x, i, pattern) || (i > |x| && OccursAt(y, i - |x| - 1, pattern))
    ensures OccursAt(x, i, pattern) ==> i < |x|
  {
    var n := |x| + 1;
    assert text[0..|x|] == x && text[n..|text|] == y && text[|x|] == '\n';
    LengthOfOccurrence(text, i, pattern);
    OccursPart(text, 0, |x|, i, pattern);
    if i > |x| { OccursPart(text, n, |text|, i - n, pattern); }
    hide OccursAt;
    if OccursAt(text, i, pattern) { NotAcross(text, |x|, i, pattern); }
    LengthOfOccurrence(x, i, pattern);
  }

  lemma LengthOfOccurrence(text: string, i: nat, pattern: string)
    ensures OccursAt(text, i, pattern) ==> i + |pattern| <= |text|
  {}

  /** A text holds what a part of it holds. */
  lemma ContainsPart(text: string, from: nat, to: nat, pattern: string)
    requires from <= to <= |text| && Contains(text[from..to], pattern)
    ensures Contains(text, pattern) && Find(text, pattern).value + |pattern| <= to
  {
    hide OccursAt, Find;
    var part := text[from..to];
    FindIsFirst(part, pattern, 0);
    var i := Find(part, pattern).value;
    OccursPart(text, from, to, i, pattern);
    FindIsFirst(text, pattern, from + i);
  }

  /** What comes before the first occurrence does not contain the pattern. */
  lemma BeforeFirst(text: string, pattern: string)
    requires pattern != "" && Contains(text, pattern)
    ensures !Contains(text[..Find(text, pattern).value], pattern)
  {
    hide Find;
    var i := Find(text, pattern).value;
    assert text[0..i] == text[..i];
    if Contains(text[..i], pattern) { ContainsPart(text, 0, i, pattern); }
  }

  /** A prefix long enough to hold the first occurrence has it in the same place. */
  lemma FindPrefix(text: string, whole: string, pattern: string)
    requires text <= whole
    ensures Contains(text, pattern) ==> Find(whole, pattern) == Find(text, pattern)
    ensures Contains(whole, pattern) && Find(whole, pattern).value + |pattern| <= |text| ==> Contains(text, pattern)
  {
    hide OccursAt, Find;
    FindIsFirst(text, pattern, 0);
    FindIsFirst(whole, pattern, 0);
    assert text == whole[0..|text|];
    if Contains(whole, pattern) {
      var k := Find(whole, pattern).value;
      OccursPart(whole, 0, |text|, k, pattern);
      FindIsFirst(text, pattern, k);
    }
    if Contains(text, pattern) {
      var i := Find(text, pattern).value;
      OccursPart(whole, 0, |text|, i, pattern);
      FindIsFirst(whole, pattern, i);
      var k := Find(whole, pattern).value;
      OccursPart(whole, 0, |text|, k, pattern);
      FindIsFirst(text, pattern, k);
    }
  }

  // ----- trimming -----

  /** A character with the Unicode White_Space property. */
  predicate IsBlank(c: char) {
    var n := c as int;
    || 0x9 <= n <= 0xD || n == 0x20 || n == 0x85 || n == 0xA0 || n == 0x1680 || 0x2000 <= n <= 0x200A
    || n == 0x2028 || n == 0x2029 || n == 0x202F || n == 0x205F || n == 0x3000
  }

  function TrimStart(s: string): (r: string)
    ensures |r| <= |s| && r == s[|s| - |r|..]
    ensures r == "" || !IsBlank(r[0])
  {
    if s != "" && IsBlank(s[0]) then TrimStart(s[1..]) else s
  }

  function TrimEnd(s: string): (r: string)
    ensures r <= s
    ensures r == "" || !IsBlank(r[|r| - 1])
  {
    if s != "" && IsBlank(s[|s| - 1]) then TrimEnd(s[..|s| - 1]) else s
  }

  function Trim(s: string): string { TrimEnd(TrimStart(s)) }

  predicate Trimmed(s: string) { s == "" || (!IsBlank(s[0]) && !IsBlank(s[|s| - 1])) }

  lemma TrimIsTrimmed(s: string)
    ensures Trimmed(Trim(s)) && (Trim(s) == s <==> Trimmed(s))
    ensures exists from, to :: 0 <= from <= to <= |s| && Trim(s) == s[from..to]
  {
    var start := TrimStart(s);
    assert Trim(s) == s[|s| - |start|..|s| - |start| + |Trim(s)|];
  }

  /** Blanks around a trimmed text come off. */
  lemma {:induction false} TrimOf(before: string, s: string, after: string)
    requires s != "" && Trimmed(s)
    requires (forall i :: 0 <= i < |before| ==> IsBlank(before[i])) && forall i :: 0 <= i < |after| ==> IsBlank(after[i])
    ensures Trim(before + s + after) == s
    decreases |before| + |after|
  {
    var text := before + s + after;
    if before != "" {
      assert text[1..] == before[1..] + s + after;
      TrimOf(before[1..], s, after);
    } else if after != "" {
      assert text == s + after;
      TrimEndOf(s, after);
    } else {
      assert text == s;
    }
  }

  lemma {:induction false} TrimEndOf(s: string, after: string)
    requires s != "" && Trimmed(s) && forall i :: 0 <= i < |after| ==> IsBlank(after[i])
    ensures TrimEnd(s + after) == s
    decreases |after|
  {
    if after == "" {
      assert s + after == s;
    } else {
      assert (s + after)[..|s + after| - 1] == s + after[..|after| - 1];
      TrimEndOf(s, after[..|after| - 1]);
    }
  }
}
