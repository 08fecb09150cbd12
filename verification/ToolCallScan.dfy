/** The member scanner: it finds where keys and values end without parsing
    them, and still stops exactly where the grammar does. */
module ToolCallScan {
  import opened Wrappers
  import opened Json
  import opened JsonReading
  import opened JsonPrinting

  // ----- what the scanners compute, as the text left over -----

  /** The text after a string's closing quote, from the text after the opening one. */
  function ScanBody(s: string): (rest: Option<string>)
    ensures rest.Some? ==> |rest.value| < |s|
    decreases |s|
  {
    if s == "" then None
    else if s[0] == '\\' then if |s| < 2 then None else ScanBody(s[2..])
    else if s[0] == '"' then Some(s[1..])
    else ScanBody(s[1..])
  }

  /** The text after a container; `stack` holds the closing brackets awaited. */
  function ScanOpen(s: string, stack: string): (rest: Option<string>)
    ensures rest.Some? ==> |rest.value| < |s|
    decreases |s|
  {
    if s == "" then None
    else if s[0] == '"' then
      var rest := ScanBody(s[1..]);
      if rest.None? then None else ScanOpen(rest.value, stack)
    else if s[0] == '{' then ScanOpen(s[1..], stack + "}")
    else if s[0] == '[' then ScanOpen(s[1..], stack + "]")
    else if s[0] == '}' || s[0] == ']' then
      if stack == "" || stack[|stack| - 1] != s[0] then None
      else if |stack| == 1 then Some(s[1..])
      else ScanOpen(s[1..], stack[..|stack| - 1])
    else ScanOpen(s[1..], stack)
  }

  predicate Delimiter(c: char) { c == ',' || c == '}' || c == ']' || IsSpace(c) }

  function ScalarLength(s: string): (n: nat)
    ensures n <= |s|
  {
    if s == "" || Delimiter(s[0]) then 0 else 1 + ScalarLength(s[1..])
  }

  /** The text after the value `s` starts with. */
  function ScanValue(s: string): (rest: Option<string>)
    ensures rest.Some? ==> |rest.value| < |s|
  {
    if s == "" then None
    else if s[0] == '"' then ScanBody(s[1..])
    else if s[0] == '{' || s[0] == '[' then ScanOpen(s, "")
    else if ScalarLength(s) == 0 then None
    else Some(s[ScalarLength(s)..])
  }

  datatype Field = Field(key: string, text: string)

  /** A string literal's contents. */
  function StringText(literal: string): Option<string> {
    if literal == "" || literal[0] != '"' then None
    else
      var r := StringBody(literal[1..]);
      if r.None? || SkipSpace(r.value.rest) != "" then None else Some(r.value.value)
  }

  /** A key and the colon after it, from the opening quote. */
  function KeyOf(s: string): (r: Option<Read<string>>)
    ensures r.Some? ==> |r.value.rest| < |s|
  {
    if s == "" || s[0] != '"' then None
    else
      var keyRest := ScanBody(s[1..]);
      if keyRest.None? then None
      else
        var key, t := StringText(Cut(s, keyRest.value)), SkipSpace(keyRest.value);
        if key.None? || t == "" || t[0] != ':' then None else Some(Read(key.value, t[1..]))
  }

  /** One field, and the text from the delimiter after it on. */
  function FieldOf(s: string): (r: Option<Read<Field>>)
    ensures r.Some? ==> |r.value.rest| < |s|
  {
    var key := KeyOf(s);
    if key.None? then None
    else
      var v := SkipSpace(key.value.rest);
      var rest := ScanValue(v);
      if rest.None? then None else Some(Read(Field(key.value.value, Cut(v, rest.value)), SkipSpace(rest.value)))
  }

  /** The fields from the first key on, up to the closing brace. */
  function Fields(s: string): (r: Option<Read<seq<Field>>>)
    ensures r.Some? ==> |r.value.rest| < |s|
    decreases |s|
  {
    var field := FieldOf(s);
    if field.None? then None
    else
      var u := field.value.rest;
      if u == "" then None
      else if u[0] == '}' then Some(Read([field.value.value], u[1..]))
      else if u[0] != ',' then None
      else
        var more := Fields(SkipSpace(u[1..]));
        if more.None? then None else Some(Read([field.value.value] + more.value.value, more.value.rest))
  }

  /** The members of a JSON object, each value as the text it was written with. */
  function ObjectMembers(text: string): Option<seq<Field>> {
    var t := SkipSpace(text);
    if t == "" || t[0] != '{' then None
    else
      var u := SkipSpace(t[1..]);
      var fields := if u != "" && u[0] == '}' then Some(Read([], u[1..])) else Fields(u);
      if fields.None? || SkipSpace(fields.value.rest) != "" then None else Some(fields.value.value)
  }

  // ----- the scanners -----

  /** Where the text left over starts. */
  function EndIn(text: string, rest: Option<string>): Option<nat>
    requires rest.Some? ==> |rest.value| <= |text|
  {
    if rest.None? then None else Some(|text| - |rest.value|)
  }

  lemma {:induction false} BodySuffix(s: string)
    requires ScanBody(s).Some?
    ensures Suffix(ScanBody(s).value, s)
    decreases |s|
  {
    if s[0] == '\\' { BodySuffix(s[2..]); } else if s[0] != '"' { BodySuffix(s[1..]); }
  }

  lemma {:induction false} OpenSuffix(s: string, stack: string)
    requires ScanOpen(s, stack).Some?
    ensures Suffix(ScanOpen(s, stack).value, s)
    decreases |s|
  {
    hide ScanBody, Suffix;
    var rest := ScanOpen(s, stack).value;
    if s[0] == '"' {
      var after := ScanBody(s[1..]).value;
      BodySuffix(s[1..]);
      OpenSuffix(after, stack);
      SuffixTrans(rest, after, s[1..], "");
    } else if s[0] == '{' {
      OpenSuffix(s[1..], stack + "}");
    } else if s[0] == '[' {
      OpenSuffix(s[1..], stack + "]");
    } else if s[0] == '}' || s[0] == ']' {
      if |stack| == 1 { CutNone(s[1..], ""); } else { OpenSuffix(s[1..], stack[..|stack| - 1]); }
    } else {
      OpenSuffix(s[1..], stack);
    }
    CutStep(s, rest, "");
  }

  lemma ScanSuffix(s: string)
    requires ScanValue(s).Some?
    ensures Suffix(ScanValue(s).value, s)
  {
    hide ScanBody, ScanOpen;
    if s[0] == '"' {
      BodySuffix(s[1..]);
    } else if s[0] == '{' || s[0] == '[' {
      OpenSuffix(s, "");
    }
  }

  method SkipWhitespace(text: string, from: nat) returns (at: nat)
    requires from <= |text|
    ensures from <= at <= |text| && text[at..] == SkipSpace(text[from..])
  {
    at := from;
    while at < |text| && IsSpace(text[at])
      invariant from <= at <= |text| && SkipSpace(text[at..]) == SkipSpace(text[from..])
    {
      assert text[at..][1..] == text[at + 1..];
      at := at + 1;
    }
  }

  /** One past the closing quote of the string that starts at `start`. */
  method ScanString(text: string, start: nat) returns (end: Option<nat>)
    requires start < |text|
    ensures end == EndIn(text, ScanBody(text[start + 1..]))
  {
    var at := start + 1;
    while at < |text|
      invariant start < at
      invariant ScanBody(text[start + 1..]) == if at <= |text| then ScanBody(text[at..]) else None
      decreases |text| - at
    {
      ghost var left := text[at..];
      assert left[1..] == text[at + 1..] && left[0] == text[at];
      if text[at] == '\\' {
        assert |left| >= 2 ==> left[2..] == text[at + 2..];
        at := at + 2;
      } else if text[at] == '"' {
        return Some(at + 1);
      } else {
        at := at + 1;
      }
    }
    end := None;
  }

  /** One past the closing bracket of the array or object that starts at `start`. */
  method ScanContainer(text: string, start: nat) returns (end: Option<nat>)
    requires start <= |text|
    ensures end == EndIn(text, ScanOpen(text[start..], ""))
  {
    var expected := "";
    var at := start;
    while at < |text|
      invariant start <= at <= |text|
      invariant ScanOpen(text[start..], "") == ScanOpen(text[at..], expected)
    {
      ghost var left := text[at..];
      assert left[1..] == text[at + 1..] && left[0] == text[at];
      var c := text[at];
      if c == '"' {
        var after := ScanString(text, at);
        if after.None? { return None; }
        BodySuffix(text[at + 1..]);
        assert text[after.value..] == ScanBody(text[at + 1..]).value;
        at := after.value;
      } else if c == '{' {
        expected := expected + "}";
        at := at + 1;
      } else if c == '[' {
        expected := expected + "]";
        at := at + 1;
      } else if c == '}' || c == ']' {
        if expected == "" || expected[|expected| - 1] != c { return None; }
        expected := expected[..|expected| - 1];
        at := at + 1;
        if expected == "" { return Some(at); }
      } else {
        at := at + 1;
      }
    }
    end := None;
  }

  method ScanScalar(text: string, start: nat) returns (end: nat)
    requires start <= |text|
    ensures end == start + ScalarLength(text[start..]) <= |text|
  {
    end := start;
    while end < |text| && !Delimiter(text[end])
      invariant start <= end <= |text| && start + ScalarLength(text[start..]) == end + ScalarLength(text[end..])
    {
      assert text[end..][1..] == text[end + 1..];
      end := end + 1;
    }
  }

  /** One past the end of the JSON value that starts at `start`. */
  method ScanValueAt(text: string, start: nat) returns (end: Option<nat>)
    requires start <= |text|
    ensures end == EndIn(text, ScanValue(text[start..]))
  {
    if start == |text| { return None; }
    ghost var s := text[start..];
    assert s[0] == text[start] && s[1..] == text[start + 1..];
    if text[start] == '"' {
      end := ScanString(text, start);
    } else if text[start] == '{' || text[start] == '[' {
      end := ScanContainer(text, start);
    } else {
      var stop := ScanScalar(text, start);
      assert stop > start ==> text[stop..] == s[ScalarLength(s)..];
      end := if stop > start then Some(stop) else None;
    }
  }

  /** One past the colon after the key whose opening quote is at `start`. */
  method KeyAt(text: string, start: nat) returns (key: Option<string>, end: nat)
    requires start <= |text|
    ensures
      var next := KeyOf(text[start..]);
      && (key.Some? <==> next.Some?)
      && (key.Some? ==> key.value == next.value.value && start < end <= |text| && text[end..] == next.value.rest)
  {
    hide ScanBody, StringBody, SkipSpace;
    end := start;
    ghost var s := text[start..];
    if start == |text| || text[start] != '"' { return None, end; }
    assert s[1..] == text[start + 1..] && s[0] == text[start];
    var keyEnd := ScanString(text, start);
    if keyEnd.None? { return None, end; }
    BodySuffix(s[1..]);
    var keyRest := text[keyEnd.value..];
    assert keyRest == ScanBody(s[1..]).value;
    assert text[start..keyEnd.value] == Cut(s, keyRest);
    key := StringText(text[start..keyEnd.value]);
    if key.None? { return None, end; }
    var at := SkipWhitespace(text, keyEnd.value);
    if at == |text| || text[at] != ':' { return None, end; }
    assert text[at..][1..] == text[at + 1..];
    end := at + 1;
  }

  /** One field, from its opening quote at `start`. */
  method FieldAt(text: string, start: nat) returns (field: Option<Field>, end: nat)
    requires start <= |text|
    ensures
      var next := FieldOf(text[start..]);
      && (field.Some? <==> next.Some?)
      && (field.Some? ==> field.value == next.value.value && start < end <= |text| && text[end..] == next.value.rest)
  {
    hide KeyOf, ScanValue, SkipSpace;
    var key, colon := KeyAt(text, start);
    if key.None? { return None, start; }
    var value := SkipWhitespace(text, colon);
    var valueEnd := ScanValueAt(text, value);
    if valueEnd.None? { return None, start; }
    ghost var v := text[value..];
    ScanSuffix(v);
    assert text[valueEnd.value..] == ScanValue(v).value;
    assert text[value..valueEnd.value] == Cut(v, ScanValue(v).value);
    field := Some(Field(key.value, text[value..valueEnd.value]));
    end := SkipWhitespace(text, valueEnd.value);
  }

  /** The members of a JSON object; `None` when the text is not one. */
  method Members(text: string) returns (members: Option<seq<Field>>)
    ensures members == ObjectMembers(text)
  {
    hide FieldOf, SkipSpace, Fields;
    var at := SkipWhitespace(text, 0);
    assert text[0..] == text;
    if at == |text| || text[at] != '{' { return None; }
    assert text[at..][1..] == text[at + 1..];
    at := SkipWhitespace(text, at + 1);
    var found, end := [], at;
    if at == |text| || text[at] != '}' {
      var fields;
      fields, end := FieldsAt(text, at);
      if fields.None? { return None; }
      found := fields.value;
    } else {
      end := at + 1;
      assert text[at..][1..] == text[end..];
    }
    end := SkipWhitespace(text, end);
    members := if end == |text| then Some(found) else None;
  }

  /** The member loop, from the first key to past the closing brace. */
  method FieldsAt(text: string, start: nat) returns (fields: Option<seq<Field>>, end: nat)
    requires start <= |text|
    ensures
      var all := Fields(text[start..]);
      && (fields.Some? <==> all.Some?)
      && (fields.Some? ==> fields.value == all.value.value && start < end <= |text| && text[end..] == all.value.rest)
  {
    hide FieldOf, SkipSpace;
    var found: seq<Field> := [];
    var at := start;
    while true
      invariant start <= at <= |text|
      invariant
        var all, left := Fields(text[start..]), Fields(text[at..]);
        && (all.Some? <==> left.Some?)
        && (all.Some? ==> all.value.value == found + left.value.value && all.value.rest == left.value.rest)
      decreases |text| - at
    {
      var field, next := FieldAt(text, at);
      if field.None? || next == |text| { return None, at; }
      found := found + [field.value];
      assert text[next..][1..] == text[next + 1..] && text[next..][0] == text[next];
      if text[next] == '}' { return Some(found), next + 1; }
      if text[next] != ',' { return None, at; }
      ghost var left := Fields(text[at..]);
      at := SkipWhitespace(text, next + 1);
      assert left.Some? ==> left.value.value == [field.value] + Fields(text[at..]).value.value;
    }
  }

  // ----- the scanners stop where the grammar does -----

  /** Characters a container scan steps over one at a time. */
  predicate Plain(c: char) {
    c != '"' && c != '{' && c != '[' && c != '}' && c != ']'
  }

  lemma {:induction false} PlainSkipped(s: string, n: nat, stack: string)
    requires n <= |s| && forall i :: 0 <= i < n ==> Plain(s[i])
    ensures ScanOpen(s, stack) == ScanOpen(s[n..], stack)
    decreases n
  {
    if n > 0 {
      PlainSkipped(s[1..], n - 1, stack);
      assert s[1..][n - 1..] == s[n..];
    }
  }

  lemma {:induction false} BodyPlain(s: string, n: nat)
    requires n <= |s| && forall i :: 0 <= i < n ==> s[i] != '"' && s[i] != '\\'
    ensures ScanBody(s) == ScanBody(s[n..])
    decreases n
  {
    if n > 0 {
      BodyPlain(s[1..], n - 1);
      assert s[1..][n - 1..] == s[n..];
    }
  }

  lemma HexPlain(c: char)
    requires HexDigit(c).Some?
    ensures c != '"' && c != '\\'
  {}

  lemma HexSkipped(s: string)
    requires HexValue(s).Some?
    ensures ScanBody(s) == ScanBody(s[4..])
  {
    forall i | 0 <= i < 4 ensures s[i] != '"' && s[i] != '\\' { HexPlain(s[i]); }
    BodyPlain(s, 4);
  }

  /** An escape is stepped over, and what it hides is ordinary. */
  lemma EscapeSkipped(s: string)
    requires s != "" && s[0] == '\\' && Escape(s[1..]).Some?
    ensures ScanBody(s) == ScanBody(Escape(s[1..]).value.rest)
  {
    hide HexValue;
    assert s[1..][1..] == s[2..] && s[1] == s[1..][0];
    if s[1] == 'u' {
      var u := s[2..];
      HexSkipped(u);
      if |u| - |Escape(s[1..]).value.rest| == 10 {
        var low := u[6..];
        assert u[4..][2..] == low && u[4..][0] == '\\';
        HexSkipped(low);
        assert low[4..] == u[10..];
      }
    }
  }

  lemma {:induction false} StringScanned(s: string)
    requires StringBody(s).Some?
    ensures ScanBody(s) == Some(StringBody(s).value.rest)
    decreases |s|
  {
    hide Escape;
    if s[0] == '\\' {
      EscapeSkipped(s);
      StringScanned(Escape(s[1..]).value.rest);
    } else if s[0] != '"' {
      StringScanned(s[1..]);
    }
  }

  lemma {:induction false} SpaceSkipped(s: string, stack: string)
    ensures ScanOpen(SkipSpace(s), stack) == ScanOpen(s, stack)
    decreases |s|
  {
    if s != "" && IsSpace(s[0]) { SpaceSkipped(s[1..], stack); }
  }

  lemma {:induction false} NumberChars(state: NumberState, s: string)
    requires NumberLength(state, s).Some?
    ensures forall i :: 0 <= i < NumberLength(state, s).value ==> NumberChar(s[i])
    decreases |s|
  {
    if s != "" && Next(state, s[0]).Some? {
      var more := Next(state, s[0]).value;
      NumberChars(more, s[1..]);
      forall i | 0 <= i < NumberLength(state, s).value ensures NumberChar(s[i]) {
        if i > 0 { assert s[i] == s[1..][i - 1]; }
      }
    }
  }

  /** A scalar is made of characters that neither nest nor delimit. */
  lemma ScalarChars(t: string)
    requires ReadScalar(t).Some?
    ensures Suffix(ReadScalar(t).value.rest, t)
    ensures forall i :: 0 <= i < |t| - |ReadScalar(t).value.rest| ==> Plain(t[i]) && !Delimiter(t[i])
  {
    var r := ReadScalar(t).value;
    if r.value.Number? { NumberChars(Start, t); }
  }

  lemma {:induction false} ScalarMeasured(s: string, n: nat)
    requires n <= |s| && (forall i :: 0 <= i < n ==> !Delimiter(s[i])) && (n == |s| || Delimiter(s[n]))
    ensures ScalarLength(s) == n
    decreases n
  {
    if n > 0 { ScalarMeasured(s[1..], n - 1); }
  }

  /** Inside a container, a whole value is stepped over and the brackets
      awaited stay the same. */
  lemma {:induction false} ValueSkipped(s: string, depth: nat, stack: string)
    requires ReadValue(s, depth).Some? && stack != ""
    ensures ScanOpen(s, stack) == ScanOpen(ReadValue(s, depth).value.rest, stack)
    decreases |s|, 1
  {
    hide StringBody, ReadArray, ReadObject, ReadScalar, ScanBody, SkipSpace;
    var t := SkipSpace(s);
    SpaceSkipped(s, stack);
    if t[0] == '"' {
      StringScanned(t[1..]);
    } else if t[0] == '[' {
      ArraySkipped(t[1..], depth - 1, stack);
    } else if t[0] == '{' {
      ObjectSkipped(t[1..], depth - 1, stack);
    } else {
      ScalarChars(t);
      PlainSkipped(t, |t| - |ReadScalar(t).value.rest|, stack);
    }
  }

  /** What is left to scan once a container inside `stack` has closed. */
  function Popped(rest: string, stack: string): Option<string> {
    if stack == "" then Some(rest) else ScanOpen(rest, stack)
  }

  lemma Pops(t: string, stack: string, close: char)
    requires t != "" && t[0] == close && (close == ']' || close == '}')
    ensures ScanOpen(t, stack + [close]) == Popped(t[1..], stack)
  {
    assert (stack + [close])[..|stack|] == stack;
  }

  lemma {:induction false} ArraySkipped(s: string, depth: nat, stack: string)
    requires ReadArray(s, depth).Some?
    ensures ScanOpen(s, stack + "]") == Popped(ReadArray(s, depth).value.rest, stack)
    decreases |s|, 3
  {
    hide ReadItems, SkipSpace, ScanOpen, Popped;
    var t := SkipSpace(s);
    if t != "" && t[0] == ']' {
      SpaceSkipped(s, stack + "]");
      Pops(t, stack, ']');
    } else {
      ItemsSkipped(s, depth, stack);
    }
  }

  lemma {:induction false} ItemsSkipped(s: string, depth: nat, stack: string)
    requires ReadItems(s, depth).Some?
    ensures ScanOpen(s, stack + "]") == Popped(ReadItems(s, depth).value.rest, stack)
    decreases |s|, 2
  {
    hide ReadValue, SkipSpace, ScanOpen, Popped;
    var rest := ReadValue(s, depth).value.rest;
    var t := SkipSpace(rest);
    ValueSkipped(s, depth, stack + "]");
    SpaceSkipped(rest, stack + "]");
    if t[0] == ',' {
      PlainSkipped(t, 1, stack + "]");
      ItemsSkipped(t[1..], depth, stack);
    } else {
      Pops(t, stack, ']');
    }
  }

  lemma {:induction false} ObjectSkipped(s: string, depth: nat, stack: string)
    requires ReadObject(s, depth).Some?
    ensures ScanOpen(s, stack + "}") == Popped(ReadObject(s, depth).value.rest, stack)
    decreases |s|, 3
  {
    hide ReadMembers, SkipSpace, ScanOpen, Popped;
    var t := SkipSpace(s);
    if t != "" && t[0] == '}' {
      SpaceSkipped(s, stack + "}");
      Pops(t, stack, '}');
    } else {
      MembersSkipped(s, depth, stack);
    }
  }

  lemma KeySkipped(s: string, stack: string)
    requires ReadKey(s).Some?
    ensures ScanOpen(s, stack) == ScanOpen(ReadKey(s).value.rest, stack)
  {
    hide StringBody, SkipSpace, ScanBody;
    var t := SkipSpace(s);
    SpaceSkipped(s, stack);
    StringScanned(t[1..]);
    var rest := StringBody(t[1..]).value.rest;
    SpaceSkipped(rest, stack);
  }

  lemma {:induction false} MembersSkipped(s: string, depth: nat, stack: string)
    requires ReadMembers(s, depth).Some?
    ensures ScanOpen(s, stack + "}") == Popped(ReadMembers(s, depth).value.rest, stack)
    decreases |s|, 2
  {
    hide ReadKey, ReadValue, SkipSpace, ScanOpen, Popped;
    var key := ReadKey(s).value;
    var rest := ReadValue(key.rest, depth).value.rest;
    var t := SkipSpace(rest);
    KeySkipped(s, stack + "}");
    ValueSkipped(key.rest, depth, stack + "}");
    SpaceSkipped(rest, stack + "}");
    if t[0] == ',' {
      PlainSkipped(t, 1, stack + "}");
      MembersSkipped(t[1..], depth, stack);
    } else {
      Pops(t, stack, '}');
    }
  }

  /** `rest` may follow a scalar: a scalar scan runs on to a delimiter. */
  predicate Ends(v: Tree, rest: string) {
    v.Text? || v.Array? || v.Object? || rest == "" || Delimiter(rest[0])
  }

  /** A value's scan stops exactly at its end, whatever delimiter follows. */
  lemma ScanStops(s: string, depth: nat)
    requires s != "" && !IsSpace(s[0]) && ReadValue(s, depth).Some?
    requires Ends(ReadValue(s, depth).value.value, ReadValue(s, depth).value.rest)
    ensures ScanValue(s) == Some(ReadValue(s, depth).value.rest)
  {
    hide StringBody, ReadArray, ReadObject, ReadScalar, ScanBody;
    assert SkipSpace(s) == s;
    var r := ReadValue(s, depth).value;
    if s[0] == '"' {
      StringScanned(s[1..]);
    } else if s[0] == '[' {
      ArraySkipped(s[1..], depth - 1, "");
      assert "" + "]" == "]";
    } else if s[0] == '{' {
      ObjectSkipped(s[1..], depth - 1, "");
      assert "" + "}" == "}";
    } else {
      ScalarKind(s);
      ScalarChars(s);
      ScalarMeasured(s, |s| - |r.rest|);
    }
  }

  lemma ScalarKind(t: string)
    requires ReadScalar(t).Some?
    ensures var v := ReadScalar(t).value.value; v.Null? || v.Bool? || v.Number?
  {}

  // ----- the members found are the grammar's -----

  /** `text` is exactly one value, with no blank before it. */
  ghost predicate Spells(text: string, v: Tree, depth: nat) {
    text != "" && !IsSpace(text[0]) && ReadValue(text, depth) == Some(Read(v, ""))
  }

  ghost predicate Spelled(fields: seq<Field>, members: seq<Member>, depth: nat) {
    && |fields| == |members|
    && forall i :: 0 <= i < |fields| ==> fields[i].key == members[i].key && Spells(fields[i].text, members[i].value, depth)
  }

  lemma KeyFound(s: string)
    requires ReadKey(s).Some?
    ensures KeyOf(SkipSpace(s)) == ReadKey(s)
  {
    hide StringBody, SkipSpace, ScanBody;
    var t := SkipSpace(s);
    var key := StringBody(t[1..]).value;
    StringScanned(t[1..]);
    StringMoves(t[1..], "");
    CutStep(t, key.rest, "");
    assert Cut(t, key.rest) + "" == Cut(t, key.rest) && Cut(t[1..], key.rest) + "" == Cut(t[1..], key.rest);
    NoBlank();
  }

  lemma NoBlank()
    ensures SkipSpace("") == ""
  {}

  /** Blanks before a value do not matter, and the scan of the value ends where
      the reader did. */
  lemma ValueFound(s: string, depth: nat)
    requires ReadValue(s, depth).Some? && Ends(ReadValue(s, depth).value.value, ReadValue(s, depth).value.rest)
    ensures
      var v, r := SkipSpace(s), ReadValue(s, depth).value;
      && ScanValue(v) == Some(r.rest) && Spells(Cut(v, r.rest), r.value, depth)
  {
    hide StringBody, ReadArray, ReadObject, ReadScalar, ScanValue;
    var v, r := SkipSpace(s), ReadValue(s, depth).value;
    SkipTwice(s);
    assert ReadValue(v, depth) == ReadValue(s, depth);
    ScanStops(v, depth);
    ValueMoves(v, depth, "");
    assert Cut(v, r.rest) + "" == Cut(v, r.rest);
    assert Cut(v, r.rest)[0] == v[0];
  }

  lemma SkipTwice(s: string)
    ensures SkipSpace(SkipSpace(s)) == SkipSpace(s)
  {}

  lemma MarkEnds(v: Tree, rest: string)
    requires SkipSpace(rest) != "" && (SkipSpace(rest)[0] == ',' || SkipSpace(rest)[0] == '}')
    ensures Ends(v, rest)
  {
    if rest != "" && !IsSpace(rest[0]) { assert SkipSpace(rest) == rest; }
  }

  lemma {:induction false} FieldsFound(s: string, depth: nat) returns (fields: seq<Field>)
    requires ReadMembers(s, depth).Some?
    ensures Fields(SkipSpace(s)) == Some(Read(fields, ReadMembers(s, depth).value.rest))
    ensures Spelled(fields, ReadMembers(s, depth).value.value, depth)
    decreases |s|
  {
    hide ReadKey, KeyOf, ReadValue, SkipSpace, ScanValue, Spells;
    var key := ReadKey(s).value;
    var value := ReadValue(key.rest, depth).value;
    var t := SkipSpace(value.rest);
    KeyFound(s);
    MarkEnds(value.value, value.rest);
    ValueFound(key.rest, depth);
    var field := Field(key.value, Cut(SkipSpace(key.rest), value.rest));
    if t[0] == ',' {
      var more := FieldsFound(t[1..], depth);
      fields := [field] + more;
    } else {
      fields := [field];
    }
  }

  /** The scan of any JSON object finds its members in order, each with its key
      and exactly its value's text. */
  lemma MembersFound(text: string, depth: nat) returns (fields: seq<Field>)
    requires ReadText(text, depth).Some? && ReadText(text, depth).value.Object?
    ensures ObjectMembers(text) == Some(fields) && depth > 1 && Spelled(fields, ReadText(text, depth).value.members, depth - 1)
  {
    hide ReadScalar, ReadArray, ReadMembers, StringBody, SkipSpace, Fields;
    var t := SkipSpace(text);
    ObjectStart(text, depth);
    var u := SkipSpace(t[1..]);
    if u != "" && u[0] == '}' {
      fields := [];
    } else {
      fields := FieldsFound(t[1..], depth - 1);
    }
  }

  lemma ObjectStart(text: string, depth: nat)
    requires ReadValue(text, depth).Some? && ReadValue(text, depth).value.value.Object?
    ensures
      var t := SkipSpace(text);
      t != "" && t[0] == '{' && depth > 1 && ReadObject(t[1..], depth - 1) == ReadValue(text, depth)
  {
    hide StringBody, ReadArray, ReadObject, SkipSpace;
    var t := SkipSpace(text);
    if t[0] == '[' {
      ArrayKind(t[1..], depth - 1);
    } else if t[0] != '"' && t[0] != '{' {
      ScalarKind(t);
    }
  }

  lemma ArrayKind(s: string, depth: nat)
    requires ReadArray(s, depth).Some?
    ensures ReadArray(s, depth).value.value.Array?
  {}

  // ----- joined object text scans back to its fields -----

  function FieldText(f: Field): string { PrintString(f.key) + ":" + f.text }

  function JoinFields(fields: seq<Field>): string {
    if fields == [] then "" else if |fields| == 1 then FieldText(fields[0])
    else FieldText(fields[0]) + "," + JoinFields(fields[1..])
  }

  function ObjectText(fields: seq<Field>): string { "{" + JoinFields(fields) + "}" }

  ghost predicate SpellsOne(text: string) {
    exists v: Tree, depth: nat :: Spells(text, v, depth)
  }

  lemma FieldScanned(f: Field, mark: char, rest: string)
    requires SpellsOne(f.text) && (mark == ',' || mark == '}')
    ensures FieldOf(FieldText(f) + ([mark] + rest)) == Some(Read(f, [mark] + rest))
  {
    hide StringBody, ReadValue, ScanValue, EscapeAll, ScanBody;
    var v: Tree, depth: nat :| Spells(f.text, v, depth);
    var tail := [mark] + rest;
    var s := FieldText(f) + tail;
    var after := f.text + tail;
    KeyScanned(f.key, after);
    Assoc(PrintString(f.key), ":", f.text);
    Assoc(PrintString(f.key), ":" + f.text, tail);
    Assoc(":", f.text, tail);
    assert s == PrintString(f.key) + (":" + after);
    ValueMoves(f.text, depth, tail);
    assert Cut(f.text, "") == f.text;
    assert after[0] == f.text[0];
    assert SkipSpace(after) == after;
    ScanStops(after, depth);
    assert Cut(after, tail) == f.text;
    Delimited(mark, rest);
  }

  lemma KeyScanned(key: string, after: string)
    ensures KeyOf(PrintString(key) + (":" + after)) == Some(Read(key, after))
  {
    hide StringBody, EscapeAll, ScanBody;
    var tail := ":" + after;
    var s := PrintString(key) + tail;
    StringPrinted(key, tail);
    assert s[1..] == EscapeAll(key) + ("\"" + tail);
    StringScanned(s[1..]);
    assert Cut(s, tail) == PrintString(key);
    LiteralText(key);
    assert tail == [':'] + after;
    Delimited(':', after);
  }

  lemma LiteralText(text: string)
    ensures StringText(PrintString(text)) == Some(text)
  {
    hide StringBody, EscapeAll;
    StringPrinted(text, "");
    assert PrintString(text)[1..] == EscapeAll(text) + ("\"" + "");
    NoBlank();
  }

  lemma {:induction false} FieldsScanned(fields: seq<Field>, rest: string)
    requires fields != [] && forall f :: f in fields ==> SpellsOne(f.text)
    ensures Fields(JoinFields(fields) + ("}" + rest)) == Some(Read(fields, rest))
    decreases |fields|
  {
    hide FieldOf, FieldText, SpellsOne, Fields;
    var f, more := fields[0], fields[1..];
    assert f in fields;
    if more == [] {
      LastField(f, rest);
      assert fields == [f];
    } else {
      FieldsScanned(more, rest);
      MoreFields(f, more, rest);
      assert fields == [f] + more;
    }
  }

  lemma LastField(f: Field, rest: string)
    requires SpellsOne(f.text)
    ensures Fields(FieldText(f) + ("}" + rest)) == Some(Read([f], rest))
  {
    hide FieldOf, FieldText, SpellsOne;
    var tail := "}" + rest;
    FieldScanned(f, '}', rest);
    assert tail[1..] == rest && tail == ['}'] + rest;
  }

  lemma MoreFields(f: Field, more: seq<Field>, rest: string)
    requires SpellsOne(f.text) && more != [] && Fields(JoinFields(more) + ("}" + rest)) == Some(Read(more, rest))
    ensures Fields(FieldText(f) + "," + JoinFields(more) + ("}" + rest)) == Some(Read([f] + more, rest))
  {
    hide FieldOf, FieldText, SpellsOne, JoinFields;
    var tail := "}" + rest;
    var after := JoinFields(more) + tail;
    FieldScanned(f, ',', after);
    Assoc(FieldText(f), ",", JoinFields(more));
    Assoc(FieldText(f), "," + JoinFields(more), tail);
    Assoc(",", JoinFields(more), tail);
    assert "," + after == [','] + after && ([','] + after)[1..] == after;
    JoinStart(more, tail);
  }

  lemma JoinStart(fields: seq<Field>, tail: string)
    requires fields != []
    ensures SkipSpace(JoinFields(fields) + tail) == JoinFields(fields) + tail
    ensures JoinFields(fields) != "" && JoinFields(fields)[0] == '"'
  {
    hide EscapeAll;
  }

  /** The member scan inverts joined object text. */
  lemma JoinedScanned(fields: seq<Field>)
    requires forall f :: f in fields ==> SpellsOne(f.text)
    ensures ObjectMembers(ObjectText(fields)) == Some(fields)
  {
    hide Fields, SpellsOne, JoinFields;
    var text := ObjectText(fields);
    var inner := JoinFields(fields) + "}";
    assert text[1..] == inner && SkipSpace(text) == text;
    NoBlank();
    if fields == [] {
      NoneJoined();
      assert inner == "}" && SkipSpace(inner) == inner && inner[1..] == "";
    } else {
      FieldsScanned(fields, "");
      JoinStart(fields, "}");
      assert "}" + "" == "}";
      assert inner[0] == '"';
    }
  }

  lemma NoneJoined()
    ensures JoinFields([]) == ""
  {}
}
