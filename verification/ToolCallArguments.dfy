/** The `arguments` text handed to a client and the markup rendered back from
    it: what survives the trip, and what a client's re-serialisation can change. */
module ToolCallArguments {
  import opened Wrappers
  import opened Texts
  import opened Json
  import opened JsonReading
  import opened JsonPrinting
  import opened JsonSpacing
  import opened ToolCallScan
  import opened ToolCalls

  // ----- the encoder and the renderer -----

  predicate IsContainer(v: Tree) { v.Array? || v.Object? }

  /** One parameter's text as a JSON value: copied when it is JSON of a
      non-string type and not declared a string, else a string literal of it. */
  function Encode(c: Canon, raw: string, declared: Option<string>): string {
    var value := ParseText(c, raw);
    if declared != Some("string") && value.Some? && !value.value.Text? then Trim(raw) else PrintString(raw)
  }

  /** The declared type of a parameter, if any. */
  function Declared(types: map<string, string>, key: string): Option<string> {
    if key in types then Some(types[key]) else None
  }

  function Encoded(c: Canon, parameters: seq<Parameter>, types: map<string, string>): (fields: seq<Field>)
    ensures |fields| == |parameters|
  {
    seq(|parameters|, i requires 0 <= i < |parameters| =>
      Field(parameters[i].key, Encode(c, parameters[i].text, Declared(types, parameters[i].key))))
  }

  function ArgumentsJson(c: Canon, call: Call, types: map<string, string>): string {
    ObjectText(Encoded(c, call.parameters, types))
  }

  /** The parameter text one JSON value stands for. */
  function ParameterText(c: Canon, value: string): string {
    if value != "" && value[0] == '"' then
      if StringText(value).Some? then StringText(value).value else value
    else if value != "" && (value[0] == '{' || value[0] == '[') then
      if ParseText(c, value).Some? then PythonJson(ParseText(c, value).value) else value
    else value
  }

  function Shown(c: Canon, fields: seq<Field>): (parameters: seq<Parameter>)
    ensures |parameters| == |fields|
  {
    seq(|fields|, i requires 0 <= i < |fields| => Parameter(fields[i].key, ParameterText(c, fields[i].text)))
  }

  /** The markup of a call whose `arguments` came back from a client. */
  function Render(c: Canon, name: string, arguments: string): string {
    var fields := ObjectMembers(arguments);
    Markup(Call(name, if fields.Some? then Shown(c, fields.value) else []))
  }

  method BuildArguments(c: Canon, call: Call, types: map<string, string>) returns (arguments: string)
    ensures arguments == ArgumentsJson(c, call, types)
  {
    hide Encode, FieldText;
    var parameters := call.parameters;
    ghost var fields := Encoded(c, parameters, types);
    arguments := "{";
    for i := 0 to |parameters|
      invariant arguments == "{" + JoinFields(fields[..i])
    {
      ghost var was := arguments;
      if i > 0 { arguments := arguments + ","; }
      var field := Field(parameters[i].key, Encode(c, parameters[i].text, Declared(types, parameters[i].key)));
      arguments := arguments + FieldText(field);
      assert fields[..i + 1] == fields[..i] + [field];
      JoinOneMore(fields[..i], field);
      Regroup("{", JoinFields(fields[..i]), ",");
      Regroup("{", JoinFields(fields[..i]) + ",", FieldText(field));
    }
    assert fields[..|parameters|] == fields;
    Regroup("{", JoinFields(fields), "}");
    arguments := arguments + "}";
  }

  lemma {:induction false} JoinOneMore(fields: seq<Field>, f: Field)
    ensures JoinFields(fields + [f]) == if fields == [] then FieldText(f) else JoinFields(fields) + "," + FieldText(f)
    decreases |fields|
  {
    hide FieldText;
    if fields == [] {
      assert [] + [f] == [f];
    } else {
      var more := fields[1..];
      JoinOneMore(more, f);
      assert (fields + [f])[1..] == more + [f] && (fields + [f])[0] == fields[0];
      if more != [] {
        Regroup(FieldText(fields[0]) + ",", JoinFields(more), "," + FieldText(f));
        Regroup(JoinFields(more), ",", FieldText(f));
        Regroup(FieldText(fields[0]) + "," + JoinFields(more), ",", FieldText(f));
      }
    }
  }

  method RenderCall(c: Canon, name: string, arguments: string, out: string) returns (rendered: string)
    ensures rendered == out + Render(c, name, arguments)
  {
    hide ParameterText, ObjectMembers, Head, CALL_OPEN, CALL_CLOSE, FUNCTION_OPEN, FUNCTION_CLOSE, PARAMETER_OPEN, PARAMETER_CLOSE;
    var members := Members(arguments);
    var fields := if members.Some? then members.value else [];
    ghost var all := Shown(c, fields);
    rendered := out + CALL_OPEN + "\n" + FUNCTION_OPEN + name + ">\n";
    ghost var start := rendered;
    for i := 0 to |fields|
      invariant rendered == start + Lines(all[..i], "")
    {
      var text := ParameterText(c, fields[i].text);
      ghost var was := rendered;
      rendered := rendered + PARAMETER_OPEN + fields[i].key + ">\n" + text + "\n" + PARAMETER_CLOSE + "\n";
      assert all[..i + 1] == all[..i] + [all[i]];
      LinesOneMore(all[..i], all[i]);
      PushedLine(was, fields[i].key, text);
      Regroup(start, Lines(all[..i], ""), Lines([all[i]], ""));
    }
    assert all[..|fields|] == all;
    rendered := rendered + FUNCTION_CLOSE + "\n" + CALL_CLOSE;
    PushedCall(out, Call(name, all));
  }

  lemma PushedLine(was: string, key: string, text: string)
    ensures was + PARAMETER_OPEN + key + ">\n" + text + "\n" + PARAMETER_CLOSE + "\n" == was + Lines([Parameter(key, text)], "")
  {
    hide PARAMETER_OPEN, PARAMETER_CLOSE;
    assert ">\n" == ">" + "\n";
  }

  lemma {:induction false} LinesOneMore(parameters: seq<Parameter>, p: Parameter)
    ensures Lines(parameters + [p], "") == Lines(parameters, "") + Lines([p], "")
    decreases |parameters|
  {
    hide Head, PARAMETER_CLOSE;
    if parameters == [] {
      assert [] + [p] == [p];
    } else {
      var more := parameters[1..];
      LinesOneMore(more, p);
      assert (parameters + [p])[1..] == more + [p] && (parameters + [p])[0] == parameters[0];
      LinesPrefix(parameters, Lines([p], ""));
      LinesAfter(parameters, Lines([p], ""));
    }
  }

  lemma LinesAfter(parameters: seq<Parameter>, tail: string)
    requires parameters != []
    ensures
      var q := parameters[0];
      Lines(parameters, tail) == Head(q) + ("\n" + (q.text + ("\n" + (PARAMETER_CLOSE + ("\n" + (Lines(parameters[1..], "") + tail))))))
  {
    hide Head, PARAMETER_CLOSE;
    LinesPrefix(parameters[1..], tail);
  }

  lemma PushedCall(out: string, call: Call)
    ensures (out + CALL_OPEN + "\n" + FUNCTION_OPEN + call.name + ">\n") + Lines(call.parameters, "") + FUNCTION_CLOSE + "\n" + CALL_CLOSE
         == out + Markup(call)
  {
    hide CALL_OPEN, CALL_CLOSE, FUNCTION_OPEN, FUNCTION_CLOSE, Lines;
    LinesPrefix(call.parameters, FUNCTION_CLOSE + ("\n" + CALL_CLOSE));
    assert ">\n" == ">" + "\n";
  }

  // ----- trimming JSON text leaves the value -----

  /** The `k`-th character from the end. */
  function FromEnd(s: string, k: nat): char
    requires 1 <= k <= |s|
  {
    s[|s| - k]
  }

  lemma FromEndSame(a: string, s: string, k: nat)
    requires Suffix(a, s) && 1 <= k <= |a|
    ensures FromEnd(s, k) == FromEnd(a, k)
  {
    assert s[|s| - |a|..][|a| - k] == s[|s| - k];
  }

  lemma TailSuffix(s: string)
    requires s != ""
    ensures Suffix(s[1..], s)
  {}

  lemma EscapeSuffix(s: string)
    requires Escape(s).Some?
    ensures Suffix(Escape(s).value.rest, s)
  {
    EscapeMoves(s, "");
  }

  lemma {:induction false} BodyLast(s: string)
    requires StringBody(s).Some?
    ensures FromEnd(s, |StringBody(s).value.rest| + 1) == '"'
    decreases |s|
  {
    hide Escape, Suffix;
    TailSuffix(s);
    var rest := StringBody(s).value.rest;
    if s[0] == '\\' {
      var e := Escape(s[1..]).value;
      EscapeSuffix(s[1..]);
      BodyLast(e.rest);
      FromEndSame(e.rest, s[1..], |rest| + 1);
      FromEndSame(s[1..], s, |rest| + 1);
    } else if s[0] != '"' {
      BodyLast(s[1..]);
      FromEndSame(s[1..], s, |rest| + 1);
    }
  }

  lemma ScalarLast(t: string)
    requires ReadScalar(t).Some?
    ensures !IsBlank(FromEnd(t, |ReadScalar(t).value.rest| + 1)) && !IsBlank(t[0])
  {
    var r := ReadScalar(t).value;
    if r.value.Number? {
      NumberChars(Start, t);
      NumberNotBlank(FromEnd(t, |r.rest| + 1));
      NumberNotBlank(t[0]);
    }
  }

  lemma NumberNotBlank(c: char)
    requires NumberChar(c)
    ensures !IsBlank(c)
  {}

  /** A value ends in a character no trimming takes. */
  lemma ValueLast(s: string, depth: nat)
    requires ReadValue(s, depth).Some?
    ensures !IsBlank(FromEnd(s, |ReadValue(s, depth).value.rest| + 1)) && !IsBlank(SkipSpace(s)[0])
  {
    hide StringBody, ReadArray, ReadObject, ReadScalar, SkipSpace;
    var t, rest := SkipSpace(s), ReadValue(s, depth).value.rest;
    SpaceSuffix(s);
    TailSuffix(t);
    if t[0] == '"' {
      BodyLast(t[1..]);
      FromEndSame(t[1..], t, |rest| + 1);
    } else if t[0] == '[' {
      ArrayLast(t[1..], depth - 1);
      FromEndSame(t[1..], t, |rest| + 1);
    } else if t[0] == '{' {
      ObjectLast(t[1..], depth - 1);
      FromEndSame(t[1..], t, |rest| + 1);
    } else {
      ScalarLast(t);
    }
    FromEndSame(t, s, |rest| + 1);
  }

  lemma ArrayLast(s: string, depth: nat)
    requires ReadArray(s, depth).Some?
    ensures FromEnd(s, |ReadArray(s, depth).value.rest| + 1) == ']'
  {
    hide ReadItems, SkipSpace;
    SpaceSuffix(s);
    var t, rest := SkipSpace(s), ReadArray(s, depth).value.rest;
    if t != "" && t[0] == ']' {
      FromEndSame(t, s, |rest| + 1);
    } else {
      ItemsLast(s, depth);
    }
  }

  lemma {:induction false} ItemsLast(s: string, depth: nat)
    requires ReadItems(s, depth).Some?
    ensures FromEnd(s, |ReadItems(s, depth).value.rest| + 1) == ']'
    decreases |s|
  {
    hide ReadValue, SkipSpace, Suffix;
    var first, rest := ReadValue(s, depth).value.rest, ReadItems(s, depth).value.rest;
    var t := SkipSpace(first);
    ValueMovesAway(s, depth);
    SpaceSuffix(first);
    TailSuffix(t);
    if t[0] == ',' {
      ItemsLast(t[1..], depth);
      FromEndSame(t[1..], t, |rest| + 1);
    }
    FromEndSame(t, first, |rest| + 1);
    FromEndSame(first, s, |rest| + 1);
  }

  lemma ValueMovesAway(s: string, depth: nat)
    requires ReadValue(s, depth).Some?
    ensures Suffix(ReadValue(s, depth).value.rest, s)
  {
    hide ReadValue;
    ValueMoves(s, depth, "");
  }

  lemma ObjectLast(s: string, depth: nat)
    requires ReadObject(s, depth).Some?
    ensures FromEnd(s, |ReadObject(s, depth).value.rest| + 1) == '}'
  {
    hide ReadMembers, SkipSpace;
    SpaceSuffix(s);
    var t, rest := SkipSpace(s), ReadObject(s, depth).value.rest;
    if t != "" && t[0] == '}' {
      FromEndSame(t, s, |rest| + 1);
    } else {
      MembersLast(s, depth);
    }
  }

  lemma {:induction false} MembersLast(s: string, depth: nat)
    requires ReadMembers(s, depth).Some?
    ensures FromEnd(s, |ReadMembers(s, depth).value.rest| + 1) == '}'
    decreases |s|
  {
    hide ReadKey, ReadValue, SkipSpace, Suffix;
    var key := ReadKey(s).value.rest;
    var value, rest := ReadValue(key, depth).value.rest, ReadMembers(s, depth).value.rest;
    var t := SkipSpace(value);
    KeyMoves(s, "");
    ValueMovesAway(key, depth);
    SpaceSuffix(value);
    TailSuffix(t);
    if t[0] == ',' {
      MembersLast(t[1..], depth);
      FromEndSame(t[1..], t, |rest| + 1);
    }
    FromEndSame(t, value, |rest| + 1);
    FromEndSame(value, key, |rest| + 1);
    FromEndSame(key, s, |rest| + 1);
  }

  lemma SpaceIsBlank(c: char)
    requires IsSpace(c)
    ensures IsBlank(c)
  {}

  lemma {:induction false} SpacesBefore(s: string)
    ensures forall i :: 0 <= i < |s| - |SkipSpace(s)| ==> IsSpace(s[i])
    decreases |s|
  {
    if s != "" && IsSpace(s[0]) {
      SpacesBefore(s[1..]);
      forall i | 0 <= i < |s| - |SkipSpace(s)| ensures IsSpace(s[i]) {
        if i > 0 { assert s[i] == s[1..][i - 1]; }
      }
    }
  }

  lemma {:induction false} AllSpaces(s: string)
    requires SkipSpace(s) == ""
    ensures forall i :: 0 <= i < |s| ==> IsBlank(s[i])
  {
    SpacesBefore(s);
    forall i | 0 <= i < |s| ensures IsBlank(s[i]) { SpaceIsBlank(s[i]); }
  }

  /** Trimming a text that is one JSON value leaves exactly the value. */
  lemma TrimSpells(raw: string, depth: nat)
    requires ReadText(raw, depth).Some?
    ensures Spells(Trim(raw), ReadText(raw, depth).value, depth)
  {
    hide ReadValue, SkipSpace, Trim, IsBlank, Suffix;
    var r := ReadValue(raw, depth).value;
    var t := SkipSpace(raw);
    var before, after := Cut(raw, t), r.rest;
    ValueLast(raw, depth);
    SpaceSuffix(raw);
    SpacesBefore(raw);
    forall i | 0 <= i < |before| ensures IsBlank(before[i]) { SpaceIsBlank(before[i]); }
    AllSpaces(after);
    ValueMovesAway(raw, depth);
    ValueStart(raw, depth);
    SuffixWithin(after, t, raw);
    var e := Cut(t, after);
    Parts(raw, t, after);
    TrimOf(before, e, after);
    MiddleSpells(raw, depth);
  }

  lemma Parts(raw: string, t: string, after: string)
    requires Suffix(t, raw) && Suffix(after, t) && |after| < |t|
    ensures Cut(raw, t) + Cut(t, after) + after == raw && Cut(t, after) != "" && Cut(t, after)[0] == t[0]
    ensures Cut(t, after)[|Cut(t, after)| - 1] == FromEnd(raw, |after| + 1)
  {
    FromEndSame(t, raw, |after| + 1);
  }

  lemma MiddleSpells(raw: string, depth: nat)
    requires ReadText(raw, depth).Some?
    ensures |ReadValue(raw, depth).value.rest| <= |SkipSpace(raw)|
    ensures Spells(Cut(SkipSpace(raw), ReadValue(raw, depth).value.rest), ReadText(raw, depth).value, depth)
  {
    hide SkipSpace, StringBody, ReadArray, ReadObject, ReadScalar;
    var r := ReadValue(raw, depth).value;
    ValueStart(raw, depth);
    SkipTwice(raw);
    ValueMoves(SkipSpace(raw), depth, "");
    var e := Cut(SkipSpace(raw), r.rest);
    assert e + "" == e && e[0] == SkipSpace(raw)[0];
    FirstNotSpace(raw);
  }

  lemma FirstNotSpace(s: string)
    ensures SkipSpace(s) != "" ==> !IsSpace(SkipSpace(s)[0])
  {}

  // ----- the client is handed a JSON object -----

  /** What a parameter's text means to the client. */
  function Meaning(c: Canon, raw: string, declared: Option<string>): Tree {
    var value := ParseText(c, raw);
    if declared != Some("string") && value.Some? && !value.value.Text? then ReadTextOf(raw) else Text(raw)
  }

  function ReadTextOf(raw: string): Tree {
    if Json.ReadText(raw, DEPTH_LIMIT).Some? then Json.ReadText(raw, DEPTH_LIMIT).value else Null
  }

  lemma LiteralSpells(text: string, depth: nat)
    ensures Spells(PrintString(text), Text(text), depth)
  {
    hide StringBody, EscapeAll;
    StringPrinted(text, "");
    var s := PrintString(text);
    assert SkipSpace(s) == s && s[1..] == EscapeAll(text) + ("\"" + "");
  }

  lemma EncodedSpells(c: Canon, raw: string, declared: Option<string>)
    ensures Spells(Encode(c, raw, declared), Meaning(c, raw, declared), DEPTH_LIMIT)
  {
    hide Trim, PrintString, Json.ReadText, Convert, Spells;
    LiteralSpells(raw, DEPTH_LIMIT);
    if Encode(c, raw, declared) == Trim(raw) && ParseText(c, raw).Some? { TrimSpells(raw, DEPTH_LIMIT); }
  }

  lemma SpellsIsOne(text: string, v: Tree, depth: nat)
    requires Spells(text, v, depth)
    ensures SpellsOne(text)
  {}

  lemma AllSpelled(c: Canon, parameters: seq<Parameter>, types: map<string, string>)
    ensures forall f :: f in Encoded(c, parameters, types) ==> SpellsOne(f.text)
  {
    hide Encode, Meaning, Spells, SpellsOne;
    var fields := Encoded(c, parameters, types);
    forall f | f in fields ensures SpellsOne(f.text) {
      var i :| 0 <= i < |fields| && fields[i] == f;
      var d := Declared(types, parameters[i].key);
      EncodedSpells(c, parameters[i].text, d);
      SpellsIsOne(f.text, Meaning(c, parameters[i].text, d), DEPTH_LIMIT);
    }
  }

  /** Joined object text reads as the object of its members. */
  lemma {:induction false} JoinedReads(fields: seq<Field>, members: seq<Member>, depth: nat, rest: string)
    requires fields != [] && Spelled(fields, members, depth)
    ensures ReadMembers(JoinFields(fields) + ("}" + rest), depth) == Some(Read(members, rest))
    decreases |fields|
  {
    hide ReadMembers, ReadValue, ReadKey, FieldText, Spells;
    var tail := "}" + rest;
    var f, m := fields[0], members[0];
    var more, left := fields[1..], members[1..];
    if more == [] {
      FieldReads(f, m, depth, '}', rest);
      assert tail == ['}'] + rest;
      LastMemberRead(FieldText(f) + tail, depth, m, rest);
      assert members == [m];
    } else {
      var after := JoinFields(more) + tail;
      JoinedReads(more, left, depth, rest);
      FieldReads(f, m, depth, ',', after);
      Regroup(FieldText(f), ",", JoinFields(more));
      Regroup(FieldText(f), "," + JoinFields(more), tail);
      Regroup(",", JoinFields(more), tail);
      assert "," + after == [','] + after;
      MemberRead(FieldText(f) + ([','] + after), depth, m, after, left, rest);
      assert members == [m] + left;
    }
  }

  lemma FieldReads(f: Field, m: Member, depth: nat, mark: char, rest: string)
    requires f.key == m.key && Spells(f.text, m.value, depth) && (mark == ',' || mark == '}')
    ensures
      var s := FieldText(f) + ([mark] + rest);
      && ReadKey(s).Some? && ReadKey(s).value.value == m.key
      && ReadValue(ReadKey(s).value.rest, depth) == Some(Read(m.value, [mark] + rest))
  {
    hide ReadValue, ReadKey, PrintString;
    var tail := [mark] + rest;
    ValueMoves(f.text, depth, tail);
    assert Cut(f.text, "") == f.text;
    Regroup(PrintString(f.key), ":", f.text);
    Regroup(PrintString(f.key), ":" + f.text, tail);
    Regroup(":", f.text, tail);
    KeyReads(f.key, f.text + tail);
  }

  lemma KeyReads(key: string, after: string)
    ensures ReadKey(PrintString(key) + (":" + after)) == Some(Read(key, after))
  {
    hide StringBody, EscapeAll;
    var s := PrintString(key) + (":" + after);
    assert SkipSpace(s) == s;
    StringPrinted(key, ":" + after);
    assert s[1..] == EscapeAll(key) + ("\"" + (":" + after));
    assert ":" + after == [':'] + after;
    Delimited(':', after);
  }

  lemma ObjectReads(fields: seq<Field>, members: seq<Member>, depth: nat)
    requires Spelled(fields, members, depth) && depth > 0
    ensures Json.ReadText(ObjectText(fields), depth + 1) == Some(Object(members))
  {
    hide ReadMembers, JoinFields, Spells, ReadObject;
    var inner := JoinFields(fields) + "}";
    if fields == [] {
      NoneJoined();
      assert inner == "}";
      EmptyReads(depth);
      assert members == [];
    } else {
      JoinedReads(fields, members, depth, "");
      JoinStart(fields, "}");
      assert "}" + "" == "}" && inner[0] == '"';
      MembersRead(inner, members, depth);
    }
    OpenedReads(inner, members, depth);
    assert ObjectText(fields) == "{" + inner;
  }

  lemma EmptyReads(depth: nat)
    ensures ReadObject("}", depth) == Some(Read(Object([]), ""))
  {
    NoBlank();
    assert SkipSpace("}") == "}" && "}"[1..] == "";
  }

  lemma MembersRead(inner: string, members: seq<Member>, depth: nat)
    requires inner != "" && inner[0] == '"' && ReadMembers(inner, depth) == Some(Read(members, ""))
    ensures ReadObject(inner, depth) == Some(Read(Object(members), ""))
  {
    hide ReadMembers;
    NoBlank();
    assert SkipSpace(inner) == inner;
  }

  lemma OpenedReads(inner: string, members: seq<Member>, depth: nat)
    requires ReadObject(inner, depth) == Some(Read(Object(members), "")) && depth > 0
    ensures Json.ReadText("{" + inner, depth + 1) == Some(Object(members))
  {
    hide ReadObject;
    var text := "{" + inner;
    NoBlank();
    assert SkipSpace(text) == text && text[1..] == inner && SkipSpace("") == "";
  }

  function Meanings(c: Canon, parameters: seq<Parameter>, types: map<string, string>): (members: seq<Member>)
    ensures |members| == |parameters|
  {
    seq(|parameters|, i requires 0 <= i < |parameters| =>
      Member(parameters[i].key, Meaning(c, parameters[i].text, Declared(types, parameters[i].key))))
  }

  /** The arguments are the text of a JSON object holding the parameters in
      order, repeated keys included, each with its declared meaning. */
  lemma ArgumentsAreObject(c: Canon, call: Call, types: map<string, string>)
    ensures Json.ReadText(ArgumentsJson(c, call, types), DEPTH_LIMIT + 1) == Some(Object(Meanings(c, call.parameters, types)))
  {
    hide Encode, Meaning, Spells, Json.ReadText, ObjectText;
    var ps := call.parameters;
    var members := Meanings(c, ps, types);
    forall i | 0 <= i < |ps| ensures Spells(Encoded(c, ps, types)[i].text, members[i].value, DEPTH_LIMIT) {
      EncodedSpells(c, ps[i].text, Declared(types, ps[i].key));
    }
    ObjectReads(Encoded(c, ps, types), members, DEPTH_LIMIT);
  }

  // ----- what comes back -----

  /** The parameter's text after the trip through `arguments`. */
  function Rewritten(c: Canon, raw: string, declared: Option<string>): string {
    ParameterText(c, Encode(c, raw, declared))
  }

  function RewrittenAll(c: Canon, parameters: seq<Parameter>, types: map<string, string>): (r: seq<Parameter>)
    ensures |r| == |parameters|
  {
    seq(|parameters|, i requires 0 <= i < |parameters| =>
      Parameter(parameters[i].key, Rewritten(c, parameters[i].text, Declared(types, parameters[i].key))))
  }

  /** Rendering the arguments gives the markup of the same call, in the same
      parameter order and with repeated keys kept, up to each text's rewriting. */
  lemma RenderArguments(c: Canon, call: Call, types: map<string, string>)
    ensures Render(c, call.name, ArgumentsJson(c, call, types)) == Markup(Call(call.name, RewrittenAll(c, call.parameters, types)))
  {
    hide Encode, ParameterText, Markup;
    var fields := Encoded(c, call.parameters, types);
    AllSpelled(c, call.parameters, types);
    JoinedScanned(fields);
    assert Shown(c, fields) == RewrittenAll(c, call.parameters, types);
  }

  /** What the parser re-prints a number as is a JSON number. Parsing that again
      may print yet another one. */
  ghost predicate NumbersStayNumbers(c: Canon) {
    forall l: string :: IsNumber(l) && c(l).Some? ==> IsNumber(c(l).value)
  }

  /** The template's own spelling: its spacing and escapes, numbers the parser
      leaves alone, and no repeated key. */
  predicate TemplateSpaced(c: Canon, raw: string) {
    && Tight(raw)
    && var t := Json.ReadText(raw, DEPTH_LIMIT);
       t.Some? && Canonical(c, t.value)
  }

  /** What a parameter's text must be to come back unchanged. */
  predicate Faithful(c: Canon, raw: string, declared: Option<string>) {
    || declared == Some("string")
    || ParseText(c, raw).None?
    || (match ParseText(c, raw).value
        case Text(_) => true
        case Array(_) => TemplateSpaced(c, raw)
        case Object(_) => TemplateSpaced(c, raw)
        case _ => Trimmed(raw))
  }

  lemma FirstChar(text: string, v: Tree, depth: nat)
    requires Spells(text, v, depth)
    ensures v.Text? <==> text[0] == '"'
    ensures v.Array? <==> text[0] == '['
    ensures v.Object? <==> text[0] == '{'
  {
    hide ReadArray, ReadObject, ReadScalar, StringBody;
    assert SkipSpace(text) == text;
    if text[0] == '[' {
      ArrayKind(text[1..], depth - 1);
    } else if text[0] == '{' {
      ObjectKind(text[1..], depth - 1);
    } else if text[0] != '"' {
      ScalarKind(text);
    }
  }

  lemma ObjectKind(s: string, depth: nat)
    requires ReadObject(s, depth).Some?
    ensures ReadObject(s, depth).value.value.Object?
  {
    hide ReadMembers, SkipSpace;
  }

  lemma SpelledParses(c: Canon, text: string, v: Tree)
    requires Spells(text, v, DEPTH_LIMIT)
    ensures ParseText(c, text) == Convert(c, v)
  {
    hide ReadValue, Convert;
    NoBlank();
  }

  lemma ConvertKind(c: Canon, t: Tree)
    requires Convert(c, t).Some?
    ensures
      var v := Convert(c, t).value;
      (v.Array? <==> t.Array?) && (v.Object? <==> t.Object?) && (v.Text? <==> t.Text?)
  {
    hide ConvertItems, ConvertMembers;
  }

  /** Text that parses to a value other than a string comes back re-printed if
      it is a container, and without its outer blanks otherwise. */
  lemma RewrittenJson(c: Canon, raw: string, declared: Option<string>)
    requires declared != Some("string") && ParseText(c, raw).Some? && !ParseText(c, raw).value.Text?
    ensures
      var v := ParseText(c, raw).value;
      Rewritten(c, raw, declared) == if IsContainer(v) then PythonJson(v) else Trim(raw)
  {
    hide Trim, Json.ReadText, Convert, PythonJson, ReadValue;
    var t := Json.ReadText(raw, DEPTH_LIMIT).value;
    TrimSpells(raw, DEPTH_LIMIT);
    SpelledParses(c, Trim(raw), t);
    FirstChar(Trim(raw), t, DEPTH_LIMIT);
    ConvertKind(c, t);
  }

  lemma RewrittenText(c: Canon, raw: string)
    ensures ParameterText(c, PrintString(raw)) == raw
  {
    hide EscapeAll, StringText;
    LiteralText(raw);
  }

  /** A parameter's text comes back unchanged exactly when it is faithful. */
  lemma RewrittenIffFaithful(c: Canon, raw: string, declared: Option<string>)
    requires NumbersStayNumbers(c)
    ensures Rewritten(c, raw, declared) == raw <==> Faithful(c, raw, declared)
  {
    hide Trim, ParameterText, PythonJson, PrintString, NumbersStayNumbers, TemplateSpaced, Convert, Json.ReadText;
    RewrittenText(c, raw);
    TrimIsTrimmed(raw);
    if declared != Some("string") && ParseText(c, raw).Some? && !ParseText(c, raw).value.Text? {
      RewrittenJson(c, raw, declared);
      var v := ParseText(c, raw).value;
      if IsContainer(v) { TemplateSpacedIff(c, raw); }
    }
  }

  /** A container's text is its own re-printing exactly when it is spelled as
      the template spells. */
  lemma TemplateSpacedIff(c: Canon, raw: string)
    requires NumbersStayNumbers(c) && ParseText(c, raw).Some? && IsContainer(ParseText(c, raw).value)
    ensures PythonJson(ParseText(c, raw).value) == raw <==> TemplateSpaced(c, raw)
  {
    hide ReadValue, Convert, PythonJson, Canonical, NumbersStayNumbers, Tight, Nesting;
    var v, t := ParseText(c, raw).value, Json.ReadText(raw, DEPTH_LIMIT).value;
    if TemplateSpaced(c, raw) {
      TextIsPrinted(raw, DEPTH_LIMIT);
      ConvertCanonical(c, t);
    }
    ValueDepth(raw, DEPTH_LIMIT, DEPTH_LIMIT);
    NumbersRead(raw, DEPTH_LIMIT);
    ConvertIsCanonical(c, t);
    if PythonJson(v) == raw {
      ParsePrinted(AsIs, v);
      PrintedTight(AsIs, v, "");
      assert PythonJson(v) + "" == raw;
      EmptyTight();
      SettledIsCanonical(c, v);
    }
  }

  lemma EmptyTight()
    ensures Tight("")
  {}

  // ----- what parsing yields is canonical -----

  /** Every number is spelled as JSON spells numbers. */
  predicate Numbered(t: Tree)
    decreases t, 0
  {
    match t
    case Number(lexeme) => IsNumber(lexeme)
    case Array(items) => NumberedItems(items)
    case Object(members) => NumberedMembers(members)
    case _ => true
  }

  predicate NumberedItems(items: seq<Tree>)
    decreases items, 0
  {
    items != [] ==> Numbered(items[0]) && NumberedItems(items[1..])
  }

  predicate NumberedMembers(members: seq<Member>)
    decreases members, 0
  {
    members != [] ==> (assert members[0].value < members[0]; Numbered(members[0].value)) && NumberedMembers(members[1..])
  }

  lemma ScalarNumber(t: string)
    requires ReadScalar(t).Some?
    ensures Numbered(ReadScalar(t).value.value)
  {
    var r := ReadScalar(t).value;
    if r.value.Number? {
      var n := NumberLength(Start, t).value;
      NumberMoves(Start, t, n, t[..n]);
    }
  }

  lemma {:induction false} NumbersRead(s: string, depth: nat)
    requires ReadValue(s, depth).Some?
    ensures Numbered(ReadValue(s, depth).value.value)
    decreases |s|, 1
  {
    hide StringBody, ReadArray, ReadObject, ReadScalar, SkipSpace;
    var t := SkipSpace(s);
    if t[0] == '[' {
      ArrayNumbers(t[1..], depth - 1);
    } else if t[0] == '{' {
      ObjectNumbers(t[1..], depth - 1);
    } else if t[0] != '"' {
      ScalarNumber(t);
    }
  }

  lemma {:induction false} ArrayNumbers(s: string, depth: nat)
    requires ReadArray(s, depth).Some?
    ensures Numbered(ReadArray(s, depth).value.value)
    decreases |s|, 3
  {
    hide ReadItems, SkipSpace;
    var t := SkipSpace(s);
    if !(t != "" && t[0] == ']') { ItemNumbers(s, depth); }
  }

  lemma {:induction false} ItemNumbers(s: string, depth: nat)
    requires ReadItems(s, depth).Some?
    ensures NumberedItems(ReadItems(s, depth).value.value)
    decreases |s|, 2
  {
    hide ReadValue, SkipSpace, Numbered;
    NumbersRead(s, depth);
    var first := ReadValue(s, depth).value;
    var t := SkipSpace(first.rest);
    var v := ReadItems(s, depth).value.value;
    if t[0] == ',' {
      ItemNumbers(t[1..], depth);
      assert v[1..] == ReadItems(t[1..], depth).value.value;
    } else {
      assert v[1..] == [];
    }
  }

  lemma {:induction false} ObjectNumbers(s: string, depth: nat)
    requires ReadObject(s, depth).Some?
    ensures Numbered(ReadObject(s, depth).value.value)
    decreases |s|, 3
  {
    hide ReadMembers, SkipSpace;
    var t := SkipSpace(s);
    if !(t != "" && t[0] == '}') { MemberNumbers(s, depth); }
  }

  lemma {:induction false} MemberNumbers(s: string, depth: nat)
    requires ReadMembers(s, depth).Some?
    ensures NumberedMembers(ReadMembers(s, depth).value.value)
    decreases |s|, 2
  {
    hide ReadKey, ReadValue, SkipSpace, Numbered;
    var key := ReadKey(s).value;
    NumbersRead(key.rest, depth);
    var value := ReadValue(key.rest, depth).value;
    var t := SkipSpace(value.rest);
    var v := ReadMembers(s, depth).value.value;
    if t[0] == ',' {
      MemberNumbers(t[1..], depth);
      assert v[1..] == ReadMembers(t[1..], depth).value.value;
    } else {
      assert v[1..] == [];
    }
  }

  /** Parsing yields a value of JSON numbers and distinct keys that nests no
      deeper than the text. */
  lemma {:induction false} ConvertIsCanonical(c: Canon, t: Tree)
    requires NumbersStayNumbers(c) && Numbered(t) && Convert(c, t).Some?
    ensures Canonical(AsIs, Convert(c, t).value) && Nesting(Convert(c, t).value) <= Nesting(t)
    decreases t, 0
  {
    match t
    case Array(items) => ItemsCanonicalized(c, items);
    case Object(members) =>
      NumberedAt(members);
      ConvertedAt(c, members);
      forall m | m in members ensures Canonical(AsIs, Convert(c, m.value).value) && Nesting(Convert(c, m.value).value) <= Nesting(m.value) {
        ConvertIsCanonical(c, m.value);
      }
      MembersCanonicalized(c, members);
    case _ =>
  }

  lemma {:induction false} ItemsCanonicalized(c: Canon, items: seq<Tree>)
    requires NumbersStayNumbers(c) && NumberedItems(items) && ConvertItems(c, items).Some?
    ensures CanonicalItems(AsIs, ConvertItems(c, items).value) && DeepestItem(ConvertItems(c, items).value) <= DeepestItem(items)
    decreases items, 0
  {
    hide NumbersStayNumbers, Numbered, Canonical, Nesting, Convert;
    if items != [] {
      ConvertIsCanonical(c, items[0]);
      ItemsCanonicalized(c, items[1..]);
      var v := ConvertItems(c, items).value;
      assert v[0] == Convert(c, items[0]).value && v[1..] == ConvertItems(c, items[1..]).value;
    }
  }

  lemma {:induction false} NumberedAt(members: seq<Member>)
    requires NumberedMembers(members)
    ensures forall m :: m in members ==> Numbered(m.value)
    decreases |members|
  {
    hide Numbered;
    if members != [] {
      NumberedAt(members[1..]);
      assert members == [members[0]] + members[1..];
    }
  }

  lemma {:induction false} ConvertedAt(c: Canon, members: seq<Member>)
    requires ConvertMembers(c, members).Some?
    ensures forall m :: m in members ==> Convert(c, m.value).Some?
    decreases |members|
  {
    hide Convert, Insert;
    if members != [] {
      var n := |members| - 1;
      ConvertedAt(c, members[..n]);
      assert members == members[..n] + [members[n]];
    }
  }

  lemma {:induction false} MembersCanonicalized(c: Canon, members: seq<Member>)
    requires ConvertMembers(c, members).Some?
    requires forall m :: m in members ==>
      (Convert(c, m.value).Some? && Canonical(AsIs, Convert(c, m.value).value) && Nesting(Convert(c, m.value).value) <= Nesting(m.value))
    ensures CanonicalMembers(AsIs, ConvertMembers(c, members).value)
    ensures DeepestMember(ConvertMembers(c, members).value) <= DeepestMember(members)
    decreases |members|
  {
    hide Convert, Canonical, Nesting, Insert;
    if members != [] {
      var n := |members| - 1;
      var front, last := members[..n], members[n];
      assert members == front + [last];
      MembersCanonicalized(c, front);
      InsertCanonical(AsIs, ConvertMembers(c, front).value, Member(last.key, Convert(c, last.value).value));
      DeepestSnoc(front, last);
    }
  }

  lemma {:induction false} DeepestSnoc(members: seq<Member>, m: Member)
    ensures DeepestMember(members + [m]) >= DeepestMember(members) && DeepestMember(members + [m]) >= Nesting(m.value)
    decreases |members|
  {
    hide Nesting;
    if members != [] {
      DeepestSnoc(members[1..], m);
      assert (members + [m])[1..] == members[1..] + [m];
    }
  }

  function Keys(members: seq<Member>): set<string> {
    set i | 0 <= i < |members| :: members[i].key
  }

  lemma KeysCons(m: Member, rest: seq<Member>)
    ensures Keys([m] + rest) == {m.key} + Keys(rest)
    ensures (forall i :: 1 <= i < |[m] + rest| ==> ([m] + rest)[i].key != m.key) <==> m.key !in Keys(rest)
  {
    var all := [m] + rest;
    assert forall i :: 1 <= i < |all| ==> all[i] == rest[i - 1];
    assert forall i :: 0 <= i < |rest| ==> rest[i] == all[i + 1];
    forall k | k in {m.key} + Keys(rest) ensures k in Keys(all) {
      if k == m.key { assert all[0].key == k; } else {
        var i :| 0 <= i < |rest| && rest[i].key == k;
        assert all[i + 1].key == k;
      }
    }
  }

  lemma {:induction false} InsertCanonical(c: Canon, members: seq<Member>, m: Member)
    requires CanonicalMembers(c, members) && Canonical(c, m.value)
    ensures CanonicalMembers(c, Insert(members, m))
    ensures Keys(Insert(members, m)) == Keys(members) + {m.key}
    ensures DeepestMember(Insert(members, m)) <=
      if DeepestMember(members) > Nesting(m.value) then DeepestMember(members) else Nesting(m.value)
    decreases |members|
  {
    hide Canonical, Nesting, Keys;
    if members == [] {
      KeysCons(m, []);
      assert [m] + [] == [m];
    } else {
      var rest := members[1..];
      KeysCons(members[0], rest);
      assert [members[0]] + rest == members;
      if members[0].key == m.key {
        KeysCons(m, rest);
        assert ([m] + rest)[1..] == rest;
      } else {
        InsertCanonical(c, rest, m);
        var after := Insert(rest, m);
        KeysCons(members[0], after);
        assert ([members[0]] + after)[1..] == after;
      }
    }
  }

  // ----- a value that parsing leaves alone is canonical -----

  /** Members without repeated keys are parsed each in its own place. */
  lemma {:induction false} ConvertedInPlace(c: Canon, members: seq<Member>)
    requires ConvertMembers(c, members).Some?
    requires forall i, j :: 0 <= i < j < |members| ==> members[j].key != members[i].key
    ensures |ConvertMembers(c, members).value| == |members|
    ensures forall i :: 0 <= i < |members| ==>
      (Convert(c, members[i].value).Some?
       && ConvertMembers(c, members).value[i] == Member(members[i].key, Convert(c, members[i].value).value))
    decreases |members|
  {
    hide Convert, Insert;
    if members != [] {
      var n := |members| - 1;
      var front, last := members[..n], members[n];
      ConvertedInPlace(c, front);
      InsertNew(ConvertMembers(c, front).value, Member(last.key, Convert(c, last.value).value));
      assert members == front + [last];
    }
  }

  lemma {:induction false} DistinctCanonical(c: Canon, members: seq<Member>)
    requires forall i :: 0 <= i < |members| ==> Canonical(c, members[i].value)
    requires forall i, j :: 0 <= i < j < |members| ==> members[j].key != members[i].key
    ensures CanonicalMembers(c, members)
    decreases |members|
  {
    hide Canonical;
    if members != [] { DistinctCanonical(c, members[1..]); }
  }

  /** A value of JSON numbers and distinct keys that parsing leaves alone holds
      only numbers that parsing leaves alone. */
  lemma {:induction false} SettledIsCanonical(c: Canon, t: Tree)
    requires Convert(c, t) == Some(t) && Canonical(AsIs, t)
    ensures Canonical(c, t)
    decreases t, 0
  {
    match t
    case Array(items) => SettledItems(c, items);
    case Object(members) =>
      CanonicalAt(AsIs, members);
      ConvertedInPlace(c, members);
      forall i | 0 <= i < |members| ensures Canonical(c, members[i].value) {
        assert members[i] in members;
        SettledIsCanonical(c, members[i].value);
      }
      DistinctCanonical(c, members);
    case _ =>
  }

  lemma {:induction false} SettledItems(c: Canon, items: seq<Tree>)
    requires ConvertItems(c, items) == Some(items) && CanonicalItems(AsIs, items)
    ensures CanonicalItems(c, items)
    decreases items, 0
  {
    hide Convert, Canonical;
    if items != [] {
      var v := ConvertItems(c, items).value;
      assert v[0] == Convert(c, items[0]).value && v[1..] == ConvertItems(c, items[1..]).value;
      SettledIsCanonical(c, items[0]);
      SettledItems(c, items[1..]);
    }
  }

  // ----- the whole trip -----

  /** Two values between the same surroundings are equal, when the first holds
      no closing tag and the second does not go on after it. */
  lemma SameValue(a: string, b: string, moreA: string, moreB: string)
    requires a + ("\n" + (PARAMETER_CLOSE + moreA)) == b + ("\n" + (PARAMETER_CLOSE + moreB))
    requires !Contains(a, PARAMETER_CLOSE) && (a <= b ==> b == a)
    ensures a == b
  {
    hide Find, OccursAt, PARAMETER_CLOSE;
    var x, y := a + ("\n" + (PARAMETER_CLOSE + moreA)), b + ("\n" + (PARAMETER_CLOSE + moreB));
    Tags();
    TagHasNoNewline(PARAMETER_CLOSE);
    FindStart(PARAMETER_CLOSE, moreA);
    FindLine(a, PARAMETER_CLOSE + moreA, PARAMETER_CLOSE);
    assert Find(x, PARAMETER_CLOSE) == Some(|a| + 1);
    if |b| < |a| {
      CloseAfter(b, moreB);
      FindIsFirst(y, PARAMETER_CLOSE, |b| + 1);
    } else {
      assert x[..|a|] == a && y[..|a|] == b[..|a|];
    }
  }

  lemma CloseAfter(b: string, more: string)
    ensures OccursAt(b + ("\n" + (PARAMETER_CLOSE + more)), |b| + 1, PARAMETER_CLOSE)
  {
    hide PARAMETER_CLOSE;
    var y := b + ("\n" + (PARAMETER_CLOSE + more));
    assert y[|b| + 1..|b| + 1 + |PARAMETER_CLOSE|] == PARAMETER_CLOSE;
  }

  /** Rewriting never adds to a text: a re-printed container that starts with
      the text it was read from ends there. */
  lemma NeverLonger(c: Canon, raw: string, declared: Option<string>)
    requires NumbersStayNumbers(c) && raw <= Rewritten(c, raw, declared)
    ensures Rewritten(c, raw, declared) == raw
  {
    hide Trim, ParameterText, PrintString, NumbersStayNumbers, Convert, ReadValue, Canonical, PythonJson;
    RewrittenText(c, raw);
    TrimLength(raw);
    if declared != Some("string") && ParseText(c, raw).Some? && !ParseText(c, raw).value.Text? {
      RewrittenJson(c, raw, declared);
      if IsContainer(ParseText(c, raw).value) { PrintedNotLonger(c, raw); }
    }
  }

  lemma TrimLength(s: string)
    ensures |Trim(s)| <= |s|
  {}

  lemma PrintedNotLonger(c: Canon, raw: string)
    requires NumbersStayNumbers(c) && ParseText(c, raw).Some? && IsContainer(ParseText(c, raw).value)
    requires raw <= PythonJson(ParseText(c, raw).value)
    ensures PythonJson(ParseText(c, raw).value) == raw
  {
    hide ReadValue, Convert, PythonJson, Canonical, NumbersStayNumbers, Nesting, Suffix;
    var v, t := ParseText(c, raw).value, Json.ReadText(raw, DEPTH_LIMIT).value;
    var b := PythonJson(v);
    ValueDepth(raw, DEPTH_LIMIT, DEPTH_LIMIT);
    NumbersRead(raw, DEPTH_LIMIT);
    ConvertIsCanonical(c, t);
    ConvertKind(c, t);
    ValuePrinted(AsIs, v, DEPTH_LIMIT, "");
    assert b + "" == b;
    var rest := ReadValue(raw, DEPTH_LIMIT).value.rest;
    var e := Cut(raw, rest);
    ValueMoves(raw, DEPTH_LIMIT, b[|e|..]);
    assert e <= b;
    assert e + b[|e|..] == b;
  }

  /** Equal lines of parameters with equal keys have equal texts. */
  lemma {:induction false} SameLines(a: seq<Parameter>, b: seq<Parameter>, tail: string)
    requires |a| == |b| && Lines(a, tail) == Lines(b, tail)
    requires forall i :: 0 <= i < |a| ==>
      a[i].key == b[i].key && !Contains(a[i].text, PARAMETER_CLOSE) && (a[i].text <= b[i].text ==> b[i].text == a[i].text)
    ensures a == b
    decreases |a|
  {
    hide Find, Head, PARAMETER_CLOSE, Contains;
    if a != [] {
      var p, q := a[0], b[0];
      var x, y := "\n" + Lines(a[1..], tail), "\n" + Lines(b[1..], tail);
      SameHead(p, q);
      SamePrefix(Head(p), "\n" + (p.text + ("\n" + (PARAMETER_CLOSE + x))), "\n" + (q.text + ("\n" + (PARAMETER_CLOSE + y))));
      SamePrefix("\n", p.text + ("\n" + (PARAMETER_CLOSE + x)), q.text + ("\n" + (PARAMETER_CLOSE + y)));
      SameValue(p.text, q.text, x, y);
      SamePrefix(p.text, "\n" + (PARAMETER_CLOSE + x), "\n" + (PARAMETER_CLOSE + y));
      SamePrefix("\n", PARAMETER_CLOSE + x, PARAMETER_CLOSE + y);
      SamePrefix(PARAMETER_CLOSE, x, y);
      SamePrefix("\n", Lines(a[1..], tail), Lines(b[1..], tail));
      forall i | 0 <= i < |a[1..]|
        ensures a[1..][i].key == b[1..][i].key && !Contains(a[1..][i].text, PARAMETER_CLOSE)
        ensures a[1..][i].text <= b[1..][i].text ==> b[1..][i].text == a[1..][i].text
      {
        assert a[1..][i] == a[i + 1] && b[1..][i] == b[i + 1];
      }
      SameLines(a[1..], b[1..], tail);
      assert a == [a[0]] + a[1..] && b == [b[0]] + b[1..];
    }
  }

  lemma SameHead(p: Parameter, q: Parameter)
    requires p.key == q.key
    ensures Head(p) == Head(q)
  {}

  lemma SamePrefix(a: string, x: string, y: string)
    requires a + x == a + y
    ensures x == y
  {
    assert (a + x)[|a|..] == x && (a + y)[|a|..] == y;
  }

  lemma SameMarkup(a: Call, b: Call)
    requires a.name == b.name && Markup(a) == Markup(b)
    ensures Lines(a.parameters, FUNCTION_CLOSE + ("\n" + CALL_CLOSE)) == Lines(b.parameters, FUNCTION_CLOSE + ("\n" + CALL_CLOSE))
  {
    hide CALL_OPEN, CALL_CLOSE, FUNCTION_CLOSE, NameLine, Lines;
    var tail := FUNCTION_CLOSE + ("\n" + CALL_CLOSE);
    var x, y := Lines(a.parameters, tail), Lines(b.parameters, tail);
    SamePrefix(CALL_OPEN, Inside(a, CALL_CLOSE), Inside(b, CALL_CLOSE));
    SamePrefix("\n", NameLine(a.name) + ("\n" + x), NameLine(b.name) + ("\n" + y));
    SamePrefix(NameLine(a.name), "\n" + x, "\n" + y);
    SamePrefix("\n", x, y);
  }

  /** The rewritten parameters make the same markup only by being the same. */
  lemma MarkupKeepsTexts(c: Canon, call: Call, types: map<string, string>)
    requires NumbersStayNumbers(c) && forall p :: p in call.parameters ==> !Contains(p.text, PARAMETER_CLOSE)
    ensures Markup(Call(call.name, RewrittenAll(c, call.parameters, types))) == Markup(call)
      <==> RewrittenAll(c, call.parameters, types) == call.parameters
  {
    hide Markup, Rewritten, NumbersStayNumbers, Lines, Contains;
    var ps, back := call.parameters, RewrittenAll(c, call.parameters, types);
    if Markup(Call(call.name, back)) == Markup(call) {
      SameMarkup(call, Call(call.name, back));
      forall i | 0 <= i < |ps|
        ensures ps[i].key == back[i].key && !Contains(ps[i].text, PARAMETER_CLOSE)
        ensures ps[i].text <= back[i].text ==> back[i].text == ps[i].text
      {
        assert ps[i] in ps;
        if ps[i].text <= back[i].text { NeverLonger(c, ps[i].text, Declared(types, ps[i].key)); }
      }
      SameLines(ps, back, FUNCTION_CLOSE + ("\n" + CALL_CLOSE));
    }
    assert Call(call.name, ps) == call;
  }

  lemma RewrittenIffAllFaithful(c: Canon, parameters: seq<Parameter>, types: map<string, string>)
    requires NumbersStayNumbers(c)
    ensures RewrittenAll(c, parameters, types) == parameters
      <==> forall i :: 0 <= i < |parameters| ==> Faithful(c, parameters[i].text, Declared(types, parameters[i].key))
  {
    hide Rewritten, Faithful, NumbersStayNumbers;
    var back := RewrittenAll(c, parameters, types);
    forall i | 0 <= i < |parameters|
      ensures back[i] == parameters[i] <==> Faithful(c, parameters[i].text, Declared(types, parameters[i].key))
    {
      RewrittenIffFaithful(c, parameters[i].text, Declared(types, parameters[i].key));
    }
  }

  /** Parse, then encode, then render: the call's markup comes back exactly when
      every parameter's text is faithful. */
  lemma RoundTrip(c: Canon, call: Call, types: map<string, string>)
    requires NumbersStayNumbers(c) && WellTagged(call)
    ensures Parse(Markup(call)) == ("", [call])
    ensures Render(c, call.name, ArgumentsJson(c, call, types)) == Markup(call)
      <==> forall i :: 0 <= i < |call.parameters| ==>
        Faithful(c, call.parameters[i].text, Declared(types, call.parameters[i].key))
  {
    hide Markup, Render, RewrittenAll, Faithful, NumbersStayNumbers, GoodParameter, Parse, ArgumentsJson;
    MarkupParses(call);
    RenderArguments(c, call, types);
    GoodLines(call.parameters);
    MarkupKeepsTexts(c, call, types);
    RewrittenIffAllFaithful(c, call.parameters, types);
  }

  lemma StemOfFunction()
    ensures EndsWith("a</function", Stem(FUNCTION_CLOSE)) && PlainName("a</function")
    ensures !Contains("v", FUNCTION_CLOSE) && !Contains("v", CALL_CLOSE) && !Contains("v", PARAMETER_CLOSE)
  {
    hide Find;
    assert "a</function"[1..] == Stem(FUNCTION_CLOSE);
    Finds("v", FUNCTION_CLOSE);
    Finds("v", CALL_CLOSE);
    Finds("v", PARAMETER_CLOSE);
  }

  /** A name or key without `>` and without outer blanks is not enough: a key
      may still end in the stem of a closing tag, and then its own `>` closes
      the function early. */
  lemma KeyEndingInStem()
    ensures
      var call := Call("f", [Parameter("a</function", "v")]);
      && PlainName("a</function") && !Contains("v", FUNCTION_CLOSE) && !Contains("v", CALL_CLOSE) && !Contains("v", PARAMETER_CLOSE)
      && FirstCall(Markup(call)) != Some(call)
  {
    hide Markup, FirstCall, Contains, EndsWith, PlainName, FUNCTION_CLOSE, CALL_CLOSE, PARAMETER_CLOSE;
    var call := Call("f", [Parameter("a</function", "v")]);
    StemOfFunction();
    assert call.parameters[0] in call.parameters && !GoodParameter(call.parameters[0]);
    MarkupParses(call);
  }

  // ----- what a client's re-serialisation can change -----

  /** The values whose text the renderer does not depend on: containers it can
      parse, and everything that is not a container. */
  predicate Accepted(c: Canon, v: Tree) {
    IsContainer(v) ==> Nesting(v) < DEPTH_LIMIT && Convert(c, v).Some?
  }

  lemma ScalarSpelling(text: string, v: Tree, depth: nat)
    requires Spells(text, v, depth) && !v.Text? && !IsContainer(v)
    ensures text == if v.Null? then "null" else if v.Bool? then if v.truth then "true" else "false" else v.lexeme
  {
    hide StringBody, ReadArray, ReadObject, NumberLength;
    assert SkipSpace(text) == text;
    FirstChar(text, v, depth);
    assert text == text[..|text|];
  }

  /** Any two spellings of an accepted value render alike. */
  lemma SameTreeSameText(c: Canon, a: string, b: string, v: Tree, depthA: nat, depthB: nat)
    requires Spells(a, v, depthA) && Spells(b, v, depthB) && Accepted(c, v)
    ensures ParameterText(c, a) == ParameterText(c, b)
  {
    hide Spells, PythonJson, Convert, Nesting, StringText, Json.ReadText;
    SpellsStart(a, v, depthA);
    SpellsStart(b, v, depthB);
    if v.Text? {
      SpelledText(a, v, depthA);
      SpelledText(b, v, depthB);
    } else if IsContainer(v) {
      ContainerText(c, a, v, depthA);
      ContainerText(c, b, v, depthB);
    } else {
      ScalarSpelling(a, v, depthA);
      ScalarSpelling(b, v, depthB);
    }
  }

  lemma SpellsStart(text: string, v: Tree, depth: nat)
    requires Spells(text, v, depth)
    ensures text != "" && (v.Text? <==> text[0] == '"') && (IsContainer(v) <==> text[0] == '[' || text[0] == '{')
  {
    hide ReadValue;
    FirstChar(text, v, depth);
  }

  lemma SpelledText(text: string, v: Tree, depth: nat)
    requires Spells(text, v, depth) && v.Text?
    ensures StringText(text) == Some(v.text)
  {
    hide StringBody, ReadArray, ReadObject, ReadScalar;
    assert SkipSpace(text) == text;
    FirstChar(text, v, depth);
    NoBlank();
  }

  /** A container's text parses exactly when the value is accepted. */
  lemma ContainerText(c: Canon, text: string, v: Tree, depth: nat)
    requires Spells(text, v, depth) && IsContainer(v)
    ensures ParseText(c, text) == if Nesting(v) < DEPTH_LIMIT then Convert(c, v) else None
  {
    hide ReadValue, Convert, Nesting;
    NoBlank();
    ContainerDepth(text, v, depth);
    ValueDepth(text, depth, DEPTH_LIMIT);
    if ReadValue(text, DEPTH_LIMIT).Some? { ValueDepth(text, DEPTH_LIMIT, depth); }
  }

  lemma ContainerDepth(text: string, v: Tree, depth: nat)
    requires Spells(text, v, depth) && IsContainer(v)
    ensures depth > 1
  {
    hide StringBody, ReadArray, ReadObject, ReadScalar;
    assert SkipSpace(text) == text;
    FirstChar(text, v, depth);
  }

  /** Two argument texts with the same structure — whatever the blanks between
      tokens and the choice of string escapes — render to the same bytes. */
  lemma RenderBySyntax(c: Canon, name: string, a: string, b: string, depthA: nat, depthB: nat, members: seq<Member>)
    requires Json.ReadText(a, depthA) == Some(Object(members)) && Json.ReadText(b, depthB) == Some(Object(members))
    requires forall m :: m in members ==> Accepted(c, m.value)
    ensures Render(c, name, a) == Render(c, name, b)
  {
    hide Json.ReadText, ParameterText, Markup, Spells, Accepted, ObjectMembers;
    var fa := MembersFound(a, depthA);
    var fb := MembersFound(b, depthB);
    forall i | 0 <= i < |fa| ensures ParameterText(c, fa[i].text) == ParameterText(c, fb[i].text) {
      assert members[i] in members;
      SameTreeSameText(c, fa[i].text, fb[i].text, members[i].value, depthA - 1, depthB - 1);
    }
    assert Shown(c, fa) == Shown(c, fb);
  }

  /** A blank after the opening bracket is another spelling of a container. */
  lemma SpacedSpelling(text: string, v: Tree, depth: nat)
    requires Spells(text, v, depth) && IsContainer(v)
    ensures Spells([text[0]] + (" " + text[1..]), v, depth)
  {
    hide StringBody, ReadItems, ReadMembers, ReadScalar;
    var other := [text[0]] + (" " + text[1..]);
    FirstChar(text, v, depth);
    assert SkipSpace(text) == text && SkipSpace(other) == other;
    assert other[1..] == " " + text[1..];
    if text[0] == '[' { SpacedArray(text[1..], depth - 1); } else { SpacedObject(text[1..], depth - 1); }
  }

  lemma SpacedArray(s: string, depth: nat)
    requires ReadArray(s, depth).Some?
    ensures ReadArray(" " + s, depth) == ReadArray(s, depth)
  {
    hide ReadValue;
    var x := " " + s;
    assert x[1..] == s && SkipSpace(x) == SkipSpace(s);
    if ReadItems(s, depth).Some? { SpaceBefore(s, depth); assert [' '] + s == x; }
  }

  lemma SpacedObject(s: string, depth: nat)
    requires ReadObject(s, depth).Some?
    ensures ReadObject(" " + s, depth) == ReadObject(s, depth)
  {
    hide ReadMembers;
    var x := " " + s;
    assert x[1..] == s && SkipSpace(x) == SkipSpace(s);
    if ReadMembers(s, depth).Some? { KeySpaceBefore(s, depth); assert [' '] + s == x; }
  }

  /** And only those: a container the parser refuses, nested too deep or with a
      number out of range, is copied, so its spacing reaches the markup. For any
      spelling `a` of an object with such a member there is another that renders
      differently. */
  lemma SpellingMatters(c: Canon, name: string, a: string, depth: nat, members: seq<Member>, i: nat) returns (b: string)
    requires Json.ReadText(a, depth) == Some(Object(members)) && i < |members| && !Accepted(c, members[i].value)
    ensures Json.ReadText(b, depth) == Some(Object(members)) && Render(c, name, a) != Render(c, name, b)
  {
    hide Json.ReadText, Spells, ObjectMembers, Convert, Nesting, ObjectText, Markup, StringText, SpellsOne;
    var fa := MembersFound(a, depth);
    var text, v := fa[i].text, members[i].value;
    SpellsStart(text, v, depth - 1);
    var other := [text[0]] + (" " + text[1..]);
    SpacedSpelling(text, v, depth - 1);
    ContainerText(c, text, v, depth - 1);
    ContainerText(c, other, v, depth - 1);
    var fb := fa[i := Field(fa[i].key, other)];
    b := ObjectText(fb);
    ObjectReads(fb, members, depth - 1);
    forall f | f in fb ensures SpellsOne(f.text) {
      var j :| 0 <= j < |fb| && fb[j] == f;
      SpellsIsOne(f.text, members[j].value, depth - 1);
    }
    JoinedScanned(fb);
    OneLonger(c, name, fa, fb, i);
  }

  lemma OneLonger(c: Canon, name: string, a: seq<Field>, b: seq<Field>, i: nat)
    requires i < |a| == |b| && (forall j :: 0 <= j < |a| && j != i ==> a[j] == b[j])
    requires a[i].key == b[i].key && |ParameterText(c, b[i].text)| == |ParameterText(c, a[i].text)| + 1
    ensures Markup(Call(name, Shown(c, a))) != Markup(Call(name, Shown(c, b)))
  {
    hide ParameterText, Lines, CALL_OPEN, CALL_CLOSE, FUNCTION_CLOSE, NameLine;
    var x, y := Call(name, Shown(c, a)), Call(name, Shown(c, b));
    var tail := FUNCTION_CLOSE + ("\n" + CALL_CLOSE);
    LongerLines(x.parameters, y.parameters, i, tail);
    assert |Markup(x)| - |Lines(x.parameters, tail)| == |Markup(y)| - |Lines(y.parameters, tail)|;
  }

  /** One text longer by a character makes the lines so. */
  lemma {:induction false} LongerLines(a: seq<Parameter>, b: seq<Parameter>, i: nat, tail: string)
    requires i < |a| == |b| && (forall j :: 0 <= j < |a| && j != i ==> a[j] == b[j])
    requires a[i].key == b[i].key && |b[i].text| == |a[i].text| + 1
    ensures |Lines(b, tail)| == |Lines(a, tail)| + 1
    decreases |a|
  {
    hide PARAMETER_OPEN, PARAMETER_CLOSE;
    if i == 0 {
      assert a[1..] == b[1..];
    } else {
      assert a[0] == b[0];
      LongerLines(a[1..], b[1..], i - 1, tail);
    }
  }

  /** Every spelling of the object renders like this one. */
  ghost predicate SpellingIgnored(c: Canon, name: string, a: string, members: seq<Member>) {
    forall b: string, depth: nat :: Json.ReadText(b, depth) == Some(Object(members)) ==> Render(c, name, b) == Render(c, name, a)
  }

  /** The renderer ignores how an object is spelled exactly when it can parse
      every container among its members. */
  lemma RenderBySyntaxIff(c: Canon, name: string, a: string, depth: nat, members: seq<Member>)
    requires Json.ReadText(a, depth) == Some(Object(members))
    ensures SpellingIgnored(c, name, a, members) <==> forall m :: m in members ==> Accepted(c, m.value)
  {
    hide Json.ReadText, Render, Accepted;
    if forall m :: m in members ==> Accepted(c, m.value) {
      forall b: string, d: nat | Json.ReadText(b, d) == Some(Object(members)) ensures Render(c, name, b) == Render(c, name, a) {
        RenderBySyntax(c, name, a, b, depth, d, members);
      }
    } else {
      var m :| m in members && !Accepted(c, m.value);
      var i :| 0 <= i < |members| && members[i] == m;
      var b := SpellingMatters(c, name, a, depth, members, i);
    }
  }

  /** `n` arrays around an empty one. */
  function Nest(n: nat): Tree { if n == 0 then Array([]) else Array([Nest(n - 1)]) }

  lemma {:induction false} NestIs(c: Canon, n: nat)
    ensures Canonical(c, Nest(n)) && Nesting(Nest(n)) == n + 1
    decreases n
  {
    if n > 0 {
      NestIs(c, n - 1);
      var items := [Nest(n - 1)];
      assert items[1..] == [] && DeepestItem(items) == n && CanonicalItems(c, items);
    } else {
      assert DeepestItem([]) == 0;
    }
  }

  lemma NestSpells(c: Canon, n: nat)
    ensures Spells(PythonJson(Nest(n)), Nest(n), n + 2)
  {
    hide ReadValue, PythonJson, Nesting, Canonical;
    var t := Nest(n);
    NestIs(c, n);
    ValuePrinted(c, t, n + 2, "");
    assert PythonJson(t) + "" == PythonJson(t);
    PrintedStart(c, t);
  }

  /** Arguments whose value is a hundred and twenty-eight nested arrays: two
      spellings of the one object render differently. */
  lemma DeepArgumentShowsSpelling(c: Canon, name: string, key: string) returns (b: string)
    ensures
      var a, members := ObjectText([Field(key, PythonJson(Nest(127)))]), [Member(key, Nest(127))];
      && Json.ReadText(a, 130) == Some(Object(members)) == Json.ReadText(b, 130)
      && Render(c, name, a) != Render(c, name, b)
  {
    hide Json.ReadText, Nest, PythonJson, ObjectText, Render, Spells, Nesting, Convert;
    var f, members := Field(key, PythonJson(Nest(127))), [Member(key, Nest(127))];
    NestIs(c, 127);
    NestSpells(c, 127);
    NestIsContainer(127);
    ObjectReads([f], members, 129);
    b := SpellingMatters(c, name, ObjectText([f]), 130, members, 0);
  }

  lemma NestIsContainer(n: nat)
    ensures IsContainer(Nest(n))
  {}

  // ----- values that do not come back -----

  lemma EmptyArrayReads()
    ensures Json.ReadText("[ ]", DEPTH_LIMIT) == Some(Array([]))
  {
    var s := "[ ]";
    assert s[1..] == " ]" && " ]"[1..] == "]" && "]"[1..] == "";
    assert SkipSpace(s) == s && SkipSpace(" ]") == SkipSpace("]") == "]" && SkipSpace("") == "";
    assert ReadArray(" ]", DEPTH_LIMIT - 1) == Some(Read(Array([]), ""));
    assert ReadValue(s, DEPTH_LIMIT) == Some(Read(Array([]), ""));
  }

  lemma TrueReads()
    ensures ReadScalar("true") == Some(Read(Bool(true), ""))
  {
    hide NumberLength;
    assert "true"[4..] == "" && "true"[0] == 't';
    assert !("null" <= "true") by { assert "null"[0] == 'n'; }
  }

  lemma PaddedTrueReads()
    ensures Json.ReadText(" true", DEPTH_LIMIT) == Some(Bool(true))
  {
    hide ReadScalar, ReadArray, ReadObject, StringBody;
    TrueReads();
    var s := " true";
    assert s[1..] == "true" && "true"[0] == 't';
    assert SkipSpace("true") == "true" && SkipSpace(s) == SkipSpace(s[1..]) && SkipSpace("") == "";
  }

  lemma PaddedTrueTrims()
    ensures Trim(" true") == "true"
  {
    hide Trim;
    assert " " + "true" + "" == " true";
    TrimOf(" ", "true", "");
  }

  lemma PlainValue(text: string)
    requires '<' !in text
    ensures !Contains(text, PARAMETER_CLOSE) && !Contains(text, FUNCTION_CLOSE) && !Contains(text, CALL_CLOSE)
  {
    hide Find, OccursAt;
    NoTag(text, PARAMETER_CLOSE);
    NoTag(text, FUNCTION_CLOSE);
    NoTag(text, CALL_CLOSE);
  }

  lemma NoTag(text: string, tag: string)
    requires '<' !in text && tag != "" && tag[0] == '<'
    ensures !Contains(text, tag)
  {
    hide Find, OccursAt;
    Finds(text, tag);
    if Contains(text, tag) { CharAtOffset(text, Find(text, tag).value, tag, 0); }
  }

  /** Well-tagged calls whose values do not come back: a container with a blank
      of its own, and a scalar with a blank before it. */
  lemma LooseValuesChange(c: Canon, text: string)
    requires text == "[ ]" || text == " true"
    ensures
      var call := Call("f", [Parameter("k", text)]);
      && WellTagged(call) && !Faithful(c, text, None)
      && Render(c, "f", ArgumentsJson(c, call, map[])) != Markup(call)
  {
    hide Markup, Render, ArgumentsJson, Trim, Json.ReadText, Contains, EndsWith, PARAMETER_CLOSE, FUNCTION_CLOSE, CALL_CLOSE, Find;
    var call := Call("f", [Parameter("k", text)]);
    EmptyArrayReads();
    PaddedTrueReads();
    PaddedTrueTrims();
    PlainValue(text);
    ShortNames();
    RewrittenJson(c, text, None);
    RenderArguments(c, call, map[]);
    LooseIsNotTight();
    var back := RewrittenAll(c, call.parameters, map[]);
    assert back == [Parameter("k", Rewritten(c, text, None))];
    Shorter(text);
    LongerMarkup("k", Rewritten(c, text, None), text);
  }

  lemma ShortNames()
    ensures PlainName("f") && !EndsWith("f", Stem(CALL_CLOSE))
    ensures PlainName("k") && !EndsWith("k", Stem(FUNCTION_CLOSE)) && !EndsWith("k", Stem(CALL_CLOSE))
  {}

  lemma LooseIsNotTight()
    ensures !Tight("[ ]") && !Trimmed(" true") && PythonJson(Array([])) == "[]"
  {
    assert "[ ]"[1..] == " ]";
  }

  lemma Shorter(text: string)
    requires text == "[ ]" || text == " true"
    ensures |text| == (if text == "[ ]" then |"[]"| else |"true"|) + 1
  {}

  lemma LongerMarkup(key: string, a: string, b: string)
    requires |b| == |a| + 1
    ensures Markup(Call("f", [Parameter(key, a)])) != Markup(Call("f", [Parameter(key, b)]))
  {
    hide Lines, CALL_OPEN, CALL_CLOSE, FUNCTION_CLOSE, NameLine;
    var x, y := Call("f", [Parameter(key, a)]), Call("f", [Parameter(key, b)]);
    var tail := FUNCTION_CLOSE + ("\n" + CALL_CLOSE);
    LongerLines(x.parameters, y.parameters, 0, tail);
    assert |Markup(x)| - |Lines(x.parameters, tail)| == |Markup(y)| - |Lines(y.parameters, tail)|;
  }
}
