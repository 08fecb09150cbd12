/** Tool-call syntax: the tag parser, the encoder to JSON text, and the renderer
    that must bring back the bytes the model generated. */
module ToolCalls {
  import opened Wrappers
  import opened Texts
  import opened Json
  import opened JsonReading
  import opened JsonPrinting
  import opened ToolCallScan

  const CALL_OPEN := "<tool_call>"
  const CALL_CLOSE := "</tool_call>"
  const FUNCTION_OPEN := "<function="
  const FUNCTION_CLOSE := "</function>"
  const PARAMETER_OPEN := "<parameter="
  const PARAMETER_CLOSE := "</parameter>"

  datatype Parameter = Parameter(key: string, text: string)

  /** One call as the model wrote it: a name and its parameters as raw text. */
  datatype Call = Call(name: string, parameters: seq<Parameter>)

  // ----- parsing -----

  /** Drop the newline on each side that frames a value. */
  function Unframed(raw: string): string {
    var s := if raw != "" && raw[0] == '\n' then raw[1..] else raw;
    if s != "" && s[|s| - 1] == '\n' then s[..|s| - 1] else s
  }

  /** A parameter and what follows its closing tag. */
  function ParseParameter(cursor: string): (r: Option<Read<Parameter>>)
    ensures r.Some? ==> |r.value.rest| < |cursor|
  {
    var start := Find(cursor, PARAMETER_OPEN);
    if start.None? then None
    else
      var after := cursor[start.value + |PARAMETER_OPEN|..];
      var keyEnd := Find(after, ">");
      if keyEnd.None? then None
      else
        var valueText := after[keyEnd.value + 1..];
        var valueEnd := Find(valueText, PARAMETER_CLOSE);
        if valueEnd.None? then None
        else
          Some(Read(Parameter(Trim(after[..keyEnd.value]), Unframed(valueText[..valueEnd.value])),
                    valueText[valueEnd.value + |PARAMETER_CLOSE|..]))
  }

  function ParseParameters(cursor: string): seq<Parameter>
    decreases |cursor|
  {
    var first := ParseParameter(cursor);
    if first.None? then [] else [first.value.value] + ParseParameters(first.value.rest)
  }

  /** One block, from the text after its opening tag. */
  function ParseCall(body: string): Option<Call> {
    var open := Find(body, FUNCTION_OPEN);
    if open.None? then None
    else
      var afterOpen := body[open.value + |FUNCTION_OPEN|..];
      var nameEnd := Find(afterOpen, ">");
      if nameEnd.None? then None
      else
        var name, inner := Trim(afterOpen[..nameEnd.value]), afterOpen[nameEnd.value + 1..];
        var close := Find(inner, FUNCTION_CLOSE);
        if name == "" || close.None? then None
        else Some(Call(name, ParseParameters(inner[..close.value])))
  }

  /** The block after an opening tag, and the text after the block, if closed. */
  function Block(body: string): (r: (string, Option<string>))
    ensures r.1.Some? ==> |r.1.value| < |body|
  {
    var end := Find(body, CALL_CLOSE);
    if end.None? then (body, None) else (body[..end.value], Some(body[end.value + |CALL_CLOSE|..]))
  }

  function ParseBlocks(rest: string): seq<Call>
    decreases |rest|
  {
    var start := Find(rest, CALL_OPEN);
    if start.None? then []
    else
      var body := rest[start.value + |CALL_OPEN|..];
      var (block, after) := Block(body);
      CallIn(block) + if after.None? then [] else ParseBlocks(after.value)
  }

  /** The text meant for the user, and the calls it requested. */
  function Parse(text: string): (string, seq<Call>) {
    var first := Find(text, CALL_OPEN);
    if first.None? then (text, [])
    else
      var calls := ParseBlocks(text[first.value..]);
      if calls == [] then (text, []) else (TrimEnd(text[..first.value]), calls)
  }

  lemma Regroup<T>(a: seq<T>, b: seq<T>, c: seq<T>)
    ensures (a + b) + c == a + (b + c) && a + [] == a
  {}

  lemma ParametersStep(cursor: string)
    ensures
      var first := ParseParameter(cursor);
      ParseParameters(cursor) == if first.None? then [] else [first.value.value] + ParseParameters(first.value.rest)
  {}

  method ReadParameters(inner: string) returns (parameters: seq<Parameter>)
    ensures parameters == ParseParameters(inner)
  {
    hide Find, Trim, Unframed, ParseParameters, PARAMETER_OPEN, PARAMETER_CLOSE;
    parameters := [];
    var cursor := inner;
    while true
      invariant parameters + ParseParameters(cursor) == ParseParameters(inner)
      decreases |cursor|
    {
      ParametersStep(cursor);
      Regroup(parameters, [], []);
      var start := Find(cursor, PARAMETER_OPEN);
      if start.None? { return; }
      var after := cursor[start.value + |PARAMETER_OPEN|..];
      var keyEnd := Find(after, ">");
      if keyEnd.None? { return; }
      var key := Trim(after[..keyEnd.value]);
      var valueText := after[keyEnd.value + 1..];
      var valueEnd := Find(valueText, PARAMETER_CLOSE);
      if valueEnd.None? { return; }
      var parameter := Parameter(key, Unframed(valueText[..valueEnd.value]));
      cursor := valueText[valueEnd.value + |PARAMETER_CLOSE|..];
      Regroup(parameters, [parameter], ParseParameters(cursor));
      parameters := parameters + [parameter];
    }
  }

  method ReadCall(body: string) returns (call: Option<Call>)
    ensures call == ParseCall(body)
  {
    hide Find, Trim, ParseParameters;
    var open := Find(body, FUNCTION_OPEN);
    if open.None? { return None; }
    var afterOpen := body[open.value + |FUNCTION_OPEN|..];
    var nameEnd := Find(afterOpen, ">");
    if nameEnd.None? { return None; }
    var name := Trim(afterOpen[..nameEnd.value]);
    if name == "" { return None; }
    var inner := afterOpen[nameEnd.value + 1..];
    var close := Find(inner, FUNCTION_CLOSE);
    if close.None? { return None; }
    var parameters := ReadParameters(inner[..close.value]);
    call := Some(Call(name, parameters));
  }

  function CallIn(block: string): seq<Call> {
    if ParseCall(block).Some? then [ParseCall(block).value] else []
  }

  lemma BlocksStep(rest: string)
    ensures
      var start := Find(rest, CALL_OPEN);
      if start.None? then ParseBlocks(rest) == []
      else
        var (block, after) := Block(rest[start.value + |CALL_OPEN|..]);
        ParseBlocks(rest) == CallIn(block) + if after.None? then [] else ParseBlocks(after.value)
  {}

  method ReadBlocks(text: string) returns (calls: seq<Call>)
    ensures calls == ParseBlocks(text)
  {
    hide Find, ParseCall, Block, ParseBlocks, CALL_OPEN;
    calls := [];
    var rest := text;
    while true
      invariant calls + ParseBlocks(rest) == ParseBlocks(text)
      decreases |rest|
    {
      BlocksStep(rest);
      Regroup(calls, [], []);
      var start := Find(rest, CALL_OPEN);
      if start.None? { return; }
      var (block, after) := Block(rest[start.value + |CALL_OPEN|..]);
      var call := ReadCall(block);
      ghost var was := calls;
      if call.Some? { calls := calls + [call.value]; }
      Regroup(was, CallIn(block), []);
      if after.None? { return; }
      rest := after.value;
      Regroup(was, CallIn(block), ParseBlocks(rest));
    }
  }

  method ReadMarkup(text: string) returns (content: string, calls: seq<Call>)
    ensures (content, calls) == Parse(text)
  {
    hide Find, ParseBlocks, TrimEnd;
    var first := Find(text, CALL_OPEN);
    if first.None? { return text, []; }
    calls := ReadBlocks(text[first.value..]);
    if calls == [] { return text, []; }
    content := TrimEnd(text[..first.value]);
  }

  // ----- the template's markup -----

  function Head(p: Parameter): string { PARAMETER_OPEN + p.key + ">" }

  /** Each parameter on its own lines, then `tail`. */
  function Lines(parameters: seq<Parameter>, tail: string): string {
    if parameters == [] then tail
    else
      var p := parameters[0];
      Head(p) + ("\n" + (p.text + ("\n" + (PARAMETER_CLOSE + ("\n" + Lines(parameters[1..], tail))))))
  }

  function NameLine(name: string): string { FUNCTION_OPEN + name + ">" }

  /** What follows the opening tag, up to `end`. */
  function Inside(call: Call, end: string): string {
    "\n" + (NameLine(call.name) + ("\n" + Lines(call.parameters, FUNCTION_CLOSE + ("\n" + end))))
  }

  /** A call as the template writes it. */
  function Markup(call: Call): string { CALL_OPEN + Inside(call, CALL_CLOSE) }

  predicate EndsWith(s: string, e: string) { |e| <= |s| && s[|s| - |e|..] == e }

  /** A closing tag without its last character. */
  function Stem(tag: string): string
    requires tag != ""
  {
    tag[..|tag| - 1]
  }

  /** What makes a closing tag easy to tell from its surroundings. */
  predicate CloseTag(tag: string) {
    |tag| > 1 && tag[|tag| - 1] == '>' && '=' !in tag && '\n' !in tag && '>' !in Stem(tag)
  }

  lemma Tags()
    ensures CloseTag(CALL_CLOSE) && CloseTag(FUNCTION_CLOSE) && CloseTag(PARAMETER_CLOSE)
  {}

  /** A key or name survives its tag. */
  predicate PlainName(name: string) { '>' !in name && Trimmed(name) }

  predicate GoodParameter(p: Parameter) {
    && PlainName(p.key) && !EndsWith(p.key, Stem(FUNCTION_CLOSE)) && !EndsWith(p.key, Stem(CALL_CLOSE))
    && !Contains(p.text, PARAMETER_CLOSE) && !Contains(p.text, FUNCTION_CLOSE) && !Contains(p.text, CALL_CLOSE)
  }

  /** The calls the markup stands for unambiguously. A caller can check it: no
      name or key may hold `>` or outer blanks, or end in the stem of an
      enclosing closing tag, and no value may hold a closing tag. */
  predicate WellTagged(call: Call) {
    && call.name != "" && PlainName(call.name) && !EndsWith(call.name, Stem(CALL_CLOSE))
    && forall p :: p in call.parameters ==> GoodParameter(p)
  }

  // ----- searching the markup -----

  lemma {:induction false} FindMark(k: string, r: string)
    requires '>' !in k
    ensures Find(k + (">" + r), ">") == Some(|k|)
    decreases |k|
  {
    var text := k + (">" + r);
    if k == "" {
      assert text == ">" + r && ">" <= text;
    } else {
      FindMark(k[1..], r);
      assert text[1..] == k[1..] + (">" + r) && text[0] == k[0];
      assert !(">" <= text);
    }
  }

  /** An opening tag holds a closing one only when the name ends in its stem. */
  lemma HeadHolds(open: string, name: string, tag: string)
    requires CloseTag(tag) && open != "" && open[|open| - 1] == '=' && '>' !in open && '>' !in name
    ensures Contains(open + name + ">", tag) <==> EndsWith(name, Stem(tag))
  {
    hide OccursAt, Find;
    var text := open + name + ">";
    Finds(text, tag);
    if EndsWith(name, Stem(tag)) {
      var i := |open| + |name| - |Stem(tag)|;
      StemOccurs(open, name, tag);
      FindIsFirst(text, tag, i);
    }
    if Contains(text, tag) {
      var i := Find(text, tag).value;
      OccurrenceAtEnd(open, name, tag, i);
    }
  }

  lemma StemOccurs(open: string, name: string, tag: string)
    requires CloseTag(tag) && EndsWith(name, Stem(tag))
    ensures OccursAt(open + name + ">", |open| + |name| - |Stem(tag)|, tag)
  {
    var text, i := open + name + ">", |open| + |name| - |Stem(tag)|;
    assert text[i..i + |tag|] == Stem(tag) + ">";
    assert tag == Stem(tag) + ">";
  }

  lemma OccurrenceAtEnd(open: string, name: string, tag: string, i: nat)
    requires CloseTag(tag) && open != "" && open[|open| - 1] == '=' && '>' !in open && '>' !in name
    requires OccursAt(open + name + ">", i, tag)
    ensures EndsWith(name, Stem(tag))
  {
    var text := open + name + ">";
    var last := i + |tag| - 1;
    assert text[i..i + |tag|][|tag| - 1] == '>';
    assert text[last] == '>';
    assert last == |text| - 1;
    if i < |open| {
      CharOfOccurrence(text, i, tag, |open| - 1);
    }
    assert Stem(tag) == text[i..last] == name[i - |open|..];
  }

  /** The lines of parameters without `tag` pass a search on to what follows. */
  lemma {:induction false} FindLines(parameters: seq<Parameter>, tail: string, tag: string)
    requires CloseTag(tag) && !Contains(PARAMETER_CLOSE, tag)
    requires forall p :: p in parameters ==> '>' !in p.key && !EndsWith(p.key, Stem(tag)) && !Contains(p.text, tag)
    ensures Find(Lines(parameters, tail), tag)
         == if Contains(tail, tag) then Some(|Lines(parameters, "")| + Find(tail, tag).value) else None
    decreases |parameters|
  {
    hide Find, PARAMETER_OPEN, PARAMETER_CLOSE, EndsWith, CloseTag;
    if parameters != [] {
      var p, more := parameters[0], parameters[1..];
      assert p in parameters;
      FindLines(more, tail, tag);
      TagHasNoNewline(tag);
      HeadIsHead(p, tag);
      FindLine(PARAMETER_CLOSE, Lines(more, tail), tag);
      FindLine(p.text, PARAMETER_CLOSE + ("\n" + Lines(more, tail)), tag);
      FindLine(Head(p), p.text + ("\n" + (PARAMETER_CLOSE + ("\n" + Lines(more, tail)))), tag);
    }
  }

  lemma TagHasNoNewline(tag: string)
    requires CloseTag(tag)
    ensures tag != "" && '\n' !in tag
  {}

  lemma HeadIsHead(p: Parameter, tag: string)
    requires CloseTag(tag) && '>' !in p.key
    ensures Contains(Head(p), tag) <==> EndsWith(p.key, Stem(tag))
  {
    hide Find, CloseTag, EndsWith;
    HeadHolds(PARAMETER_OPEN, p.key, tag);
  }

  lemma {:induction false} LinesPrefix(parameters: seq<Parameter>, tail: string)
    ensures Lines(parameters, tail) == Lines(parameters, "") + tail
    decreases |parameters|
  {
    if parameters != [] {
      var p, more := parameters[0], parameters[1..];
      LinesPrefix(more, tail);
      var a, b := Lines(more, ""), PARAMETER_CLOSE;
      Assoc("\n", a, tail);
      Assoc(b, "\n" + a, tail);
      Assoc("\n", b + ("\n" + a), tail);
      Assoc(p.text, "\n" + (b + ("\n" + a)), tail);
      Assoc("\n", p.text + ("\n" + (b + ("\n" + a))), tail);
      Assoc(Head(p), "\n" + (p.text + ("\n" + (b + ("\n" + a)))), tail);
    }
  }

  // ----- well-tagged markup parses to its call -----

  lemma MarkIn(s: string)
    ensures '>' in s <==> Contains(s, ">")
  {
    hide Find;
    Finds(s, ">");
    if '>' in s {
      var i :| 0 <= i < |s| && s[i] == '>';
      assert s[i..i + 1] == ">";
      FindIsFirst(s, ">", i);
    }
    if Contains(s, ">") {
      CharOfOccurrence(s, Find(s, ">").value, ">", Find(s, ">").value);
    }
  }

  lemma FindStart(pattern: string, more: string)
    ensures Find(pattern + more, pattern) == Some(0)
  {
    assert pattern <= pattern + more;
  }

  lemma FindSecond(pattern: string, more: string)
    requires pattern != "" && '\n' !in pattern
    ensures Find("\n" + (pattern + more), pattern) == Some(1)
  {
    hide Find;
    FindLine("", pattern + more, pattern);
    FindStart(pattern, more);
    Finds("", pattern);
    assert "" + ("\n" + (pattern + more)) == "\n" + (pattern + more);
  }

  lemma OpeningTags()
    ensures PARAMETER_OPEN != "" && '\n' !in PARAMETER_OPEN && FUNCTION_OPEN != "" && '\n' !in FUNCTION_OPEN
  {}

  /** A framed value is found up to its closing tag, and unframed. */
  lemma ValueFramed(text: string, more: string)
    requires !Contains(text, PARAMETER_CLOSE)
    ensures
      var s := "\n" + (text + ("\n" + (PARAMETER_CLOSE + more)));
      && Find(s, PARAMETER_CLOSE) == Some(|text| + 2) && Unframed(s[..|text| + 2]) == text
      && s[|text| + 2 + |PARAMETER_CLOSE|..] == more
  {
    hide Find, Unframed, OccursAt, PARAMETER_CLOSE;
    Tags();
    var r := text + ("\n" + (PARAMETER_CLOSE + more));
    var s := "\n" + r;
    FindStart(PARAMETER_CLOSE, more);
    TagHasNoNewline(PARAMETER_CLOSE);
    FindLine(text, PARAMETER_CLOSE + more, PARAMETER_CLOSE);
    FindLine("", r, PARAMETER_CLOSE);
    Finds("", PARAMETER_CLOSE);
    assert "" + ("\n" + r) == s;
    Framed(text, PARAMETER_CLOSE, more);
    FramedText(text);
  }

  lemma Framed(text: string, close: string, more: string)
    ensures
      var s := "\n" + (text + ("\n" + (close + more)));
      s[..|text| + 2] == "\n" + text + "\n" && s[|text| + 2 + |close|..] == more
  {}

  lemma FramedText(text: string)
    ensures Unframed("\n" + text + "\n") == text
  {
    var s := "\n" + text + "\n";
    assert s[1..] == text + "\n";
    assert s[1..][..|text|] == text;
  }

  /** A parameter's lines, after the newline before them. */
  function ParameterLines(p: Parameter, more: string): string {
    "\n" + (Head(p) + ("\n" + (p.text + ("\n" + (PARAMETER_CLOSE + more)))))
  }

  lemma HeadSplits(open: string, name: string, more: string)
    ensures (open + name + ">") + more == open + (name + (">" + more))
    ensures ("\n" + (open + (name + (">" + more))))[|open| + 1..] == name + (">" + more)
    ensures (name + (">" + more))[..|name|] == name && (name + (">" + more))[|name| + 1..] == more
  {}

  lemma ParameterParsed(p: Parameter, more: string)
    requires PlainName(p.key) && !Contains(p.text, PARAMETER_CLOSE)
    ensures ParseParameter(ParameterLines(p, more)) == Some(Read(p, more))
  {
    hide Find, Unframed, Trim, PARAMETER_OPEN, PARAMETER_CLOSE;
    OpeningTags();
    var value := "\n" + (p.text + ("\n" + (PARAMETER_CLOSE + more)));
    HeadSplits(PARAMETER_OPEN, p.key, value);
    FindSecond(PARAMETER_OPEN, p.key + (">" + value));
    FindMark(p.key, value);
    TrimIsTrimmed(p.key);
    ValueFramed(p.text, more);
  }

  lemma {:induction false} LinesParsed(parameters: seq<Parameter>)
    requires forall p :: p in parameters ==> PlainName(p.key) && !Contains(p.text, PARAMETER_CLOSE)
    ensures ParseParameters("\n" + Lines(parameters, "")) == parameters
    decreases |parameters|
  {
    hide ParseParameter, Head, PlainName;
    if parameters == [] {
      NewlineParsed();
      assert "\n" + "" == "\n";
    } else {
      assert parameters[0] in parameters;
      LinesParsed(parameters[1..]);
      ParameterParsed(parameters[0], "\n" + Lines(parameters[1..], ""));
      assert [parameters[0]] + parameters[1..] == parameters;
    }
  }

  lemma NewlineParsed()
    ensures ParseParameters("\n") == []
  {
    Finds("\n", PARAMETER_OPEN);
    assert |PARAMETER_OPEN| > 1;
  }

  lemma CallParsed(call: Call)
    requires WellTagged(call)
    ensures ParseCall(Inside(call, "")) == Some(call)
  {
    hide Find, Trim, ParseParameters, FUNCTION_OPEN, FUNCTION_CLOSE, Lines, GoodParameter;
    OpeningTags();
    Tags();
    var tail := FUNCTION_CLOSE + ("\n" + "");
    var inner := "\n" + Lines(call.parameters, tail);
    HeadSplits(FUNCTION_OPEN, call.name, inner);
    FindSecond(FUNCTION_OPEN, call.name + (">" + inner));
    FindMark(call.name, inner);
    TrimIsTrimmed(call.name);
    FindInInner(call, tail);
    LinesPrefix(call.parameters, tail);
    assert inner[..|Lines(call.parameters, "")| + 1] == "\n" + Lines(call.parameters, "");
    GoodLines(call.parameters);
    LinesParsed(call.parameters);
  }

  lemma GoodLines(parameters: seq<Parameter>)
    requires forall p :: p in parameters ==> GoodParameter(p)
    ensures forall p :: p in parameters ==> PlainName(p.key) && !Contains(p.text, PARAMETER_CLOSE)
  {}

  lemma ClosesDiffer()
    ensures !Contains(PARAMETER_CLOSE, FUNCTION_CLOSE) && !Contains(PARAMETER_CLOSE, CALL_CLOSE)
    ensures !Contains(FUNCTION_CLOSE, CALL_CLOSE)
  {
    hide Find, Contains;
    assert PARAMETER_CLOSE[1..] == "/parameter>" && FUNCTION_CLOSE[1..] == "/function>";
    CloseInClose(PARAMETER_CLOSE, FUNCTION_CLOSE, 2);
    CloseInClose(PARAMETER_CLOSE, CALL_CLOSE, 2);
    CloseInClose(FUNCTION_CLOSE, CALL_CLOSE, 2);
  }

  /** One closing tag is not part of another: it could only be its start. */
  lemma CloseInClose(a: string, b: string, k: nat)
    requires k < |a| && k < |b| && a[k] != b[k] && b[0] == '<' && '<' !in a[1..]
    ensures !Contains(a, b)
  {
    hide Find, OccursAt;
    Finds(a, b);
    if Contains(a, b) {
      var i := Find(a, b).value;
      CharAtOffset(a, i, b, 0);
      CharAtOffset(a, i, b, k);
    }
  }

  lemma CharAtOffset(text: string, i: nat, pattern: string, k: nat)
    requires OccursAt(text, i, pattern) && k < |pattern|
    ensures i + k < |text| && text[i + k] == pattern[k]
    ensures i > 0 ==> text[i + k] in text[1..]
  {
    assert text[i..i + |pattern|][k] == pattern[k];
    if i > 0 { assert text[1..][i + k - 1] == text[i + k]; }
  }

  lemma FindInInner(call: Call, tail: string)
    requires WellTagged(call) && tail == FUNCTION_CLOSE + ("\n" + "")
    ensures Find("\n" + Lines(call.parameters, tail), FUNCTION_CLOSE) == Some(|Lines(call.parameters, "")| + 1)
  {
    hide Find, FUNCTION_CLOSE, Lines;
    Tags();
    ClosesDiffer();
    TagHasNoNewline(FUNCTION_CLOSE);
    FindStart(FUNCTION_CLOSE, "\n" + "");
    FindLines(call.parameters, tail, FUNCTION_CLOSE);
    FindLine("", Lines(call.parameters, tail), FUNCTION_CLOSE);
    Finds("", FUNCTION_CLOSE);
    assert "" + ("\n" + Lines(call.parameters, tail)) == "\n" + Lines(call.parameters, tail);
  }

  /** The call of the first block of a text. */
  function FirstCall(text: string): Option<Call> {
    var first := Find(text, CALL_OPEN);
    if first.None? then None else ParseCall(Block(text[first.value + |CALL_OPEN|..]).0)
  }

  lemma InsidePrefix(call: Call, end: string)
    ensures Inside(call, end) == Inside(call, "") + end
  {
    hide NameLine, FUNCTION_CLOSE, Lines;
    var tail := FUNCTION_CLOSE + ("\n" + end);
    LinesPrefix(call.parameters, tail);
    LinesPrefix(call.parameters, FUNCTION_CLOSE + ("\n" + ""));
    var lines := Lines(call.parameters, "");
    Assoc("\n", "", end);
    Assoc(FUNCTION_CLOSE, "\n" + "", end);
    Assoc(lines, FUNCTION_CLOSE + ("\n" + ""), end);
    var rest := lines + (FUNCTION_CLOSE + ("\n" + ""));
    Assoc("\n", rest, end);
    Assoc(NameLine(call.name), "\n" + rest, end);
    Assoc("\n", NameLine(call.name) + ("\n" + rest), end);
    assert "" + end == end;
  }

  lemma MarkupOpens(call: Call)
    ensures Find(Markup(call), CALL_OPEN) == Some(0) && Markup(call)[|CALL_OPEN|..] == Inside(call, CALL_CLOSE)
  {
    hide Find, CALL_OPEN, CALL_CLOSE, Inside;
    FindStart(CALL_OPEN, Inside(call, CALL_CLOSE));
  }

  lemma NameHolds(name: string)
    requires '>' !in name
    ensures Contains(NameLine(name), CALL_CLOSE) <==> EndsWith(name, Stem(CALL_CLOSE))
  {
    hide Find, CloseTag, EndsWith, CALL_CLOSE;
    Tags();
    HeadHolds(FUNCTION_OPEN, name, CALL_CLOSE);
  }

  lemma FindInside(call: Call, more: string)
    requires WellTagged(call)
    ensures Find(Inside(call, CALL_CLOSE + more), CALL_CLOSE) == Some(|Inside(call, "")|)
  {
    hide Find, Lines, NameLine, CALL_CLOSE, FUNCTION_CLOSE, EndsWith;
    Tags();
    ClosesDiffer();
    TagHasNoNewline(CALL_CLOSE);
    var tail := FUNCTION_CLOSE + ("\n" + (CALL_CLOSE + more));
    FindStart(CALL_CLOSE, more);
    FindLine(FUNCTION_CLOSE, CALL_CLOSE + more, CALL_CLOSE);
    FindLines(call.parameters, tail, CALL_CLOSE);
    NameHolds(call.name);
    var lines := Lines(call.parameters, tail);
    FindLine(NameLine(call.name), lines, CALL_CLOSE);
    FindLine("", NameLine(call.name) + ("\n" + lines), CALL_CLOSE);
    Finds("", CALL_CLOSE);
    assert "" + Inside(call, CALL_CLOSE + more) == Inside(call, CALL_CLOSE + more);
    LinesPrefix(call.parameters, tail);
    LinesPrefix(call.parameters, FUNCTION_CLOSE + ("\n" + ""));
  }

  /** A well-tagged call's block ends at its own closing tag, whatever follows. */
  lemma BlockParsed(call: Call, more: string)
    requires WellTagged(call)
    ensures
      var (block, after) := Block(Inside(call, CALL_CLOSE + more));
      after == Some(more) && ParseCall(block) == Some(call)
  {
    hide Find, ParseCall, Inside, WellTagged, CALL_CLOSE;
    FindInside(call, more);
    InsidePrefix(call, CALL_CLOSE + more);
    var body, n := Inside(call, CALL_CLOSE + more), |Inside(call, "")|;
    assert body[..n] == Inside(call, "");
    assert body[n + |CALL_CLOSE|..] == more;
    CallParsed(call);
  }

  // ----- a turn of several calls -----

  /** Several calls as one turn holds them, each followed by some text. */
  function Turn(calls: seq<Call>, gaps: seq<string>): string
    requires |gaps| == |calls|
  {
    if calls == [] then "" else Markup(calls[0]) + (gaps[0] + Turn(calls[1..], gaps[1..]))
  }

  /** A gap without the opening tag leads to the next one. */
  lemma FindAfterGap(gap: string, more: string)
    requires !Contains(gap, CALL_OPEN)
    ensures Find(gap + (CALL_OPEN + more), CALL_OPEN) == Some(|gap|)
  {
    hide Find, OccursAt, CALL_OPEN;
    var text := gap + (CALL_OPEN + more);
    assert text[|gap|..|gap| + |CALL_OPEN|] == CALL_OPEN;
    OccursThere(text, |gap|, CALL_OPEN);
    FindIsFirst(text, CALL_OPEN, |gap|);
    var i := Find(text, CALL_OPEN).value;
    if i < |gap| { OneOpening(gap, more, i); }
  }

  lemma OneOpening(gap: string, more: string, i: nat)
    requires i < |gap| && OccursAt(gap + (CALL_OPEN + more), i, CALL_OPEN)
    ensures Contains(gap, CALL_OPEN)
  {
    hide Find, OccursAt;
    var text := gap + (CALL_OPEN + more);
    assert text[..|gap|] == gap && text[|gap|] == '<';
    if i + |CALL_OPEN| > |gap| {
      CharAtOffset(text, i, CALL_OPEN, |gap| - i);
    } else {
      OccursBefore(gap, CALL_OPEN + more, i, CALL_OPEN);
      FindIsFirst(gap, CALL_OPEN, i);
    }
  }

  lemma OccursBefore(a: string, b: string, i: nat, pattern: string)
    requires i + |pattern| <= |a| && OccursAt(a + b, i, pattern)
    ensures OccursAt(a, i, pattern)
  {
    assert a[i..i + |pattern|] == (a + b)[i..i + |pattern|];
  }

  /** The text that may stand between calls. */
  predicate Gap(text: string) { !Contains(text, CALL_OPEN) }

  lemma {:induction false} TurnBlocks(before: string, calls: seq<Call>, gaps: seq<string>)
    requires |gaps| == |calls| && Gap(before) && (forall g :: g in gaps ==> Gap(g)) && forall c :: c in calls ==> WellTagged(c)
    ensures ParseBlocks(before + Turn(calls, gaps)) == calls
    ensures Find(before + Turn(calls, gaps), CALL_OPEN) == if calls == [] then None else Some(|before|)
    decreases |calls|
  {
    hide Find, ParseCall, Inside, WellTagged, CALL_OPEN, CALL_CLOSE, ParseBlocks, Block, Gap;
    var text := before + Turn(calls, gaps);
    BlocksStep(text);
    if calls == [] {
      assert text == before;
      GapMeans(before);
    } else {
      assert calls[0] in calls && gaps[0] in gaps;
      var more := gaps[0] + Turn(calls[1..], gaps[1..]);
      TurnBlocks(gaps[0], calls[1..], gaps[1..]);
      TurnOpens(before, calls[0], more);
      BlockParsed(calls[0], more);
      assert calls == [calls[0]] + calls[1..];
    }
  }

  lemma GapMeans(text: string)
    requires Gap(text)
    ensures Find(text, CALL_OPEN).None?
  {}

  lemma TurnOpens(before: string, call: Call, more: string)
    requires Gap(before)
    ensures
      var text := before + (Markup(call) + more);
      Find(text, CALL_OPEN) == Some(|before|) && text[|before| + |CALL_OPEN|..] == Inside(call, CALL_CLOSE + more)
  {
    hide Find, Inside, CALL_OPEN, CALL_CLOSE;
    InsidePrefix(call, CALL_CLOSE);
    InsidePrefix(call, CALL_CLOSE + more);
    Assoc(Inside(call, ""), CALL_CLOSE, more);
    Assoc(CALL_OPEN, Inside(call, CALL_CLOSE), more);
    FindAfterGap(before, Inside(call, CALL_CLOSE + more));
  }

  /** A turn of text and well-tagged calls parses to exactly its calls, in order,
      and the text before them. */
  lemma TurnParses(content: string, calls: seq<Call>, gaps: seq<string>)
    requires |gaps| == |calls| && Gap(content) && (forall g :: g in gaps ==> Gap(g)) && forall c :: c in calls ==> WellTagged(c)
    ensures Parse(content + Turn(calls, gaps)) == if calls == [] then (content, []) else (TrimEnd(content), calls)
  {
    hide Find, ParseBlocks, TrimEnd, WellTagged, CALL_OPEN, Gap, Markup;
    var text := content + Turn(calls, gaps);
    TurnBlocks(content, calls, gaps);
    if calls == [] {
      assert text == content;
    } else {
      assert text[..|content|] == content && text[|content|..] == "" + Turn(calls, gaps);
      EmptyGap();
      TurnBlocks("", calls, gaps);
    }
  }

  lemma EmptyGap()
    ensures Gap("")
  {
    hide Find;
    Finds("", CALL_OPEN);
  }

  /** Well-tagged markup parses to exactly its call, with no text for the user. */
  lemma MarkupParsed(call: Call)
    requires WellTagged(call)
    ensures FirstCall(Markup(call)) == Some(call) && Parse(Markup(call)) == ("", [call])
  {
    hide Find, ParseCall, Inside, Markup, WellTagged, CALL_OPEN, CALL_CLOSE, Parse, Block, TrimEnd;
    EmptyGap();
    NothingTrimmed();
    TurnParses("", [call], [""]);
    assert Turn([call], [""]) == Markup(call) + ("" + "");
    assert "" + (Markup(call) + ("" + "")) == Markup(call);
    MarkupOpens(call);
    BlockParsed(call, "");
    assert CALL_CLOSE + "" == CALL_CLOSE;
  }

  lemma NothingTrimmed()
    ensures TrimEnd("") == ""
  {}

  // ----- only well-tagged markup does -----

  lemma NoMark(s: string)
    requires Contains(s, ">")
    ensures '>' !in s[..Find(s, ">").value]
  {
    hide Find;
    BeforeFirst(s, ">");
    MarkIn(s[..Find(s, ">").value]);
  }

  /** A name read up to the first `>` and trimmed back to `name` was `name`. */
  lemma NameBack(after: string, name: string, more: string)
    requires after <= name + (">" + more) && Contains(after, ">") && Trim(after[..Find(after, ">").value]) == name
    ensures PlainName(name) && Find(after, ">") == Some(|name|) && after[|name| + 1..] <= more
  {
    hide Find, Trim, Trimmed, Contains;
    var whole := name + (">" + more);
    Finds(after, ">");
    var g := Find(after, ">").value;
    FindPrefix(after, whole, ">");
    NoMark(after);
    TrimIsTrimmed(after[..g]);
    TrimHasNoMark(after[..g]);
    FindMark(name, more);
    AfterName(after, name, more);
  }

  lemma AfterName(after: string, name: string, more: string)
    requires after <= name + (">" + more) && |after| > |name|
    ensures after[|name| + 1..] <= more && after[..|name|] == name
  {
    var whole := name + (">" + more);
    assert whole[|name| + 1..] == more;
    assert after[|name| + 1..] == whole[|name| + 1..][..|after| - |name| - 1];
  }

  lemma TrimHasNoMark(s: string)
    requires '>' !in s
    ensures '>' !in Trim(s)
  {
    hide Trim;
    TrimIsTrimmed(s);
    var from, to :| 0 <= from <= to <= |s| && Trim(s) == s[from..to];
    forall i | 0 <= i < |Trim(s)| ensures Trim(s)[i] in s { assert Trim(s)[i] == s[from + i]; }
  }

  /** A value read up to the first closing tag and unframed back to `text`
      holds no closing tag. */
  lemma ValueBack(valueText: string, text: string, more: string)
    requires valueText <= "\n" + (text + ("\n" + (PARAMETER_CLOSE + more))) && Contains(valueText, PARAMETER_CLOSE)
    requires Unframed(valueText[..Find(valueText, PARAMETER_CLOSE).value]) == text
    ensures !Contains(text, PARAMETER_CLOSE) && Find(valueText, PARAMETER_CLOSE) == Some(|text| + 2)
    ensures valueText[|text| + 2 + |PARAMETER_CLOSE|..] <= more
  {
    hide Find, Unframed, Contains, PARAMETER_CLOSE;
    var whole := "\n" + (text + ("\n" + (PARAMETER_CLOSE + more)));
    Finds(valueText, PARAMETER_CLOSE);
    var e := Find(valueText, PARAMETER_CLOSE).value;
    FindPrefix(valueText, whole, PARAMETER_CLOSE);
    Tags();
    TagHasNoNewline(PARAMETER_CLOSE);
    BeforeFirst(valueText, PARAMETER_CLOSE);
    UnframedPart(valueText[..e]);
    var from, to :| 0 <= from <= to <= e && text == valueText[..e][from..to];
    if Contains(text, PARAMETER_CLOSE) {
      ContainsPart(valueText[..e], from, to, PARAMETER_CLOSE);
    } else {
      ValueFramed(text, more);
      Finds(valueText, PARAMETER_CLOSE);
      var at := |text| + 2 + |PARAMETER_CLOSE|;
      assert valueText[at..] == whole[at..][..|valueText| - at];
    }
  }

  lemma UnframedPart(raw: string)
    ensures exists from, to :: 0 <= from <= to <= |raw| && Unframed(raw) == raw[from..to]
  {
    var from := if raw != "" && raw[0] == '\n' then 1 else 0;
    var s := raw[from..];
    var to := if s != "" && s[|s| - 1] == '\n' then |raw| - 1 else |raw|;
    assert Unframed(raw) == raw[from..to];
  }

  /** Reading `p` back from the start of its own lines means nothing in `p`
      could have ended it early. */
  lemma ParameterBack(c: string, p: Parameter, more: string)
    requires c <= ParameterLines(p, more) && ParseParameter(c).Some? && ParseParameter(c).value.value == p
    ensures PlainName(p.key) && !Contains(p.text, PARAMETER_CLOSE)
    ensures ParseParameter(c).value.rest <= more && |c| - |ParseParameter(c).value.rest| == |ParameterLines(p, more)| - |more|
  {
    hide Find, Unframed, Trim, PARAMETER_OPEN, PARAMETER_CLOSE, PlainName;
    OpeningTags();
    var value := "\n" + (p.text + ("\n" + (PARAMETER_CLOSE + more)));
    var whole := ParameterLines(p, more);
    HeadSplits(PARAMETER_OPEN, p.key, value);
    FindSecond(PARAMETER_OPEN, p.key + (">" + value));
    FindPrefix(c, whole, PARAMETER_OPEN);
    var after := c[1 + |PARAMETER_OPEN|..];
    assert after == whole[1 + |PARAMETER_OPEN|..][..|c| - 1 - |PARAMETER_OPEN|];
    NameBack(after, p.key, value);
    var valueText := after[|p.key| + 1..];
    ValueBack(valueText, p.text, more);
  }

  /** Reading all the parameters back means that of each, and that the text
      reaches past the last closing tag. */
  lemma {:induction false} LinesBack(c: string, parameters: seq<Parameter>, tail: string)
    requires c <= "\n" + Lines(parameters, tail) && ParseParameters(c) == parameters
    ensures forall p :: p in parameters ==> PlainName(p.key) && !Contains(p.text, PARAMETER_CLOSE)
    ensures |c| >= |Lines(parameters, "")|
    decreases |parameters|
  {
    hide ParseParameter, Head, PlainName, ParameterLines, PARAMETER_CLOSE;
    if parameters != [] {
      var p, rest := parameters[0], parameters[1..];
      var more := "\n" + Lines(rest, tail);
      LinesAre(parameters, tail);
      ParameterBack(c, p, more);
      var left := ParseParameter(c).value.rest;
      assert ParseParameters(left) == rest;
      LinesBack(left, rest, tail);
      LinesAre(parameters, "");
      LineLength(p, more, "\n" + Lines(rest, ""));
      assert parameters == [p] + rest;
    }
  }

  lemma LinesAre(parameters: seq<Parameter>, tail: string)
    requires parameters != []
    ensures "\n" + Lines(parameters, tail) == ParameterLines(parameters[0], "\n" + Lines(parameters[1..], tail))
  {}

  lemma LineLength(p: Parameter, a: string, b: string)
    ensures |ParameterLines(p, a)| - |a| == |ParameterLines(p, b)| - |b|
  {}

  /** Lines without `tag` have none in a head or a value. */
  lemma {:induction false} LinesHold(parameters: seq<Parameter>, tag: string)
    requires CloseTag(tag) && !Contains(Lines(parameters, ""), tag) && forall p :: p in parameters ==> '>' !in p.key
    ensures forall p :: p in parameters ==> !EndsWith(p.key, Stem(tag)) && !Contains(p.text, tag)
    decreases |parameters|
  {
    hide Find, PARAMETER_OPEN, PARAMETER_CLOSE, EndsWith, CloseTag;
    if parameters != [] {
      var p, more := parameters[0], parameters[1..];
      assert p in parameters;
      TagHasNoNewline(tag);
      HeadIsHead(p, tag);
      FindLine(PARAMETER_CLOSE, Lines(more, ""), tag);
      FindLine(p.text, PARAMETER_CLOSE + ("\n" + Lines(more, "")), tag);
      FindLine(Head(p), p.text + ("\n" + (PARAMETER_CLOSE + ("\n" + Lines(more, "")))), tag);
      LinesHold(more, tag);
      assert parameters == [p] + more;
    }
  }

  lemma InnerOf(call: Call, end: string)
    ensures Inside(call, end) == "\n" + (FUNCTION_OPEN + (call.name + (">" + ("\n" + Lines(call.parameters, FUNCTION_CLOSE + ("\n" + end))))))
    ensures |NameLine(call.name)| == |FUNCTION_OPEN| + |call.name| + 1
  {
    hide FUNCTION_OPEN, FUNCTION_CLOSE, Lines;
    HeadSplits(FUNCTION_OPEN, call.name, "\n" + Lines(call.parameters, FUNCTION_CLOSE + ("\n" + end)));
  }

  /** A block that starts like the markup and parses to the call reaches past
      the function's closing tag, and none of the call's parts ends it early. */
  lemma CallBack(block: string, call: Call, end: string)
    requires block <= Inside(call, end) && ParseCall(block) == Some(call)
    ensures call.name != "" && PlainName(call.name)
    ensures forall p :: p in call.parameters ==>
      PlainName(p.key) && !Contains(p.text, PARAMETER_CLOSE) && !EndsWith(p.key, Stem(FUNCTION_CLOSE)) && !Contains(p.text, FUNCTION_CLOSE)
    ensures |block| >= |NameLine(call.name)| + 2 + |Lines(call.parameters, "")|
  {
    hide Find, Trim, ParseParameters, FUNCTION_OPEN, FUNCTION_CLOSE, Lines, PlainName, EndsWith, Inside, NameLine, CloseTag, Contains;
    OpeningTags();
    Tags();
    InnerOf(call, end);
    var tail := FUNCTION_CLOSE + ("\n" + end);
    var wholeInner := "\n" + Lines(call.parameters, tail);
    FindSecond(FUNCTION_OPEN, call.name + (">" + wholeInner));
    Finds(block, FUNCTION_OPEN);
    FindPrefix(block, Inside(call, end), FUNCTION_OPEN);
    var afterOpen := block[1 + |FUNCTION_OPEN|..];
    HeadSplits(FUNCTION_OPEN, call.name, wholeInner);
    assert afterOpen == Inside(call, end)[1 + |FUNCTION_OPEN|..][..|block| - 1 - |FUNCTION_OPEN|];
    Finds(afterOpen, ">");
    NameBack(afterOpen, call.name, wholeInner);
    var inner := afterOpen[|call.name| + 1..];
    Finds(inner, FUNCTION_CLOSE);
    var f := Find(inner, FUNCTION_CLOSE).value;
    var taken := inner[..f];
    LinesBack(taken, call.parameters, tail);
    InnerHolds(inner, call.parameters, tail);
    assert |block| == 1 + |FUNCTION_OPEN| + |call.name| + 1 + |inner|;
  }

  lemma InnerHolds(inner: string, parameters: seq<Parameter>, tail: string)
    requires inner <= "\n" + Lines(parameters, tail) && Contains(inner, FUNCTION_CLOSE)
    requires Find(inner, FUNCTION_CLOSE).value >= |Lines(parameters, "")| && forall p :: p in parameters ==> PlainName(p.key)
    ensures forall p :: p in parameters ==> !EndsWith(p.key, Stem(FUNCTION_CLOSE)) && !Contains(p.text, FUNCTION_CLOSE)
    ensures |inner| >= 1 + |Lines(parameters, "")|
  {
    hide Find, Lines, EndsWith, FUNCTION_CLOSE, CloseTag;
    Tags();
    Finds(inner, FUNCTION_CLOSE);
    TagHasNoNewline(FUNCTION_CLOSE);
    LinesPrefix(parameters, tail);
    var n := |Lines(parameters, "")|;
    assert inner[1..n + 1] == Lines(parameters, "");
    if Contains(Lines(parameters, ""), FUNCTION_CLOSE) { ContainsPart(inner, 1, n + 1, FUNCTION_CLOSE); }
    CloseIsLong();
    LinesHold(parameters, FUNCTION_CLOSE);
  }

  lemma CloseIsLong()
    ensures |FUNCTION_CLOSE| > 1
  {}

  /** The markup's first block parses to the call exactly when the call is well
      tagged. */
  lemma MarkupParses(call: Call)
    ensures FirstCall(Markup(call)) == Some(call) <==> WellTagged(call)
    ensures WellTagged(call) ==> Parse(Markup(call)) == ("", [call])
  {
    hide Find, ParseCall, Inside, Lines, NameLine, CALL_OPEN, CALL_CLOSE, EndsWith, PlainName, CloseTag, FUNCTION_CLOSE, Markup;
    if WellTagged(call) { MarkupParsed(call); }
    if FirstCall(Markup(call)) == Some(call) {
      MarkupOpens(call);
      var body := Inside(call, CALL_CLOSE);
      var block := Block(body).0;
      CallBack(block, call, CALL_CLOSE);
      BlockHolds(call, block);
    }
  }

  /** A block cut at the first closing tag that still reaches past all the parts
      has no closing tag in any of them. */
  lemma BlockHolds(call: Call, block: string)
    requires block == Block(Inside(call, CALL_CLOSE)).0 && PlainName(call.name)
    requires forall p :: p in call.parameters ==> PlainName(p.key)
    requires |block| >= |NameLine(call.name)| + 2 + |Lines(call.parameters, "")|
    ensures !EndsWith(call.name, Stem(CALL_CLOSE))
    ensures forall p :: p in call.parameters ==> !EndsWith(p.key, Stem(CALL_CLOSE)) && !Contains(p.text, CALL_CLOSE)
  {
    hide Find, Lines, NameLine, CALL_CLOSE, EndsWith, CloseTag, FUNCTION_CLOSE, Inside;
    Tags();
    TagHasNoNewline(CALL_CLOSE);
    var body := Inside(call, CALL_CLOSE);
    Finds(body, CALL_CLOSE);
    InsidePrefix(call, CALL_CLOSE);
    CloseInside(call);
    BeforeFirst(body, CALL_CLOSE);
    var n, m := |NameLine(call.name)|, |Lines(call.parameters, "")|;
    InsideParts(call, CALL_CLOSE);
    assert block[1..n + 1] == body[1..n + 1] && block[n + 2..n + 2 + m] == body[n + 2..n + 2 + m];
    if Contains(NameLine(call.name), CALL_CLOSE) { ContainsPart(block, 1, n + 1, CALL_CLOSE); }
    if Contains(Lines(call.parameters, ""), CALL_CLOSE) { ContainsPart(block, n + 2, n + 2 + m, CALL_CLOSE); }
    NameHolds(call.name);
    LinesHold(call.parameters, CALL_CLOSE);
  }

  lemma CloseInside(call: Call)
    ensures Contains(Inside(call, CALL_CLOSE), CALL_CLOSE)
  {
    hide Find, Inside, OccursAt;
    InsidePrefix(call, CALL_CLOSE);
    var body, n := Inside(call, CALL_CLOSE), |Inside(call, "")|;
    assert body[n..n + |CALL_CLOSE|] == CALL_CLOSE;
    OccursThere(body, n, CALL_CLOSE);
    FindIsFirst(body, CALL_CLOSE, n);
  }

  lemma OccursThere(text: string, i: nat, pattern: string)
    requires i + |pattern| <= |text| && text[i..i + |pattern|] == pattern
    ensures OccursAt(text, i, pattern)
  {}

  lemma InsideParts(call: Call, end: string)
    ensures
      var body, n, m := Inside(call, end), |NameLine(call.name)|, |Lines(call.parameters, "")|;
      n + 2 + m <= |body| && body[1..n + 1] == NameLine(call.name) && body[n + 2..n + 2 + m] == Lines(call.parameters, "")
  {
    hide Lines, NameLine, FUNCTION_CLOSE;
    LinesPrefix(call.parameters, FUNCTION_CLOSE + ("\n" + end));
  }
}
