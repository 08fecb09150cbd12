/** What the tool-call parser makes of any text at all, cut off or malformed:
    how the text splits into tags decides it. */
module ToolCallGrammar {
  import opened Wrappers
  import opened Texts
  import opened Json
  import opened JsonReading
  import opened JsonPrinting
  import opened ToolCalls

  // ----- tags -----

  /** Two occurrences of such a pattern cannot overlap, nor can two tags. */
  predicate Tag(tag: string) { tag != "" && tag[0] == '<' && '<' !in tag[1..] }

  lemma AllTags()
    ensures Tag(CALL_OPEN) && Tag(CALL_CLOSE) && Tag(FUNCTION_OPEN) && Tag(FUNCTION_CLOSE)
    ensures Tag(PARAMETER_OPEN) && Tag(PARAMETER_CLOSE)
  {}

  /** Text without a tag leads to the next one. */
  lemma FindAfter(gap: string, tag: string, more: string)
    requires Tag(tag) && !Contains(gap, tag)
    ensures Find(gap + (tag + more), tag) == Some(|gap|)
  {
    hide Find, OccursAt;
    var text := gap + (tag + more);
    assert text[|gap|..|gap| + |tag|] == tag;
    OccursThere(text, |gap|, tag);
    FindIsFirst(text, tag, |gap|);
    var i := Find(text, tag).value;
    if i < |gap| { NotBefore(gap, tag, tag, more, i); }
  }

  /** An occurrence that starts before a tag ends before it. */
  lemma NotBefore(gap: string, tag: string, next: string, more: string, i: nat)
    requires Tag(tag) && Tag(next) && i < |gap| && OccursAt(gap + (next + more), i, tag)
    ensures Contains(gap, tag)
  {
    hide Find, OccursAt;
    var text := gap + (next + more);
    assert text[|gap|] == '<' && text[..|gap|] == gap;
    if i + |tag| > |gap| {
      CharAtOffset(text, i, tag, |gap| - i);
    } else {
      OccursBefore(gap, next + more, i, tag);
      FindIsFirst(gap, tag, i);
    }
  }

  lemma SplitAt(text: string, tag: string) returns (before: string, after: string)
    requires tag != "" && Find(text, tag).Some?
    ensures text == before + (tag + after) && !Contains(before, tag)
    ensures Find(text, tag) == Some(|before|) && before == text[..|before|] && after == text[|before| + |tag|..]
  {
    hide Find;
    Finds(text, tag);
    BeforeFirst(text, tag);
    var i := Find(text, tag).value;
    before, after := text[..i], text[i + |tag|..];
  }

  // ----- blocks -----

  /** Blocks between their tags, each followed by some text, and perhaps a last
      block that is never closed. */
  function Tagged(blocks: seq<string>, gaps: seq<string>, last: Option<string>): string
    requires |gaps| == |blocks|
  {
    if blocks == [] then (if last.None? then "" else CALL_OPEN + last.value)
    else CALL_OPEN + (blocks[0] + (CALL_CLOSE + (gaps[0] + Tagged(blocks[1..], gaps[1..], last))))
  }

  /** The calls of the blocks that hold one, in order. */
  function CallsIn(blocks: seq<string>): seq<Call> {
    if blocks == [] then [] else CallIn(blocks[0]) + CallsIn(blocks[1..])
  }

  function AllBlocks(blocks: seq<string>, last: Option<string>): seq<string> {
    blocks + if last.None? then [] else [last.value]
  }

  predicate Separated(blocks: seq<string>, gaps: seq<string>, last: Option<string>) {
    && |gaps| == |blocks| && (forall g :: g in gaps ==> Gap(g)) && (forall b :: b in blocks ==> !Contains(b, CALL_CLOSE))
    && (last.Some? ==> !Contains(last.value, CALL_CLOSE))
  }

  /** Blocks without a call are passed over, text between blocks is dropped, and
      a block that is never closed runs to the end. */
  lemma {:induction false} BlocksRead(before: string, blocks: seq<string>, gaps: seq<string>, last: Option<string>)
    requires Gap(before) && Separated(blocks, gaps, last)
    ensures ParseBlocks(before + Tagged(blocks, gaps, last)) == CallsIn(AllBlocks(blocks, last))
    ensures Find(before + Tagged(blocks, gaps, last), CALL_OPEN) == if blocks == [] && last.None? then None else Some(|before|)
    decreases |blocks|
  {
    hide Find, ParseCall, CALL_OPEN, CALL_CLOSE, ParseBlocks, Block, Gap;
    var text := before + Tagged(blocks, gaps, last);
    BlocksStep(text);
    if blocks == [] {
      if last.None? {
        assert text == before;
        GapMeans(before);
      } else {
        OpenBlock(before, last.value);
        assert AllBlocks(blocks, last)[1..] == [];
      }
    } else {
      var more := gaps[0] + Tagged(blocks[1..], gaps[1..], last);
      assert blocks[0] in blocks && gaps[0] in gaps;
      BlocksRead(gaps[0], blocks[1..], gaps[1..], last);
      ClosedBlock(before, blocks[0], more);
      assert AllBlocks(blocks, last)[1..] == AllBlocks(blocks[1..], last);
    }
  }

  lemma OpenBlock(before: string, last: string)
    requires Gap(before) && !Contains(last, CALL_CLOSE)
    ensures
      var text := before + (CALL_OPEN + last);
      Find(text, CALL_OPEN) == Some(|before|) && Block(text[|before| + |CALL_OPEN|..]) == (last, None)
  {
    hide Find, CALL_OPEN, CALL_CLOSE;
    FindAfterGap(before, last);
    assert (before + (CALL_OPEN + last))[|before| + |CALL_OPEN|..] == last;
  }

  lemma ClosedBlock(before: string, block: string, more: string)
    requires Gap(before) && !Contains(block, CALL_CLOSE)
    ensures
      var text := before + (CALL_OPEN + (block + (CALL_CLOSE + more)));
      Find(text, CALL_OPEN) == Some(|before|) && Block(text[|before| + |CALL_OPEN|..]) == (block, Some(more))
  {
    hide Find, CALL_OPEN, CALL_CLOSE, Tag;
    AllTags();
    var body := block + (CALL_CLOSE + more);
    FindAfterGap(before, body);
    FindAfter(block, CALL_CLOSE, more);
    assert (before + (CALL_OPEN + body))[|before| + |CALL_OPEN|..] == body;
    assert body[..|block|] == block && body[|block| + |CALL_CLOSE|..] == more;
  }

  /** What the whole parser makes of a text that splits so: the calls of its
      blocks and the text before the first, or the text alone if there is none. */
  lemma TextParses(content: string, blocks: seq<string>, gaps: seq<string>, last: Option<string>)
    requires Gap(content) && Separated(blocks, gaps, last)
    ensures
      var text, calls := content + Tagged(blocks, gaps, last), CallsIn(AllBlocks(blocks, last));
      Parse(text) == if calls == [] then (text, []) else (TrimEnd(content), calls)
  {
    hide Find, ParseBlocks, TrimEnd, CALL_OPEN, CALL_CLOSE, Gap, Tagged;
    var text := content + Tagged(blocks, gaps, last);
    BlocksRead(content, blocks, gaps, last);
    if blocks == [] && last.None? {
      assert AllBlocks(blocks, last) == [];
    } else {
      assert text[..|content|] == content && text[|content|..] == "" + Tagged(blocks, gaps, last);
      EmptyGap();
      BlocksRead("", blocks, gaps, last);
    }
  }

  /** Every text splits so. */
  lemma {:induction false} TextSplits(text: string)
    returns (content: string, blocks: seq<string>, gaps: seq<string>, last: Option<string>)
    ensures Gap(content) && Separated(blocks, gaps, last) && text == content + Tagged(blocks, gaps, last)
    decreases |text|
  {
    hide Find, CALL_OPEN, CALL_CLOSE, Contains, Separated, Tagged, Gap;
    OpeningIsLong();
    GapIs(text);
    if !Contains(text, CALL_OPEN) {
      content, blocks, gaps, last := text, [], [], None;
      NoBlocks(text);
    } else {
      Finds(text, CALL_OPEN);
      var body;
      content, body := SplitAt(text, CALL_OPEN);
      GapIs(content);
      Finds(body, CALL_CLOSE);
      if !Contains(body, CALL_CLOSE) {
        blocks, gaps, last := [], [], Some(body);
        OneOpenBlock(body);
      } else {
        var block, rest := SplitAt(body, CALL_CLOSE);
        var gap, later, gapsLater, end := TextSplits(rest);
        blocks, gaps, last := [block] + later, [gap] + gapsLater, end;
        OneMoreBlock(block, gap, later, gapsLater, end);
      }
    }
  }

  lemma GapIs(text: string)
    ensures Gap(text) <==> !Contains(text, CALL_OPEN)
  {}

  lemma NoBlocks(text: string)
    ensures Separated([], [], None) && text + Tagged([], [], None) == text
  {}

  lemma OneOpenBlock(body: string)
    requires !Contains(body, CALL_CLOSE)
    ensures Separated([], [], Some(body)) && Tagged([], [], Some(body)) == CALL_OPEN + body
  {
    hide CALL_OPEN, CALL_CLOSE, Contains;
  }

  lemma OneMoreBlock(block: string, gap: string, blocks: seq<string>, gaps: seq<string>, last: Option<string>)
    requires !Contains(block, CALL_CLOSE) && Gap(gap) && Separated(blocks, gaps, last)
    ensures Separated([block] + blocks, [gap] + gaps, last)
    ensures Tagged([block] + blocks, [gap] + gaps, last) == CALL_OPEN + (block + (CALL_CLOSE + (gap + Tagged(blocks, gaps, last))))
  {
    hide CALL_OPEN, CALL_CLOSE, Contains, Gap;
    assert ([block] + blocks)[1..] == blocks && ([gap] + gaps)[1..] == gaps;
  }

  lemma OpeningIsLong()
    ensures CALL_OPEN != "" && CALL_CLOSE != ""
  {}

  /** The text ends inside a block: no closing tag follows some opening one. */
  predicate EndsInBlock(text: string, at: nat) {
    OccursAt(text, at, CALL_OPEN) && !Contains(text[at..], CALL_CLOSE)
  }

  /** Closing a block that was cut off changes no call and no content. */
  lemma ClosingChangesNothing(text: string, at: nat)
    requires EndsInBlock(text, at)
    ensures Parse(text + CALL_CLOSE).1 == Parse(text).1
    ensures Parse(text).1 != [] ==> Parse(text + CALL_CLOSE).0 == Parse(text).0
  {
    hide Find, CALL_OPEN, CALL_CLOSE, Contains, Parse, Separated, TrimEnd, CallsIn, EndsInBlock, Tagged;
    var content, blocks, gaps, last := TextSplits(text);
    TextParses(content, blocks, gaps, last);
    if last.None? { AllClosed(content, blocks, gaps, at); }
    EmptyGap();
    NowSeparated(blocks, gaps, last.value);
    CloseLast(content, blocks, gaps, last.value);
    TextParses(content, blocks + [last.value], gaps + [""], None);
    assert AllBlocks(blocks, last) == AllBlocks(blocks + [last.value], None);
  }

  lemma NowSeparated(blocks: seq<string>, gaps: seq<string>, last: string)
    requires Separated(blocks, gaps, Some(last)) && Gap("")
    ensures |gaps| == |blocks| && Separated(blocks + [last], gaps + [""], None)
  {
    hide Find, Contains, Gap;
  }

  lemma {:induction false} CloseLast(content: string, blocks: seq<string>, gaps: seq<string>, last: string)
    requires |gaps| == |blocks|
    ensures content + Tagged(blocks, gaps, Some(last)) + CALL_CLOSE == content + Tagged(blocks + [last], gaps + [""], None)
    decreases |blocks|
  {
    hide CALL_OPEN, CALL_CLOSE;
    var all, allGaps := blocks + [last], gaps + [""];
    if blocks == [] {
      assert all[1..] == [] && allGaps[1..] == [];
      assert Tagged(all, allGaps, None) == CALL_OPEN + (last + (CALL_CLOSE + ("" + "")));
    } else {
      CloseLast("", blocks[1..], gaps[1..], last);
      assert all[1..] == blocks[1..] + [last] && allGaps[1..] == gaps[1..] + [""];
      var rest := Tagged(blocks[1..], gaps[1..], Some(last));
      assert "" + rest + CALL_CLOSE == rest + CALL_CLOSE;
      assert "" + Tagged(all[1..], allGaps[1..], None) == Tagged(all[1..], allGaps[1..], None);
      assert content + (CALL_OPEN + (blocks[0] + (CALL_CLOSE + (gaps[0] + rest)))) + CALL_CLOSE
          == content + (CALL_OPEN + (blocks[0] + (CALL_CLOSE + (gaps[0] + (rest + CALL_CLOSE)))));
    }
  }

  /** A text all of whose blocks are closed does not end inside one. */
  lemma {:induction false} AllClosed(content: string, blocks: seq<string>, gaps: seq<string>, at: nat)
    requires Gap(content) && Separated(blocks, gaps, None)
    ensures !EndsInBlock(content + Tagged(blocks, gaps, None), at)
    decreases |blocks|
  {
    hide Find, OccursAt, CALL_OPEN, CALL_CLOSE, Gap, Contains;
    var text := content + Tagged(blocks, gaps, None);
    if blocks == [] {
      assert text == content;
      NoOpeningInGap(content, at);
    } else {
      assert blocks[0] in blocks && gaps[0] in gaps;
      var more := gaps[0] + Tagged(blocks[1..], gaps[1..], None);
      var head := content + (CALL_OPEN + blocks[0]);
      assert text == head + (CALL_CLOSE + more);
      OpeningIsAfter(head, more, at);
      if at >= |head| + |CALL_CLOSE| { AllClosed(gaps[0], blocks[1..], gaps[1..], at - |head| - |CALL_CLOSE|); }
    }
  }

  lemma NoOpeningInGap(gap: string, at: nat)
    requires Gap(gap)
    ensures !OccursAt(gap, at, CALL_OPEN)
  {
    hide Find, OccursAt, CALL_OPEN;
    FindIsFirst(gap, CALL_OPEN, at);
  }

  /** An opening tag that no closing tag follows comes after a closing tag. */
  lemma OpeningIsAfter(head: string, more: string, at: nat)
    ensures EndsInBlock(head + (CALL_CLOSE + more), at) ==>
      at >= |head| + |CALL_CLOSE| && EndsInBlock(more, at - |head| - |CALL_CLOSE|)
  {
    hide Find, CALL_OPEN, CALL_CLOSE;
    var text := head + (CALL_CLOSE + more);
    var after := |head| + |CALL_CLOSE|;
    assert text[|head|..after] == CALL_CLOSE && text[after..|text|] == more;
    OccursThere(text, |head|, CALL_CLOSE);
    if at <= |head| {
      assert text[at..|text|] == text[at..];
      OccursPart(text, at, |text|, |head| - at, CALL_CLOSE);
      FindIsFirst(text[at..], CALL_CLOSE, |head| - at);
    } else if at < after {
      NoTagInside(text, |head|, at);
    } else {
      OccursPart(text, after, |text|, at - after, CALL_OPEN);
      assert at <= |text| ==> more[at - after..] == text[at..];
    }
  }

  lemma NoTagInside(text: string, close: nat, at: nat)
    requires close < at < close + |CALL_CLOSE| && OccursAt(text, close, CALL_CLOSE)
    ensures !OccursAt(text, at, CALL_OPEN)
  {
    hide OccursAt;
    CharAtOffset(text, close, CALL_CLOSE, at - close);
    if OccursAt(text, at, CALL_OPEN) { CharAtOffset(text, at, CALL_OPEN, 0); }
  }

  // ----- one block -----

  predicate CallShape(block: string, before: string, name: string, inner: string, after: string) {
    && block == before + (FUNCTION_OPEN + (name + (">" + (inner + (FUNCTION_CLOSE + after)))))
    && !Contains(before, FUNCTION_OPEN) && '>' !in name && !Contains(inner, FUNCTION_CLOSE)
  }

  /** A block is read between its first function tags, its name up to the first
      `>` and without outer blanks; a blank name makes it no call. */
  lemma CallRead(block: string, before: string, name: string, inner: string, after: string)
    requires CallShape(block, before, name, inner, after)
    ensures ParseCall(block) == if Trim(name) == "" then None else Some(Call(Trim(name), ParseParameters(inner)))
  {
    hide Find, Trim, ParseParameters, FUNCTION_OPEN, FUNCTION_CLOSE, Tag, Contains;
    AllTags();
    var end := inner + (FUNCTION_CLOSE + after);
    var afterOpen := name + (">" + end);
    FindAfter(before, FUNCTION_OPEN, afterOpen);
    assert block[|before| + |FUNCTION_OPEN|..] == afterOpen;
    FindMark(name, end);
    assert afterOpen[..|name|] == name && afterOpen[|name| + 1..] == end;
    FindAfter(inner, FUNCTION_CLOSE, after);
    assert end[..|inner|] == inner;
  }

  /** Nothing else is a call. */
  lemma CallHasShape(block: string) returns (before: string, name: string, inner: string, after: string)
    requires ParseCall(block).Some?
    ensures CallShape(block, before, name, inner, after) && Trim(name) != ""
  {
    hide Find, Trim, ParseParameters, FUNCTION_OPEN, FUNCTION_CLOSE, Tag, Contains;
    AllTags();
    var afterOpen, rest;
    before, afterOpen := SplitAt(block, FUNCTION_OPEN);
    name, rest := SplitAt(afterOpen, ">");
    Finds(afterOpen, ">");
    NoMark(afterOpen);
    inner, after := SplitAt(rest, FUNCTION_CLOSE);
  }

  // ----- the parameters of a block -----

  datatype RawParameter = RawParameter(gap: string, key: string, value: string)

  predicate ParameterShape(cursor: string, raw: RawParameter, rest: string) {
    && cursor == raw.gap + (PARAMETER_OPEN + (raw.key + (">" + (raw.value + (PARAMETER_CLOSE + rest)))))
    && GoodRaw(raw)
  }

  predicate GoodRaw(raw: RawParameter) {
    !Contains(raw.gap, PARAMETER_OPEN) && '>' !in raw.key && !Contains(raw.value, PARAMETER_CLOSE)
  }

  lemma ParameterRead(cursor: string, raw: RawParameter, rest: string)
    requires ParameterShape(cursor, raw, rest)
    ensures ParseParameter(cursor) == Some(Read(Parameter(Trim(raw.key), Unframed(raw.value)), rest))
  {
    hide Find, Trim, Unframed, PARAMETER_OPEN, PARAMETER_CLOSE, Tag, Contains;
    AllTags();
    var valueText := raw.value + (PARAMETER_CLOSE + rest);
    var after := raw.key + (">" + valueText);
    FindAfter(raw.gap, PARAMETER_OPEN, after);
    assert cursor[|raw.gap| + |PARAMETER_OPEN|..] == after;
    FindMark(raw.key, valueText);
    assert after[..|raw.key|] == raw.key && after[|raw.key| + 1..] == valueText;
    FindAfter(raw.value, PARAMETER_CLOSE, rest);
    assert valueText[..|raw.value|] == raw.value && valueText[|raw.value| + |PARAMETER_CLOSE|..] == rest;
  }

  lemma ParameterHasShape(cursor: string) returns (raw: RawParameter, rest: string)
    requires ParseParameter(cursor).Some?
    ensures ParameterShape(cursor, raw, rest)
  {
    hide Find, Trim, Unframed, PARAMETER_OPEN, PARAMETER_CLOSE, Tag;
    AllTags();
    var gap, after := SplitAt(cursor, PARAMETER_OPEN);
    var key, valueText := SplitAt(after, ">");
    NoMark(after);
    var value;
    value, rest := SplitAt(valueText, PARAMETER_CLOSE);
    raw := RawParameter(gap, key, value);
  }

  function Written(raws: seq<RawParameter>, rest: string): string {
    if raws == [] then rest
    else
      var raw := raws[0];
      raw.gap + (PARAMETER_OPEN + (raw.key + (">" + (raw.value + (PARAMETER_CLOSE + Written(raws[1..], rest))))))
  }

  /** No parameter can be read from here on. */
  ghost predicate NoParameter(rest: string) { forall raw, more :: !ParameterShape(rest, raw, more) }

  /** The parameters of a block are read in order, keys without outer blanks and
      values without the newlines that frame them, up to the first place from
      which no whole parameter follows. */
  lemma {:induction false} ParametersRead(raws: seq<RawParameter>, rest: string)
    requires (forall raw :: raw in raws ==> GoodRaw(raw)) && NoParameter(rest)
    ensures |ParseParameters(Written(raws, rest))| == |raws|
    ensures forall i :: 0 <= i < |raws| ==>
      ParseParameters(Written(raws, rest))[i] == Parameter(Trim(raws[i].key), Unframed(raws[i].value))
    decreases |raws|
  {
    hide ParseParameter, Trim, Unframed, GoodRaw, ParseParameters, PARAMETER_OPEN, PARAMETER_CLOSE;
    ParametersStep(Written(raws, rest));
    if raws == [] {
      if ParseParameter(rest).Some? { var raw, more := ParameterHasShape(rest); }
    } else {
      assert raws[0] in raws;
      ParameterRead(Written(raws, rest), raws[0], Written(raws[1..], rest));
      ParametersRead(raws[1..], rest);
    }
  }

  /** At most one newline comes off at each end, whether or not there is one at
      the other. */
  lemma FrameComesOff(text: string)
    ensures Unframed("\n" + text + "\n") == text
    ensures text == "" || text[0] != '\n' ==> Unframed(text + "\n") == text
    ensures text == "" || text[|text| - 1] != '\n' ==> Unframed("\n" + text) == text
    ensures text == "" || (text[0] != '\n' && text[|text| - 1] != '\n') ==> Unframed(text) == text
  {
    FramedText(text);
    assert ("\n" + text)[1..] == text && (text + "\n")[..|text|] == text;
  }

  // ----- a turn that is cut off in its last call -----

  /** A call's block up to its function's closing tag, then `after`. */
  function InsideTo(call: Call, after: string): string {
    "\n" + (NameLine(call.name) + ("\n" + Lines(call.parameters, FUNCTION_CLOSE + after)))
  }

  lemma InsideToParsed(call: Call, after: string)
    requires WellTagged(call)
    ensures ParseCall(InsideTo(call, after)) == Some(call)
  {
    hide Find, Trim, ParseParameters, FUNCTION_OPEN, FUNCTION_CLOSE, Lines, GoodParameter, Contains, CloseTag, EndsWith;
    Tags();
    ClosesDiffer();
    var inner := "\n" + Lines(call.parameters, "");
    LinesPrefix(call.parameters, FUNCTION_CLOSE + after);
    HeadSplits(FUNCTION_OPEN, call.name, "\n" + Lines(call.parameters, FUNCTION_CLOSE + after));
    assert "\n" + Lines(call.parameters, FUNCTION_CLOSE + after) == inner + (FUNCTION_CLOSE + after);
    NoneInLines(call.parameters, FUNCTION_CLOSE);
    BlankBefore();
    CallRead(InsideTo(call, after), "\n", call.name, inner, after);
    TrimIsTrimmed(call.name);
    GoodLines(call.parameters);
    LinesParsed(call.parameters);
  }

  lemma BlankBefore()
    ensures !Contains("\n", FUNCTION_OPEN)
  {
    assert |FUNCTION_OPEN| > 1;
  }

  lemma NoneInLines(parameters: seq<Parameter>, tag: string)
    requires tag == FUNCTION_CLOSE || tag == CALL_CLOSE
    requires forall p :: p in parameters ==> GoodParameter(p)
    ensures !Contains("\n" + Lines(parameters, ""), tag) && !Contains(Lines(parameters, ""), tag)
  {
    hide Find, FUNCTION_CLOSE, CALL_CLOSE, Lines, CloseTag, EndsWith;
    Tags();
    ClosesDiffer();
    TagHasNoNewline(tag);
    FindLines(parameters, "", tag);
    Finds("", tag);
    FindLine("", Lines(parameters, ""), tag);
    assert "" + ("\n" + Lines(parameters, "")) == "\n" + Lines(parameters, "");
  }

  lemma NoCloseInside(call: Call, after: string)
    requires WellTagged(call) && !Contains(after, CALL_CLOSE)
    ensures !Contains(InsideTo(call, after), CALL_CLOSE)
  {
    hide Find, Lines, NameLine, CALL_CLOSE, FUNCTION_CLOSE, EndsWith, CloseTag;
    Tags();
    ClosesDiffer();
    TagHasNoNewline(CALL_CLOSE);
    NoCloseAcross(after);
    FindLines(call.parameters, FUNCTION_CLOSE + after, CALL_CLOSE);
    NameHolds(call.name);
    var lines := Lines(call.parameters, FUNCTION_CLOSE + after);
    FindLine(NameLine(call.name), lines, CALL_CLOSE);
    FindLine("", NameLine(call.name) + ("\n" + lines), CALL_CLOSE);
    Finds("", CALL_CLOSE);
    assert "" + InsideTo(call, after) == InsideTo(call, after);
  }

  lemma NoCloseAcross(after: string)
    requires !Contains(after, CALL_CLOSE)
    ensures !Contains(FUNCTION_CLOSE + after, CALL_CLOSE)
  {
    hide Find, OccursAt;
    var text := FUNCTION_CLOSE + after;
    Finds(text, CALL_CLOSE);
    if Contains(text, CALL_CLOSE) {
      var i := Find(text, CALL_CLOSE).value;
      assert text[|FUNCTION_CLOSE|..|text|] == after;
      if i >= |FUNCTION_CLOSE| {
        OccursPart(text, |FUNCTION_CLOSE|, |text|, i - |FUNCTION_CLOSE|, CALL_CLOSE);
        FindIsFirst(after, CALL_CLOSE, i - |FUNCTION_CLOSE|);
      } else {
        CharAtOffset(text, i, CALL_CLOSE, 0);
        CharAtOffset(text, i, CALL_CLOSE, 2);
      }
    }
  }

  function Insides(calls: seq<Call>): (r: seq<string>)
    ensures |r| == |calls|
  {
    seq(|calls|, i requires 0 <= i < |calls| => InsideTo(calls[i], "\n"))
  }

  lemma {:induction false} TurnIsTagged(calls: seq<Call>, gaps: seq<string>, last: string)
    requires |gaps| == |calls|
    ensures Turn(calls, gaps) + (CALL_OPEN + last) == Tagged(Insides(calls), gaps, Some(last))
    decreases |calls|
  {
    hide CALL_OPEN, CALL_CLOSE, InsideTo, Inside;
    if calls != [] {
      TurnIsTagged(calls[1..], gaps[1..], last);
      assert Insides(calls)[1..] == Insides(calls[1..]);
      InsideClosed(calls[0]);
      var block, rest := InsideTo(calls[0], "\n"), Turn(calls[1..], gaps[1..]);
      assert CALL_OPEN + (block + CALL_CLOSE) + (gaps[0] + rest) + (CALL_OPEN + last)
          == CALL_OPEN + (block + (CALL_CLOSE + (gaps[0] + (rest + (CALL_OPEN + last)))));
    } else {
      assert "" + (CALL_OPEN + last) == CALL_OPEN + last;
    }
  }

  lemma InsideClosed(call: Call)
    ensures Inside(call, CALL_CLOSE) == InsideTo(call, "\n") + CALL_CLOSE
  {
    hide CALL_CLOSE, FUNCTION_CLOSE, Lines, NameLine;
    InsidePrefix(call, CALL_CLOSE);
    assert "\n" + "" == "\n";
  }

  lemma {:induction false} CallsOf(calls: seq<Call>, call: Call, last: string)
    requires (forall c :: c in calls ==> WellTagged(c)) && ParseCall(last) == Some(call)
    ensures CallsIn(Insides(calls) + [last]) == calls + [call]
    decreases |calls|
  {
    hide ParseCall, InsideTo, WellTagged;
    var all := Insides(calls) + [last];
    if calls == [] {
      assert all[1..] == [] && all[0] == last;
    } else {
      assert calls[0] in calls;
      InsideToParsed(calls[0], "\n");
      CallsOf(calls[1..], call, last);
      assert all[1..] == Insides(calls[1..]) + [last] && all[0] == InsideTo(calls[0], "\n");
      assert calls == [calls[0]] + calls[1..];
    }
  }

  /** A turn of well-tagged calls that is cut off anywhere after its last
      function's closing tag still parses to all of them and the text before. */
  lemma CutTurnParses(content: string, calls: seq<Call>, gaps: seq<string>, call: Call, after: string)
    requires |gaps| == |calls| && Gap(content) && (forall g :: g in gaps ==> Gap(g))
    requires (forall c :: c in calls ==> WellTagged(c)) && WellTagged(call) && !Contains(after, CALL_CLOSE)
    ensures Parse(content + (Turn(calls, gaps) + (CALL_OPEN + InsideTo(call, after)))) == (TrimEnd(content), calls + [call])
  {
    hide Find, Parse, ParseCall, TrimEnd, WellTagged, CALL_OPEN, CALL_CLOSE, Gap, Contains, InsideTo, Turn, Tagged, CallsIn;
    var last := InsideTo(call, after);
    TurnIsTagged(calls, gaps, last);
    InsideToParsed(call, after);
    CallsOf(calls, call, last);
    NoCloseInside(call, after);
    NoNewlineClose();
    forall b | b in Insides(calls) ensures !Contains(b, CALL_CLOSE) {
      var i :| 0 <= i < |calls| && b == Insides(calls)[i];
      assert calls[i] in calls;
      NoCloseInside(calls[i], "\n");
    }
    TextParses(content, Insides(calls), gaps, Some(last));
  }

  lemma NoNewlineClose()
    ensures !Contains("\n", CALL_CLOSE)
  {
    assert |CALL_CLOSE| > 1;
  }
}
