/** JSON text (RFC 8259): the grammar the parser accepts, its bound on nesting,
    what parsing into a value loses, and the template's printer. */
module Json {
  import opened Wrappers

  /** What was read, and the text after it. */
  datatype Read<+T> = Read(value: T, rest: string)

  /** A JSON text's structure: number spellings and duplicate members kept. */
  datatype Tree =
    | Null
    | Bool(truth: bool)
    | Number(lexeme: string)
    | Text(text: string)
    | Array(items: seq<Tree>)
    | Object(members: seq<Member>)

  datatype Member = Member(key: string, value: Tree)

  /** How far containers may nest in a text the parser accepts. */
  const DEPTH_LIMIT: nat := 128

  predicate IsSpace(c: char) { c == ' ' || c == '\t' || c == '\n' || c == '\r' }

  function SkipSpace(s: string): (r: string)
    ensures |r| <= |s|
    ensures r == "" || !IsSpace(r[0])
  {
    if s != "" && IsSpace(s[0]) then SkipSpace(s[1..]) else s
  }

  // ----- strings -----

  function HexDigit(c: char): (n: Option<nat>)
    ensures n.Some? ==> n.value < 16
  {
    if '0' <= c <= '9' then Some((c as int - '0' as int) as nat)
    else if 'a' <= c <= 'f' then Some((c as int - 'a' as int + 10) as nat)
    else if 'A' <= c <= 'F' then Some((c as int - 'A' as int + 10) as nat)
    else None
  }

  function HexValue(s: string): (n: Option<nat>)
    ensures n.Some? ==> |s| >= 4 && n.value < 0x1_0000 && forall i :: 0 <= i < 4 ==> HexDigit(s[i]).Some?
  {
    if |s| < 4 then None
    else
      var a, b, c, d := HexDigit(s[0]), HexDigit(s[1]), HexDigit(s[2]), HexDigit(s[3]);
      if a.None? || b.None? || c.None? || d.None? then None
      else Some(a.value * 0x1000 + b.value * 0x100 + c.value * 0x10 + d.value)
  }

  /** The character of a `u` escape; a pair of surrogates is one character. */
  function UnicodeEscape(s: string): (r: Option<Read<char>>)
    ensures r.Some? ==> |r.value.rest| < |s|
  {
    var n := HexValue(s);
    if n.None? || 0xDC00 <= n.value < 0xE000 then None
    else if n.value < 0xD800 || n.value >= 0xE000 then Some(Read(n.value as char, s[4..]))
    else if |s| < 6 || s[4] != '\\' || s[5] != 'u' then None
    else
      var low := HexValue(s[6..]);
      if low.None? || low.value < 0xDC00 || low.value >= 0xE000 then None
      else Some(Read((0x1_0000 + (n.value - 0xD800) * 0x400 + (low.value - 0xDC00)) as char, s[10..]))
  }

  /** The character an escape stands for, from the text after the backslash. */
  function Escape(s: string): (r: Option<Read<char>>)
    ensures r.Some? ==> |r.value.rest| < |s|
  {
    if s == "" then None
    else if s[0] == '"' || s[0] == '\\' || s[0] == '/' then Some(Read(s[0], s[1..]))
    else if s[0] == 'b' then Some(Read('\U{0008}', s[1..]))
    else if s[0] == 'f' then Some(Read('\U{000C}', s[1..]))
    else if s[0] == 'n' then Some(Read('\n', s[1..]))
    else if s[0] == 'r' then Some(Read('\r', s[1..]))
    else if s[0] == 't' then Some(Read('\t', s[1..]))
    else if s[0] == 'u' then UnicodeEscape(s[1..])
    else None
  }

  predicate IsControl(c: char) { (c as int) < 0x20 }

  /** A string's contents, from the text after its opening quote. */
  function StringBody(s: string): (r: Option<Read<string>>)
    ensures r.Some? ==> |r.value.rest| < |s|
    decreases |s|
  {
    if s == "" then None
    else if s[0] == '"' then Some(Read("", s[1..]))
    else if s[0] == '\\' then
      var e := Escape(s[1..]);
      if e.None? then None
      else
        var more := StringBody(e.value.rest);
        if more.None? then None else Some(Read([e.value.value] + more.value.value, more.value.rest))
    else if IsControl(s[0]) then None
    else
      var more := StringBody(s[1..]);
      if more.None? then None else Some(Read([s[0]] + more.value.value, more.value.rest))
  }

  function HexChar(n: nat): char
    requires n < 16
  {
    if n < 10 then ('0' as int + n) as char else ('a' as int + n - 10) as char
  }

  function EscapeChar(c: char): string {
    if c == '"' then "\\\"" else if c == '\\' then "\\\\"
    else if c == '\U{0008}' then "\\b" else if c == '\U{000C}' then "\\f"
    else if c == '\n' then "\\n" else if c == '\r' then "\\r" else if c == '\t' then "\\t"
    else if IsControl(c) then "\\u00" + [HexChar(c as int / 16), HexChar(c as int % 16)]
    else [c]
  }

  function EscapeAll(t: string): string {
    if t == "" then "" else EscapeChar(t[0]) + EscapeAll(t[1..])
  }

  /** A string literal, escaped the way the serialiser escapes. */
  function PrintString(t: string): string { "\"" + EscapeAll(t) + "\"" }

  // ----- numbers -----

  datatype NumberState = Start | Minus | Zero | Int | Dot | Frac | Exponent | Sign | Exp

  predicate IsDigit(c: char) { '0' <= c <= '9' }

  function Next(state: NumberState, c: char): Option<NumberState> {
    match state
    case Start => if c == '-' then Some(Minus) else if c == '0' then Some(Zero) else if IsDigit(c) then Some(Int) else None
    case Minus => if c == '0' then Some(Zero) else if IsDigit(c) then Some(Int) else None
    case Zero => if c == '.' then Some(Dot) else if c == 'e' || c == 'E' then Some(Exponent) else None
    case Int =>
      if IsDigit(c) then Some(Int) else if c == '.' then Some(Dot) else if c == 'e' || c == 'E' then Some(Exponent) else None
    case Dot => if IsDigit(c) then Some(Frac) else None
    case Frac => if IsDigit(c) then Some(Frac) else if c == 'e' || c == 'E' then Some(Exponent) else None
    case Exponent => if c == '+' || c == '-' then Some(Sign) else if IsDigit(c) then Some(Exp) else None
    case Sign => if IsDigit(c) then Some(Exp) else None
    case Exp => if IsDigit(c) then Some(Exp) else None
  }

  predicate Complete(state: NumberState) { state == Zero || state == Int || state == Frac || state == Exp }

  /** How many characters a number takes, read as far as it goes. */
  function NumberLength(state: NumberState, s: string): (n: Option<nat>)
    ensures n.Some? ==> n.value <= |s|
    decreases |s|
  {
    if s != "" && Next(state, s[0]).Some? then
      var more := NumberLength(Next(state, s[0]).value, s[1..]);
      if more.None? then None else Some(more.value + 1)
    else if Complete(state) then Some(0)
    else None
  }

  predicate IsNumber(lexeme: string) { NumberLength(Start, lexeme) == Some(|lexeme|) }

  predicate NumberChar(c: char) { IsDigit(c) || c == '.' || c == 'e' || c == 'E' || c == '+' || c == '-' }

  // ----- values -----

  /** Read one value; containers may nest fewer than `depth` deep. */
  function ReadValue(s: string, depth: nat): (r: Option<Read<Tree>>)
    ensures r.Some? ==> |r.value.rest| < |s|
    decreases |s|, 1
  {
    var t := SkipSpace(s);
    if t == "" then None
    else if t[0] == '"' then
      var body := StringBody(t[1..]);
      if body.None? then None else Some(Read(Text(body.value.value), body.value.rest))
    else if t[0] == '[' then
      if depth <= 1 then None else ReadArray(t[1..], depth - 1)
    else if t[0] == '{' then
      if depth <= 1 then None else ReadObject(t[1..], depth - 1)
    else ReadScalar(t)
  }

  function ReadScalar(t: string): (r: Option<Read<Tree>>)
    ensures r.Some? ==> |r.value.rest| < |t|
  {
    if "null" <= t then Some(Read(Null, t[4..]))
    else if "true" <= t then Some(Read(Bool(true), t[4..]))
    else if "false" <= t then Some(Read(Bool(false), t[5..]))
    else
      var n := NumberLength(Start, t);
      if n.None? || n.value == 0 then None else Some(Read(Number(t[..n.value]), t[n.value..]))
  }

  function ReadArray(s: string, depth: nat): (r: Option<Read<Tree>>)
    ensures r.Some? ==> |r.value.rest| < |s|
    decreases |s|, 3
  {
    var t := SkipSpace(s);
    if t != "" && t[0] == ']' then Some(Read(Array([]), t[1..]))
    else
      var items := ReadItems(s, depth);
      if items.None? then None else Some(Read(Array(items.value.value), items.value.rest))
  }

  function ReadItems(s: string, depth: nat): (r: Option<Read<seq<Tree>>>)
    ensures r.Some? ==> |r.value.rest| < |s|
    decreases |s|, 2
  {
    var first := ReadValue(s, depth);
    if first.None? then None
    else
      var t := SkipSpace(first.value.rest);
      if t == "" then None
      else if t[0] == ']' then Some(Read([first.value.value], t[1..]))
      else if t[0] != ',' then None
      else
        var more := ReadItems(t[1..], depth);
        if more.None? then None else Some(Read([first.value.value] + more.value.value, more.value.rest))
  }

  function ReadObject(s: string, depth: nat): (r: Option<Read<Tree>>)
    ensures r.Some? ==> |r.value.rest| < |s|
    decreases |s|, 3
  {
    var t := SkipSpace(s);
    if t != "" && t[0] == '}' then Some(Read(Object([]), t[1..]))
    else
      var members := ReadMembers(s, depth);
      if members.None? then None else Some(Read(Object(members.value.value), members.value.rest))
  }

  /** A member's key and the colon after it. */
  function ReadKey(s: string): (r: Option<Read<string>>)
    ensures r.Some? ==> |r.value.rest| < |s|
  {
    var t := SkipSpace(s);
    if t == "" || t[0] != '"' then None
    else
      var key := StringBody(t[1..]);
      if key.None? then None
      else
        var u := SkipSpace(key.value.rest);
        if u == "" || u[0] != ':' then None else Some(Read(key.value.value, u[1..]))
  }

  function ReadMembers(s: string, depth: nat): (r: Option<Read<seq<Member>>>)
    ensures r.Some? ==> |r.value.rest| < |s|
    decreases |s|, 2
  {
    var key := ReadKey(s);
    if key.None? then None
    else
      var value := ReadValue(key.value.rest, depth);
      if value.None? then None
      else
        var member, t := Member(key.value.value, value.value.value), SkipSpace(value.value.rest);
        if t == "" then None
        else if t[0] == '}' then Some(Read([member], t[1..]))
        else if t[0] != ',' then None
        else
          var more := ReadMembers(t[1..], depth);
          if more.None? then None else Some(Read([member] + more.value.value, more.value.rest))
  }

  /** A whole text that is one value. */
  function ReadText(s: string, depth: nat): Option<Tree> {
    var r := ReadValue(s, depth);
    if r.Some? && SkipSpace(r.value.rest) == "" then Some(r.value.value) else None
  }

  // ----- parsing into a value -----

  /** How the parser re-prints a number; `None` is a number out of range. */
  type Canon = string -> Option<string>

  /** Every number kept in its own spelling. */
  const AsIs: Canon := (lexeme: string) => Some(lexeme)

  /** Insert into an order-preserving map: a repeated key keeps its place and
      takes the new value. */
  function Insert(members: seq<Member>, m: Member): seq<Member> {
    if members == [] then [m]
    else if members[0].key == m.key then [m] + members[1..]
    else [members[0]] + Insert(members[1..], m)
  }

  /** What parsing a text of this structure yields. */
  function Convert(c: Canon, t: Tree): Option<Tree>
    decreases t, 0
  {
    match t
    case Number(lexeme) => if c(lexeme).None? then None else Some(Number(c(lexeme).value))
    case Array(items) => if ConvertItems(c, items).None? then None else Some(Array(ConvertItems(c, items).value))
    case Object(members) =>
      if ConvertMembers(c, members).None? then None else Some(Object(ConvertMembers(c, members).value))
    case _ => Some(t)
  }

  function ConvertItems(c: Canon, items: seq<Tree>): (r: Option<seq<Tree>>)
    decreases items, 0
  {
    if items == [] then Some([])
    else
      var first, more := Convert(c, items[0]), ConvertItems(c, items[1..]);
      if first.None? || more.None? then None else Some([first.value] + more.value)
  }

  /** Members inserted one after the other. */
  function ConvertMembers(c: Canon, members: seq<Member>): (r: Option<seq<Member>>)
    decreases members, 0
  {
    if members == [] then Some([])
    else
      var last := members[|members| - 1];
      assert last in members;
      var front, value := ConvertMembers(c, members[..|members| - 1]), Convert(c, last.value);
      if front.None? || value.None? then None else Some(Insert(front.value, Member(last.key, value.value)))
  }

  /** Parsing a whole text into a value. */
  function ParseText(c: Canon, s: string): Option<Tree> {
    var t := ReadText(s, DEPTH_LIMIT);
    if t.None? then None else Convert(c, t.value)
  }

  // ----- printing -----

  /** JSON with a space after every colon and comma, in the order given. */
  function PythonJson(t: Tree): string
    decreases t, 0
  {
    match t
    case Null => "null"
    case Bool(truth) => if truth then "true" else "false"
    case Number(lexeme) => lexeme
    case Text(text) => PrintString(text)
    case Array(items) => "[" + PrintItems(items) + "]"
    case Object(members) => "{" + PrintMembers(members) + "}"
  }

  function PrintItems(items: seq<Tree>): string
    decreases items, 0
  {
    if items == [] then "" else if |items| == 1 then PythonJson(items[0])
    else PythonJson(items[0]) + ", " + PrintItems(items[1..])
  }

  function PrintMember(m: Member): string
    decreases m, 0
  {
    PrintString(m.key) + ": " + PythonJson(m.value)
  }

  function PrintMembers(members: seq<Member>): string
    decreases members, 0
  {
    if members == [] then "" else if |members| == 1 then PrintMember(members[0])
    else PrintMember(members[0]) + ", " + PrintMembers(members[1..])
  }
}
