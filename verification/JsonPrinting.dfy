/** The template's printer inverts the reader, and how nesting bounds reading. */
module JsonPrinting {
  import opened Wrappers
  import opened Json
  import opened JsonReading

  // ----- strings -----

  lemma HexPrinted(n: nat)
    requires n < 16
    ensures HexDigit(HexChar(n)) == Some(n)
  {}

  /** A printed character, before any string body, reads as that character. */
  lemma CharPrinted(c: char, body: string)
    requires StringBody(body).Some?
    ensures
      var r := StringBody(body).value;
      StringBody(EscapeChar(c) + body) == Some(Read([c] + r.value, r.rest))
  {
    var e := EscapeChar(c);
    var x := e + body;
    assert x[0] == e[0];
    if |e| == 1 {
      assert x[1..] == body;
    } else if |e| == 2 {
      assert x[1..] == [e[1]] + body && x[1..][1..] == body;
    } else {
      var hi, lo := c as int / 16, c as int % 16;
      HexPrinted(hi);
      HexPrinted(lo);
      ControlPrinted(HexChar(hi), HexChar(lo), c, body);
      assert x[1..] == ['u', '0', '0', HexChar(hi), HexChar(lo)] + body;
    }
  }

  lemma ControlPrinted(hi: char, lo: char, c: char, body: string)
    requires (c as int) < 0x20 && HexDigit(hi) == Some(c as int / 16) && HexDigit(lo) == Some(c as int % 16)
    ensures Escape(['u', '0', '0', hi, lo] + body) == Some(Read(c, body))
  {
    var y := ['u', '0', '0', hi, lo] + body;
    var z := y[1..];
    assert z == ['0', '0', hi, lo] + body;
    assert z[4..] == body;
    assert HexValue(z) == Some(c as int);
  }

  lemma {:induction false} StringPrinted(t: string, r: string)
    ensures StringBody(EscapeAll(t) + ("\"" + r)) == Some(Read(t, r))
    decreases |t|
  {
    hide EscapeChar, StringBody;
    var tail := "\"" + r;
    if t == "" {
      assert EscapeAll(t) + tail == tail;
      StringEnd(r);
    } else {
      StringPrinted(t[1..], r);
      CharPrinted(t[0], EscapeAll(t[1..]) + tail);
      Assoc(EscapeChar(t[0]), EscapeAll(t[1..]), tail);
      assert [t[0]] + t[1..] == t;
    }
  }

  lemma StringEnd(r: string)
    ensures StringBody("\"" + r) == Some(Read("", r))
  {
    assert ("\"" + r)[1..] == r;
  }

  lemma Assoc(a: string, b: string, c: string)
    ensures (a + b) + c == a + (b + c)
  {}

  // ----- what can be printed and read back -----

  function Nesting(t: Tree): nat
    decreases t, 0
  {
    match t
    case Array(items) => 1 + DeepestItem(items)
    case Object(members) => 1 + DeepestMember(members)
    case _ => 0
  }

  function DeepestItem(items: seq<Tree>): nat
    decreases items, 0
  {
    if items == [] then 0
    else if Nesting(items[0]) > DeepestItem(items[1..]) then Nesting(items[0]) else DeepestItem(items[1..])
  }

  function DeepestMember(members: seq<Member>): nat
    decreases members, 0
  {
    if members == [] then 0
    else
      assert members[0].value < members[0];
      if Nesting(members[0].value) > DeepestMember(members[1..]) then Nesting(members[0].value) else DeepestMember(members[1..])
  }

  /** Every number is a JSON number that parsing leaves alone, and no object
      repeats a key. */
  predicate Canonical(c: Canon, t: Tree)
    decreases t, 0
  {
    match t
    case Number(lexeme) => IsNumber(lexeme) && c(lexeme) == Some(lexeme)
    case Array(items) => CanonicalItems(c, items)
    case Object(members) => CanonicalMembers(c, members)
    case _ => true
  }

  predicate CanonicalItems(c: Canon, items: seq<Tree>)
    decreases items, 0
  {
    items != [] ==> Canonical(c, items[0]) && CanonicalItems(c, items[1..])
  }

  predicate CanonicalMembers(c: Canon, members: seq<Member>)
    decreases members, 0
  {
    members != [] ==>
      (assert members[0].value < members[0];
       Canonical(c, members[0].value)) && CanonicalMembers(c, members[1..])
      && forall i :: 1 <= i < |members| ==> members[i].key != members[0].key
  }

  lemma PrintedStart(c: Canon, t: Tree)
    requires Canonical(c, t)
    ensures PythonJson(t) != "" && !IsSpace(PythonJson(t)[0]) && PythonJson(t)[0] != ']'
    ensures t.Number? <==> (IsDigit(PythonJson(t)[0]) || PythonJson(t)[0] == '-')
  {
    hide EscapeAll, PrintItems, PrintMembers;
  }

  lemma ScalarPrinted(c: Canon, t: Tree, r: string)
    requires Canonical(c, t) && (t.Null? || t.Bool? || t.Number?) && Closed(t, r)
    ensures ReadScalar(PythonJson(t) + r) == Some(Read(t, r))
  {
    var p := PythonJson(t);
    var x := p + r;
    PrintedStart(c, t);
    assert x[..|p|] == p && x[|p|..] == r && x[0] == p[0];
    if t.Number? {
      NumberMoves(Start, p, |p|, x);
    } else {
      assert p <= x;
    }
  }

  /** Reading a printed value gives it back, whatever delimiter follows. */
  lemma {:induction false} ValuePrinted(c: Canon, t: Tree, depth: nat, r: string)
    requires Canonical(c, t) && Nesting(t) < depth && Closed(t, r)
    ensures ReadValue(PythonJson(t) + r, depth) == Some(Read(t, r))
    decreases t, 0
  {
    hide StringBody, ReadArray, ReadObject, ReadScalar, EscapeAll, NumberLength;
    var x := PythonJson(t) + r;
    PrintedStart(c, t);
    assert x[0] == PythonJson(t)[0];
    assert SkipSpace(x) == x;
    match t {
      case Text(text) =>
        StringPrinted(text, r);
        assert x[1..] == EscapeAll(text) + ("\"" + r);
      case Array(items) =>
        ArrayPrinted(c, items, depth - 1, r);
        assert x[1..] == PrintItems(items) + ("]" + r);
      case Object(members) =>
        ObjectPrinted(c, members, depth - 1, r);
        assert x[1..] == PrintMembers(members) + ("}" + r);
      case _ =>
        ScalarPrinted(c, t, r);
    }
  }

  lemma {:induction false} ArrayPrinted(c: Canon, items: seq<Tree>, depth: nat, r: string)
    requires CanonicalItems(c, items) && DeepestItem(items) < depth
    ensures ReadArray(PrintItems(items) + ("]" + r), depth) == Some(Read(Array(items), r))
    decreases items, 2
  {
    hide ReadItems, PythonJson;
    var tail := "]" + r;
    var x := PrintItems(items) + tail;
    if items == [] {
      assert x == tail && SkipSpace(x) == x;
      assert x[1..] == r;
    } else {
      ItemsPrinted(c, items, depth, r);
      PrintedStart(c, items[0]);
      assert x[0] == PythonJson(items[0])[0];
      assert SkipSpace(x) == x;
    }
  }

  lemma {:induction false} ItemsPrinted(c: Canon, items: seq<Tree>, depth: nat, r: string)
    requires items != [] && CanonicalItems(c, items) && DeepestItem(items) < depth
    ensures ReadItems(PrintItems(items) + ("]" + r), depth) == Some(Read(items, r))
    decreases items, 1
  {
    hide ReadValue, ReadItems, PythonJson, Nesting, Canonical;
    var tail := "]" + r;
    var rest := items[1..];
    if rest == [] {
      ValuePrinted(c, items[0], depth, tail);
      LastItemRead(PrintItems(items) + tail, depth, items[0], r);
      assert items == [items[0]];
    } else {
      var after := PrintItems(rest) + tail;
      ItemsPrinted(c, rest, depth, r);
      AfterComma(c, rest, depth, after, r);
      ItemThen(PythonJson(items[0]), PrintItems(rest), tail);
      ValuePrinted(c, items[0], depth, [','] + ([' '] + after));
      ItemRead(PrintItems(items) + tail, depth, items[0], [' '] + after, rest, r);
      assert items == [items[0]] + rest;
    }
  }

  lemma LastItemRead(s: string, depth: nat, v: Tree, r: string)
    requires ReadValue(s, depth) == Some(Read(v, "]" + r))
    ensures ReadItems(s, depth) == Some(Read([v], r))
  {
    hide ReadValue;
    Delimited(']', r);
  }

  lemma ItemRead(s: string, depth: nat, v: Tree, next: string, more: seq<Tree>, r: string)
    requires ReadValue(s, depth) == Some(Read(v, [','] + next)) && ReadItems(next, depth) == Some(Read(more, r))
    ensures ReadItems(s, depth) == Some(Read([v] + more, r))
  {
    hide ReadValue;
    Delimited(',', next);
  }

  lemma ItemThen(item: string, items: string, tail: string)
    ensures (item + ", " + items) + tail == item + ([','] + ([' '] + (items + tail)))
  {
    assert ", " == [','] + [' '];
  }

  lemma Delimited(d: char, r: string)
    requires d == ',' || d == ']' || d == '}' || d == ':'
    ensures SkipSpace([d] + r) == [d] + r && ([d] + r)[1..] == r
  {}

  /** The printer's space after a comma is skipped. */
  lemma AfterComma(c: Canon, items: seq<Tree>, depth: nat, after: string, r: string)
    requires ReadItems(after, depth) == Some(Read(items, r))
    ensures ReadItems([' '] + after, depth) == Some(Read(items, r))
  {
    hide ReadScalar, ReadArray, ReadObject, StringBody;
    var x := [' '] + after;
    assert x[1..] == after && SkipSpace(x) == SkipSpace(after);
  }

  lemma {:induction false} ObjectPrinted(c: Canon, members: seq<Member>, depth: nat, r: string)
    requires CanonicalMembers(c, members) && DeepestMember(members) < depth
    ensures ReadObject(PrintMembers(members) + ("}" + r), depth) == Some(Read(Object(members), r))
    decreases members, 2
  {
    hide ReadMembers, PythonJson, EscapeAll;
    var tail := "}" + r;
    var x := PrintMembers(members) + tail;
    if members == [] {
      assert x == tail && SkipSpace(x) == x;
      assert x[1..] == r;
    } else {
      MembersPrinted(c, members, depth, r);
      assert x[0] == '"';
      assert SkipSpace(x) == x;
    }
  }

  lemma KeyPrinted(key: string, after: string)
    ensures ReadKey(PrintString(key) + (": " + after)) == Some(Read(key, [' '] + after))
  {
    hide StringBody, EscapeAll;
    var x := PrintString(key) + (": " + after);
    assert SkipSpace(x) == x;
    StringPrinted(key, ": " + after);
    assert x[1..] == EscapeAll(key) + ("\"" + (": " + after));
    assert ": " + after == [':'] + ([' '] + after);
    Delimited(':', [' '] + after);
  }

  lemma SpaceBefore(after: string, depth: nat)
    requires ReadValue(after, depth).Some?
    ensures ReadValue([' '] + after, depth) == ReadValue(after, depth)
  {
    hide ReadScalar, ReadArray, ReadObject, StringBody;
    var x := [' '] + after;
    assert x[1..] == after && SkipSpace(x) == SkipSpace(after);
  }

  lemma KeySpaceBefore(after: string, depth: nat)
    requires ReadMembers(after, depth).Some?
    ensures ReadMembers([' '] + after, depth) == ReadMembers(after, depth)
  {
    hide StringBody, ReadValue;
    var x := [' '] + after;
    assert x[1..] == after && SkipSpace(x) == SkipSpace(after);
  }

  lemma {:induction false} MembersPrinted(c: Canon, members: seq<Member>, depth: nat, r: string)
    requires members != [] && CanonicalMembers(c, members) && DeepestMember(members) < depth
    ensures ReadMembers(PrintMembers(members) + ("}" + r), depth) == Some(Read(members, r))
    decreases members, 1
  {
    hide ReadValue, ReadMembers, PythonJson, ReadKey, PrintString, Nesting, Canonical;
    var tail := "}" + r;
    var rest, m := members[1..], members[0];
    assert m.value < m;
    if rest == [] {
      MemberPrinted(c, m, depth, tail);
      LastMemberRead(PrintMembers(members) + tail, depth, m, r);
      assert members == [m];
    } else {
      var after := PrintMembers(rest) + tail;
      MembersPrinted(c, rest, depth, r);
      KeySpaceBefore(after, depth);
      ItemThen(PrintMember(m), PrintMembers(rest), tail);
      MemberPrinted(c, m, depth, [','] + ([' '] + after));
      MemberRead(PrintMembers(members) + tail, depth, m, [' '] + after, rest, r);
      assert members == [m] + rest;
    }
  }

  /** The key of a printed member reads back, and then its value. */
  lemma {:induction false} MemberPrinted(c: Canon, m: Member, depth: nat, more: string)
    requires Canonical(c, m.value) && Nesting(m.value) < depth && Closed(m.value, more)
    ensures
      var s := PrintMember(m) + more;
      && ReadKey(s).Some? && ReadKey(s).value.value == m.key
      && ReadValue(ReadKey(s).value.rest, depth) == Some(Read(m.value, more))
    decreases m, 0
  {
    hide ReadValue, PythonJson, ReadKey, PrintString, Nesting, Canonical;
    ValuePrinted(c, m.value, depth, more);
    SpaceBefore(PythonJson(m.value) + more, depth);
    KeyPrinted(m.key, PythonJson(m.value) + more);
    Assoc(PrintString(m.key), ": ", PythonJson(m.value));
    Assoc(PrintString(m.key), ": " + PythonJson(m.value), more);
    Assoc(": ", PythonJson(m.value), more);
  }

  lemma LastMemberRead(s: string, depth: nat, m: Member, r: string)
    requires ReadKey(s).Some? && ReadKey(s).value.value == m.key
    requires ReadValue(ReadKey(s).value.rest, depth) == Some(Read(m.value, "}" + r))
    ensures ReadMembers(s, depth) == Some(Read([m], r))
  {
    hide ReadValue, ReadKey;
    Delimited('}', r);
  }

  lemma MemberRead(s: string, depth: nat, m: Member, next: string, more: seq<Member>, r: string)
    requires ReadKey(s).Some? && ReadKey(s).value.value == m.key
    requires ReadValue(ReadKey(s).value.rest, depth) == Some(Read(m.value, [','] + next))
    requires ReadMembers(next, depth) == Some(Read(more, r))
    ensures ReadMembers(s, depth) == Some(Read([m] + more, r))
  {
    hide ReadValue, ReadKey;
    Delimited(',', next);
  }

  // ----- parsing what was printed -----

  lemma {:induction false} InsertNew(members: seq<Member>, m: Member)
    requires forall i :: 0 <= i < |members| ==> members[i].key != m.key
    ensures Insert(members, m) == members + [m]
    decreases |members|
  {
    if members != [] {
      InsertNew(members[1..], m);
      assert [members[0]] + (members[1..] + [m]) == members + [m];
    }
  }

  lemma {:induction false} CanonicalAt(c: Canon, members: seq<Member>)
    requires CanonicalMembers(c, members)
    ensures forall i :: 0 <= i < |members| ==> Canonical(c, members[i].value)
    ensures forall i, j :: 0 <= i < j < |members| ==> members[j].key != members[i].key
    decreases |members|
  {
    if members != [] {
      var rest := members[1..];
      CanonicalAt(c, rest);
      forall i | 0 <= i < |members| ensures Canonical(c, members[i].value) {
        if i > 0 { assert members[i] == rest[i - 1]; }
      }
      forall i, j | 0 <= i < j < |members| ensures members[j].key != members[i].key {
        if i > 0 { assert members[i] == rest[i - 1] && members[j] == rest[j - 1]; }
      }
    }
  }

  /** Parsing leaves a canonical value alone. */
  lemma {:induction false} ConvertCanonical(c: Canon, t: Tree)
    requires Canonical(c, t)
    ensures Convert(c, t) == Some(t)
    decreases t, 0
  {
    match t
    case Array(items) => ItemsCanonical(c, items);
    case Object(members) =>
      CanonicalAt(c, members);
      forall m | m in members ensures Convert(c, m.value) == Some(m.value) {
        var i :| 0 <= i < |members| && members[i] == m;
        ConvertCanonical(c, m.value);
      }
      MembersCanonical(c, members, |members|);
      assert members[..|members|] == members;
    case _ =>
  }

  lemma {:induction false} ItemsCanonical(c: Canon, items: seq<Tree>)
    requires CanonicalItems(c, items)
    ensures ConvertItems(c, items) == Some(items)
    decreases items, 0
  {
    if items != [] {
      ConvertCanonical(c, items[0]);
      ItemsCanonical(c, items[1..]);
      assert [items[0]] + items[1..] == items;
    }
  }

  lemma {:induction false} MembersCanonical(c: Canon, members: seq<Member>, n: nat)
    requires n <= |members| && forall m :: m in members ==> Convert(c, m.value) == Some(m.value)
    requires forall i, j :: 0 <= i < j < |members| ==> members[j].key != members[i].key
    ensures ConvertMembers(c, members[..n]) == Some(members[..n])
    decreases n
  {
    if n > 0 {
      MembersCanonical(c, members, n - 1);
      var now := members[..n];
      assert now[..n - 1] == members[..n - 1] && now[n - 1] == members[n - 1];
      assert members[n - 1] in members;
      InsertNew(members[..n - 1], members[n - 1]);
      assert members[..n - 1] + [members[n - 1]] == now;
      assert Member(now[n - 1].key, now[n - 1].value) == now[n - 1];
    } else {
      assert members[..0] == [];
    }
  }

  /** Parse after print is the identity on canonical values within the nesting
      bound. */
  lemma ParsePrinted(c: Canon, t: Tree)
    requires Canonical(c, t) && Nesting(t) < DEPTH_LIMIT
    ensures ReadText(PythonJson(t), DEPTH_LIMIT) == Some(t) && ParseText(c, PythonJson(t)) == Some(t)
  {
    hide ReadValue, Convert;
    ValuePrinted(c, t, DEPTH_LIMIT, "");
    assert PythonJson(t) + "" == PythonJson(t);
    ConvertCanonical(c, t);
  }

  // ----- the nesting bound -----

  /** What is read nests within the bound, and any bound above its nesting
      reads the same. */
  lemma {:induction false} ValueDepth(s: string, depth: nat, other: nat)
    requires depth > 0 && ReadValue(s, depth).Some?
    ensures Nesting(ReadValue(s, depth).value.value) < depth
    ensures Nesting(ReadValue(s, depth).value.value) < other ==> ReadValue(s, other) == ReadValue(s, depth)
    decreases |s|, 1
  {
    hide StringBody, ReadArray, ReadObject, NumberLength, SkipSpace;
    var t := SkipSpace(s);
    if t[0] == '[' {
      ArrayDepth(t[1..], depth - 1, if other > 0 then other - 1 else 0);
    } else if t[0] == '{' {
      ObjectDepth(t[1..], depth - 1, if other > 0 then other - 1 else 0);
    }
  }

  lemma {:induction false} ArrayDepth(s: string, depth: nat, other: nat)
    requires depth > 0 && ReadArray(s, depth).Some?
    ensures
      var v := ReadArray(s, depth).value.value;
      v.Array? && DeepestItem(v.items) < depth && (DeepestItem(v.items) < other ==> ReadArray(s, other) == ReadArray(s, depth))
    decreases |s|, 3
  {
    hide ReadItems, SkipSpace;
    var t := SkipSpace(s);
    if !(t != "" && t[0] == ']') { ItemsDepth(s, depth, other); }
  }

  lemma {:induction false} ItemsDepth(s: string, depth: nat, other: nat)
    requires depth > 0 && ReadItems(s, depth).Some?
    ensures
      var v := ReadItems(s, depth).value.value;
      DeepestItem(v) < depth && (DeepestItem(v) < other ==> ReadItems(s, other) == ReadItems(s, depth))
    decreases |s|, 2
  {
    hide ReadValue, SkipSpace, Nesting;
    ValueDepth(s, depth, other);
    var first := ReadValue(s, depth).value;
    var t := SkipSpace(first.rest);
    if t[0] == ',' {
      ItemsDepth(t[1..], depth, other);
      var v := ReadItems(s, depth).value.value;
      assert v[0] == first.value && v[1..] == ReadItems(t[1..], depth).value.value;
    } else {
      var v := ReadItems(s, depth).value.value;
      assert v[1..] == [];
    }
  }

  lemma {:induction false} ObjectDepth(s: string, depth: nat, other: nat)
    requires depth > 0 && ReadObject(s, depth).Some?
    ensures
      var v := ReadObject(s, depth).value.value;
      v.Object? && DeepestMember(v.members) < depth && (DeepestMember(v.members) < other ==> ReadObject(s, other) == ReadObject(s, depth))
    decreases |s|, 3
  {
    hide ReadMembers, SkipSpace;
    var t := SkipSpace(s);
    if !(t != "" && t[0] == '}') { MembersDepth(s, depth, other); }
  }

  lemma {:induction false} MembersDepth(s: string, depth: nat, other: nat)
    requires depth > 0 && ReadMembers(s, depth).Some?
    ensures
      var v := ReadMembers(s, depth).value.value;
      DeepestMember(v) < depth && (DeepestMember(v) < other ==> ReadMembers(s, other) == ReadMembers(s, depth))
    decreases |s|, 2
  {
    hide ReadKey, ReadValue, SkipSpace, Nesting;
    var key := ReadKey(s).value;
    ValueDepth(key.rest, depth, other);
    var value := ReadValue(key.rest, depth).value;
    var t := SkipSpace(value.rest);
    if t[0] == ',' {
      MembersDepth(t[1..], depth, other);
      var v := ReadMembers(s, depth).value.value;
      assert v[0] == Member(key.value, value.value) && v[1..] == ReadMembers(t[1..], depth).value.value;
    } else {
      var v := ReadMembers(s, depth).value.value;
      assert v[1..] == [];
    }
  }
}
