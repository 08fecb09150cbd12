/** The template's spacing, recognised on the text: one blank after each comma
    and colon and none elsewhere, and strings escaped as the serialiser does. */
module JsonSpacing {
  import opened Wrappers
  import opened Json
  import opened JsonReading
  import opened JsonPrinting
  import opened ToolCallScan

  predicate Tight(s: string)
    decreases |s|
  {
    if s == "" then true
    else if IsSpace(s[0]) then false
    else if s[0] == '"' then
      var body := StringBody(s[1..]);
      body.Some? && s[1..] == EscapeAll(body.value.value) + ("\"" + body.value.rest) && Tight(body.value.rest)
    else if s[0] == ',' || s[0] == ':' then |s| > 1 && s[1] == ' ' && Tight(s[2..])
    else Tight(s[1..])
  }

  /** Characters that say nothing about spacing. */
  predicate Unspaced(p: string) {
    forall i :: 0 <= i < |p| ==> !IsSpace(p[i]) && p[i] != '"' && p[i] != ',' && p[i] != ':'
  }

  lemma {:induction false} UnspacedSkipped(p: string, r: string)
    requires Unspaced(p)
    ensures Tight(p + r) == Tight(r)
    decreases |p|
  {
    if p == "" {
      assert p + r == r;
    } else {
      UnspacedSkipped(p[1..], r);
      assert (p + r)[1..] == p[1..] + r;
    }
  }

  lemma StringTight(text: string, r: string)
    ensures Tight(PrintString(text) + r) == Tight(r)
  {
    hide StringBody, EscapeAll;
    StringPrinted(text, r);
    var s := PrintString(text) + r;
    assert s[1..] == EscapeAll(text) + ("\"" + r);
  }

  lemma MarkTight(mark: char, r: string)
    requires mark == ',' || mark == ':'
    ensures Tight([mark] + ([' '] + r)) == Tight(r)
  {
    var s := [mark] + ([' '] + r);
    assert s[2..] == r;
  }

  // ----- printing is tight -----

  lemma {:induction false} PrintedTight(c: Canon, t: Tree, r: string)
    requires Canonical(c, t)
    ensures Tight(PythonJson(t) + r) == Tight(r)
    decreases t, 0
  {
    hide Tight, PrintString, PrintItems, PrintMembers;
    match t
    case Text(text) => StringTight(text, r);
    case Array(items) =>
      ItemsTight(c, items, "]" + r);
      UnspacedSkipped("[", PrintItems(items) + ("]" + r));
      UnspacedSkipped("]", r);
      Assoc("[", PrintItems(items), "]");
      Assoc("[", PrintItems(items) + "]", r);
      Assoc(PrintItems(items), "]", r);
    case Object(members) =>
      MembersTight(c, members, "}" + r);
      UnspacedSkipped("{", PrintMembers(members) + ("}" + r));
      UnspacedSkipped("}", r);
      Assoc("{", PrintMembers(members), "}");
      Assoc("{", PrintMembers(members) + "}", r);
      Assoc(PrintMembers(members), "}", r);
    case Number(lexeme) =>
      NumberChars(Start, lexeme);
      UnspacedSkipped(lexeme, r);
    case _ => UnspacedSkipped(PythonJson(t), r);
  }

  lemma {:induction false} ItemsTight(c: Canon, items: seq<Tree>, r: string)
    requires CanonicalItems(c, items)
    ensures Tight(PrintItems(items) + r) == Tight(r)
    decreases items, 1
  {
    hide Tight, PythonJson, Canonical;
    if items == [] {
      assert "" + r == r;
    } else {
      var rest := items[1..];
      if rest == [] {
        PrintedTight(c, items[0], r);
      } else {
        var after := PrintItems(rest) + r;
        ItemsTight(c, rest, r);
        MarkTight(',', after);
        ItemThen(PythonJson(items[0]), PrintItems(rest), r);
        PrintedTight(c, items[0], [','] + ([' '] + after));
      }
    }
  }

  lemma {:induction false} MembersTight(c: Canon, members: seq<Member>, r: string)
    requires CanonicalMembers(c, members)
    ensures Tight(PrintMembers(members) + r) == Tight(r)
    decreases members, 1
  {
    hide Tight, PrintMember, Canonical;
    if members == [] {
      assert "" + r == r;
    } else {
      var m, rest := members[0], members[1..];
      assert m.value < m;
      if rest == [] {
        MemberTight(c, m, r);
      } else {
        var after := PrintMembers(rest) + r;
        MembersTight(c, rest, r);
        MarkTight(',', after);
        ItemThen(PrintMember(m), PrintMembers(rest), r);
        MemberTight(c, m, [','] + ([' '] + after));
      }
    }
  }

  lemma {:induction false} MemberTight(c: Canon, m: Member, r: string)
    requires Canonical(c, m.value)
    ensures Tight(PrintMember(m) + r) == Tight(r)
    decreases m, 0
  {
    hide Tight, PythonJson, PrintString, Canonical;
    var value := PythonJson(m.value) + r;
    PrintedTight(c, m.value, r);
    MarkTight(':', value);
    StringTight(m.key, [':'] + ([' '] + value));
    Assoc(PrintString(m.key), ": ", PythonJson(m.value));
    Assoc(PrintString(m.key), ": " + PythonJson(m.value), r);
    Assoc(": ", PythonJson(m.value), r);
    assert ": " + value == [':'] + ([' '] + value);
  }

  // ----- tight text is as printed -----

  lemma TightStart(s: string)
    requires Tight(s)
    ensures SkipSpace(s) == s
  {
    hide StringBody, EscapeAll;
  }

  /** The blank after a mark is skipped. */
  lemma MarkRead(s: string, depth: nat)
    requires Tight(s) && s != "" && (s[0] == ',' || s[0] == ':')
    ensures
      var w := s[2..];
      && |s| > 1 && Tight(w) && s == [s[0]] + ([' '] + w)
      && ReadValue(s[1..], depth) == ReadValue(w, depth)
      && ReadItems(s[1..], depth) == ReadItems(w, depth) && ReadMembers(s[1..], depth) == ReadMembers(w, depth)
  {
    hide ReadScalar, ReadArray, ReadObject, StringBody;
    var w := s[2..];
    assert s[1..] == [' '] + w && ([' '] + w)[1..] == w;
    assert SkipSpace([' '] + w) == SkipSpace(w);
  }

  lemma TextRead(s: string)
    requires Tight(s) && s != "" && s[0] == '"'
    ensures StringBody(s[1..]).Some?
    ensures var body := StringBody(s[1..]).value; Tight(body.rest) && s == PrintString(body.value) + body.rest
  {
    hide StringBody, EscapeAll;
    var body := StringBody(s[1..]).value;
    assert s == "\"" + (EscapeAll(body.value) + ("\"" + body.rest));
  }

  lemma PlainRead(s: string)
    requires Tight(s) && s != "" && !IsSpace(s[0]) && s[0] != '"' && s[0] != ',' && s[0] != ':'
    ensures Tight(s[1..]) && s == [s[0]] + s[1..]
  {}

  lemma ScalarRead(s: string)
    requires Tight(s) && ReadScalar(s).Some?
    ensures var r := ReadScalar(s).value; Tight(r.rest) && s == PythonJson(r.value) + r.rest
  {
    hide Tight, NumberLength;
    var r := ReadScalar(s).value;
    var n := |s| - |r.rest|;
    assert s == s[..n] + s[n..];
    if r.value.Number? {
      NumberMoves(Start, s, n, s[..n]);
      NumberChars(Start, s[..n]);
    }
    UnspacedSkipped(s[..n], r.rest);
  }

  /** Tight text reads only as what prints to it. */
  lemma {:induction false} ValueRead(s: string, depth: nat)
    requires Tight(s) && ReadValue(s, depth).Some?
    ensures var r := ReadValue(s, depth).value; Tight(r.rest) && s == PythonJson(r.value) + r.rest
    decreases |s|, 1
  {
    hide Tight, StringBody, ReadArray, ReadObject, ReadScalar, PrintString, PrintItems, PrintMembers;
    TightStart(s);
    var r := ReadValue(s, depth).value;
    if s[0] == '"' {
      TextRead(s);
    } else if s[0] == '[' {
      PlainRead(s);
      ArrayRead(s[1..], depth - 1);
      Assoc("[", PrintItems(r.value.items) + "]", r.rest);
      Assoc("[", PrintItems(r.value.items), "]");
    } else if s[0] == '{' {
      PlainRead(s);
      ObjectRead(s[1..], depth - 1);
      Assoc("{", PrintMembers(r.value.members) + "}", r.rest);
      Assoc("{", PrintMembers(r.value.members), "}");
    } else {
      ScalarRead(s);
    }
  }

  lemma {:induction false} ArrayRead(s: string, depth: nat)
    requires Tight(s) && ReadArray(s, depth).Some?
    ensures
      var r := ReadArray(s, depth).value;
      r.value.Array? && Tight(r.rest) && s == PrintItems(r.value.items) + "]" + r.rest
    decreases |s|, 3
  {
    hide Tight, ReadItems, PythonJson;
    TightStart(s);
    if s != "" && s[0] == ']' {
      PlainRead(s);
      assert "" + "]" == "]";
    } else {
      ItemsRead(s, depth);
    }
  }

  lemma {:induction false} ItemsRead(s: string, depth: nat)
    requires Tight(s) && ReadItems(s, depth).Some?
    ensures
      var r := ReadItems(s, depth).value;
      r.value != [] && Tight(r.rest) && s == PrintItems(r.value) + "]" + r.rest
    decreases |s|, 2
  {
    hide Tight, ReadValue, PythonJson;
    ValueRead(s, depth);
    var first := ReadValue(s, depth).value;
    var t := first.rest;
    TightStart(t);
    if t[0] == ']' {
      PlainRead(t);
      Assoc(PythonJson(first.value), "]", t[1..]);
    } else {
      MarkRead(t, depth);
      var w := t[2..];
      ItemsRead(w, depth);
      var more := ReadItems(w, depth).value;
      var items := [first.value] + more.value;
      assert items[1..] == more.value;
      Assoc(PrintItems(more.value), "]", more.rest);
      Assoc(PrintItems(items), "]", more.rest);
      ItemThen(PythonJson(first.value), PrintItems(more.value), "]" + more.rest);
    }
  }

  lemma {:induction false} ObjectRead(s: string, depth: nat)
    requires Tight(s) && ReadObject(s, depth).Some?
    ensures
      var r := ReadObject(s, depth).value;
      r.value.Object? && Tight(r.rest) && s == PrintMembers(r.value.members) + "}" + r.rest
    decreases |s|, 3
  {
    hide Tight, ReadMembers, PrintMember;
    TightStart(s);
    if s != "" && s[0] == '}' {
      PlainRead(s);
      assert "" + "}" == "}";
    } else {
      MembersRead(s, depth);
    }
  }

  lemma KeyRead(s: string, depth: nat)
    requires Tight(s) && ReadKey(s).Some?
    ensures
      var r := ReadKey(s).value;
      && r.rest != "" && Tight(r.rest[1..]) && s == PrintString(r.value) + (": " + r.rest[1..])
      && ReadValue(r.rest, depth) == ReadValue(r.rest[1..], depth) && |r.rest| < |s|
  {
    hide Tight, StringBody, ReadValue, PrintString;
    TightStart(s);
    TextRead(s);
    var body := StringBody(s[1..]).value;
    TightStart(body.rest);
    MarkRead(body.rest, depth);
    var w := body.rest[2..];
    assert body.rest[1..][1..] == w && [':'] + ([' '] + w) == ": " + w;
  }

  lemma {:induction false} MembersRead(s: string, depth: nat)
    requires Tight(s) && ReadMembers(s, depth).Some?
    ensures
      var r := ReadMembers(s, depth).value;
      r.value != [] && Tight(r.rest) && s == PrintMembers(r.value) + "}" + r.rest
    decreases |s|, 2
  {
    hide Tight, ReadValue, ReadKey, PythonJson, PrintString;
    KeyRead(s, depth);
    var key := ReadKey(s).value;
    var value := ReadValue(key.rest, depth).value;
    ValueRead(key.rest[1..], depth);
    var m, t := Member(key.value, value.value), value.rest;
    MemberIs(m, t);
    TightStart(t);
    if t[0] == '}' {
      PlainRead(t);
      Assoc(PrintMember(m), "}", t[1..]);
    } else {
      MarkRead(t, depth);
      var w := t[2..];
      MembersRead(w, depth);
      var more := ReadMembers(w, depth).value;
      var members := [m] + more.value;
      assert members[1..] == more.value;
      Assoc(PrintMembers(more.value), "}", more.rest);
      Assoc(PrintMembers(members), "}", more.rest);
      ItemThen(PrintMember(m), PrintMembers(more.value), "}" + more.rest);
    }
  }

  lemma MemberIs(m: Member, t: string)
    ensures PrintString(m.key) + (": " + (PythonJson(m.value) + t)) == PrintMember(m) + t
  {
    hide PrintString, PythonJson;
    Assoc(PrintString(m.key), ": ", PythonJson(m.value));
    Assoc(PrintString(m.key), ": " + PythonJson(m.value), t);
    Assoc(": ", PythonJson(m.value), t);
  }

  /** A whole text that is tight is what its value prints to. */
  lemma TextIsPrinted(s: string, depth: nat)
    requires Tight(s) && Json.ReadText(s, depth).Some?
    ensures s == PythonJson(Json.ReadText(s, depth).value)
  {
    hide Tight, ReadValue, PythonJson;
    ValueRead(s, depth);
    var r := ReadValue(s, depth).value;
    TightStart(r.rest);
    assert PythonJson(r.value) + "" == PythonJson(r.value);
  }
}
