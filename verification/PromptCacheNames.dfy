/** The prompt cache's file names: `<fingerprint>-<tokens>-<hash>`, decimal and
    hexadecimal, zero-padded, and the parser that reads them back. */
module PromptCacheNames {
  import opened Wrappers

  const USIZE_MAX: nat := 0xFFFF_FFFF_FFFF_FFFF
  const U64_MAX: nat := 0xFFFF_FFFF_FFFF_FFFF

  type usize = n: nat | n <= USIZE_MAX
  type u64 = n: nat | n <= U64_MAX

  /** How many tokens an entry covers, and their hash. */
  datatype Key = Key(tokens: usize, hash: u64)

  // ----- numbers in a base -----

  type Base = n: nat | 2 <= n <= 16 witness 10

  function DigitChar(d: nat): char
    requires d < 16
  {
    if d < 10 then ('0' as int + d) as char else ('a' as int + d - 10) as char
  }

  /** A digit in any case, below the base. */
  function DigitValue(c: char, base: Base): Option<nat> {
    var v := if '0' <= c <= '9' then c as int - '0' as int
             else if 'a' <= c <= 'f' then c as int - 'a' as int + 10
             else if 'A' <= c <= 'F' then c as int - 'A' as int + 10
             else 16;
    if v < base then Some(v as nat) else None
  }

  function Printed(n: nat, base: Base): (s: string)
    ensures s != ""
  {
    if n < base then [DigitChar(n)] else Printed(n / base, base) + [DigitChar(n % base)]
  }

  function Padded(s: string, width: nat): (r: string)
    ensures |r| >= |s|
  {
    if |s| >= width then s else seq(width - |s|, _ => '0') + s
  }

  function DigitsValue(s: string, base: Base): Option<nat> {
    if s == "" then Some(0)
    else
      var front, last := DigitsValue(s[..|s| - 1], base), DigitValue(s[|s| - 1], base);
      if front.None? || last.None? then None else Some(front.value * base + last.value)
  }

  /** Parse an unsigned number: an optional plus sign, at least one digit, and no
      more than `limit`. */
  function ParseNumber(s: string, base: Base, limit: nat): (r: Option<nat>)
    ensures r.Some? ==> r.value <= limit
  {
    var digits := if s != "" && s[0] == '+' then s[1..] else s;
    var value := if digits == "" then None else DigitsValue(digits, base);
    if value.Some? && value.value <= limit then value else None
  }

  lemma DigitInverse(d: nat, base: Base)
    requires d < base
    ensures DigitValue(DigitChar(d), base) == Some(d) && DigitChar(d) != '-' && DigitChar(d) != '+'
  {}

  lemma LastDigit(front: string, d: nat, base: Base)
    requires d < base && DigitsValue(front, base).Some?
    ensures DigitsValue(front + [DigitChar(d)], base) == Some(DigitsValue(front, base).value * base + d)
  {
    DigitInverse(d, base);
    var s := front + [DigitChar(d)];
    assert s[..|s| - 1] == front;
  }

  lemma {:induction false} PrintedValue(n: nat, base: Base)
    ensures DigitsValue(Printed(n, base), base) == Some(n)
    ensures '-' !in Printed(n, base) && Printed(n, base)[0] != '+'
    decreases n
  {
    hide DigitsValue, DigitValue, DigitChar;
    if n < base {
      DigitInverse(n, base);
      NoDigits(base);
      LastDigit("", n, base);
      assert "" + [DigitChar(n)] == [DigitChar(n)];
    } else {
      DigitParts(n, base);
      var front, last := n / base, n % base;
      DigitInverse(last, base);
      PrintedValue(front, base);
      LastDigit(Printed(front, base), last, base);
      NoSign(Printed(front, base), DigitChar(last));
    }
  }

  lemma DigitParts(n: nat, base: Base)
    requires n >= base
    ensures 0 < n / base < n && n == n / base * base + n % base
  {}

  lemma NoSign(front: string, last: char)
    requires front != "" && '-' !in front && front[0] != '+' && last != '-'
    ensures '-' !in front + [last] && (front + [last])[0] != '+'
  {}

  lemma NoDigits(base: Base)
    ensures DigitsValue("", base) == Some(0)
  {}

  lemma DigitsSnoc(front: string, last: char, base: Base)
    ensures DigitsValue(front + [last], base)
         == if DigitsValue(front, base).None? || DigitValue(last, base).None? then None
            else Some(DigitsValue(front, base).value * base + DigitValue(last, base).value)
  {
    hide DigitValue;
    var s := front + [last];
    assert s[..|s| - 1] == front && s[|s| - 1] == last;
  }

  lemma {:induction false} ZerosAdd(zeros: nat, s: string, base: Base)
    requires DigitsValue(s, base).Some?
    ensures DigitsValue(seq(zeros, _ => '0') + s, base) == DigitsValue(s, base)
    decreases |s| + zeros
  {
    hide DigitsValue;
    var z := seq(zeros, _ => '0');
    if s != "" {
      var front, last := s[..|s| - 1], s[|s| - 1];
      assert s == front + [last] && z + s == (z + front) + [last];
      DigitsSnoc(front, last, base);
      ZerosAdd(zeros, front, base);
      DigitsSnoc(z + front, last, base);
    } else if zeros > 0 {
      var fewer := seq(zeros - 1, _ => '0');
      ZerosAdd(zeros - 1, "", base);
      assert z + s == (fewer + "") + ['0'];
      NoDigits(base);
      DigitsSnoc(fewer + "", '0', base);
    } else {
      assert z + s == s;
    }
  }

  lemma PaddedParses(n: nat, base: Base, width: nat, limit: nat)
    requires n <= limit
    ensures ParseNumber(Padded(Printed(n, base), width), base, limit) == Some(n) && '-' !in Padded(Printed(n, base), width)
  {
    PrintedValue(n, base);
    var s := Printed(n, base);
    var r := Padded(s, width);
    if |s| < width { ZerosAdd(width - |s|, s, base); }
    assert r[0] != '+';
  }

  // ----- names -----

  /** The pieces between dashes. */
  function Split(s: string): (parts: seq<string>)
    ensures parts != []
  {
    if s == "" then [""]
    else if s[0] == '-' then [""] + Split(s[1..])
    else
      var rest := Split(s[1..]);
      [[s[0]] + rest[0]] + rest[1..]
  }

  lemma {:induction false} SplitFirst(a: string, b: string)
    requires '-' !in a
    ensures Split(a + ("-" + b)) == [a] + Split(b)
    decreases |a|
  {
    var s := a + ("-" + b);
    if a == "" {
      assert s == "-" + b && s[1..] == b;
    } else {
      assert s[1..] == a[1..] + ("-" + b) && s[0] == a[0];
      SplitFirst(a[1..], b);
      assert [a[0]] + a[1..] == a;
    }
  }

  lemma {:induction false} SplitWhole(a: string)
    requires '-' !in a
    ensures Split(a) == [a]
    decreases |a|
  {
    if a != "" {
      SplitWhole(a[1..]);
      assert [a[0]] + a[1..] == a;
    }
  }

  lemma {:induction false} SplitHasNoDash(s: string)
    ensures '-' !in Split(s)[0]
    decreases |s|
  {
    if s != "" { SplitHasNoDash(s[1..]); }
  }

  function FileStem(short: string, key: Key): string {
    short + ("-" + (Padded(Printed(key.tokens, 10), 8) + ("-" + Padded(Printed(key.hash, 16), 16))))
  }

  /** The key a stem names, if it is one of this checkpoint's. */
  function ParseStem(stem: string, short: string): Option<Key> {
    var parts := Split(stem);
    if |parts| != 3 || parts[0] != short then None
    else
      var tokens, hash := ParseNumber(parts[1], 10, USIZE_MAX), ParseNumber(parts[2], 16, U64_MAX);
      if tokens.None? || hash.None? then None else Some(Key(tokens.value, hash.value))
  }

  /** File names round-trip exactly for fingerprints without a dash; with one,
      the cache would not know its own files again. */
  lemma NamesRoundTrip(short: string, key: Key)
    ensures ParseStem(FileStem(short, key), short) == (if '-' in short then None else Some(key))
  {
    hide Padded, Printed, ParseNumber;
    var t, h := Padded(Printed(key.tokens, 10), 8), Padded(Printed(key.hash, 16), 16);
    PaddedParses(key.tokens, 10, 8, USIZE_MAX);
    PaddedParses(key.hash, 16, 16, U64_MAX);
    var stem := FileStem(short, key);
    SplitHasNoDash(stem);
    if '-' !in short {
      SplitFirst(short, t + ("-" + h));
      SplitFirst(t, h);
      SplitWhole(h);
    }
  }

  // ----- files -----

  const EXTENSION := ".inferq-prompt"

  function FileName(short: string, key: Key): string { FileStem(short, key) + EXTENSION }

  /** Whether a file has the cache's extension. */
  predicate IsEntry(name: string) { |name| > |EXTENSION| && name[|name| - |EXTENSION|..] == EXTENSION }

  /** The key a file's name stands for, if it is one of this checkpoint's. */
  function ParseName(name: string, short: string): Option<Key> {
    if IsEntry(name) then ParseStem(name[..|name| - |EXTENSION|], short) else None
  }

  lemma NameParses(short: string, key: Key)
    requires '-' !in short
    ensures IsEntry(FileName(short, key)) && ParseName(FileName(short, key), short) == Some(key)
  {
    hide ParseStem, EXTENSION;
    NamesRoundTrip(short, key);
    assert FileStem(short, key) != "";
    assert FileName(short, key)[..|FileStem(short, key)|] == FileStem(short, key);
  }

  /** So the names of one checkpoint's keys are all different. */
  lemma NamesDiffer(short: string, a: Key, b: Key)
    requires '-' !in short
    ensures FileName(short, a) == FileName(short, b) ==> a == b
  {
    hide FileName, ParseName;
    NameParses(short, a);
    NameParses(short, b);
  }

  /** A key's file name as another writer might spell it: without the padding,
      with a plus sign. */
  function PlusName(short: string, key: Key): string {
    short + ("-" + ("+" + Printed(key.tokens, 10) + ("-" + Printed(key.hash, 16)))) + EXTENSION
  }

  /** The parser accepts it, so two such files in one directory have one key. */
  lemma OtherSpelling(short: string, key: Key)
    requires '-' !in short
    ensures IsEntry(PlusName(short, key)) && ParseName(PlusName(short, key), short) == Some(key)
    ensures PlusName(short, key) != FileName(short, key)
  {
    hide Printed, Padded, DigitsValue, EXTENSION, Split;
    var t, h := "+" + Printed(key.tokens, 10), Printed(key.hash, 16);
    var stem := short + ("-" + (t + ("-" + h)));
    PrintedValue(key.tokens, 10);
    PrintedValue(key.hash, 16);
    SplitFirst(short, t + ("-" + h));
    SplitFirst(t, h);
    SplitWhole(h);
    assert t[1..] == Printed(key.tokens, 10);
    assert PlusName(short, key)[..|stem|] == stem;
    PaddedParses(key.tokens, 10, 8, USIZE_MAX);
    var padded := Padded(Printed(key.tokens, 10), 8);
    PaddedStart(key.tokens, 10, 8);
    assert stem[|short| + 1] == '+' && PlusName(short, key)[|short| + 1] == '+';
    assert FileName(short, key)[|short| + 1] == padded[0];
  }

  lemma PaddedStart(n: nat, base: Base, width: nat)
    ensures Padded(Printed(n, base), width) != "" && Padded(Printed(n, base), width)[0] != '+'
  {
    hide Printed;
    PrintedValue(n, base);
  }

  // ----- the order of names -----

  /** Byte order, which is character order. */
  predicate NameLe(a: string, b: string) {
    a == "" || (b != "" && (a[0] < b[0] || (a[0] == b[0] && NameLe(a[1..], b[1..]))))
  }

  lemma {:induction false} NamesCompare(a: string, b: string)
    ensures NameLe(a, b) || NameLe(b, a)
    decreases |a|
  {
    if a != "" && b != "" { NamesCompare(a[1..], b[1..]); }
  }

  lemma {:induction false} NamesFollow(a: string, b: string, c: string)
    requires NameLe(a, b) && NameLe(b, c)
    ensures NameLe(a, c)
    decreases |a|
  {
    if a != "" && a[0] == b[0] && b[0] == c[0] { NamesFollow(a[1..], b[1..], c[1..]); }
  }
}
