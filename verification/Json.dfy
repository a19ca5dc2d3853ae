/**
  A reader for JSON objects (RFC 8259) whose values are strings, non-negative integers or
  booleans, and the printer form of such objects that the discovery answer uses.
 */
module Json {
  import opened Wrappers

  datatype Value = Text(text: string) | Number(n: nat) | Truth(b: bool)

  datatype Member = Member(key: string, value: Value)

  /** A parser either fails or returns a value and the rest of the text. */
  datatype Result<T> = Fail | Parsed(value: T, rest: string)

  // ---------------------------------------------------------------------
  // The reader
  // ---------------------------------------------------------------------

  predicate IsSpace(c: char) {
    c == ' ' || c == '\t' || c == '\n' || c == '\r'
  }

  predicate IsDigit(c: char) {
    '0' <= c <= '9'
  }

  function SkipSpace(text: string): (rest: string)
    ensures |rest| <= |text|
    ensures rest != "" ==> !IsSpace(rest[0])
  {
    if text != "" && IsSpace(text[0]) then SkipSpace(text[1..]) else text
  }

  /** The single character an escape stands for; escapes with four digits are not read. */
  function Unescaped(c: char): Option<char> {
    if c == '"' || c == '\\' || c == '/' then Some(c)
    else if c == 'b' then Some(8 as char)
    else if c == 'f' then Some(12 as char)
    else if c == 'n' then Some('\n')
    else if c == 'r' then Some('\r')
    else if c == 't' then Some('\t')
    else None
  }

  /** The characters of a string up to its closing quote (section 7): control characters must be escaped. */
  function ParseChars(text: string): (r: Result<string>)
    ensures r.Parsed? ==> |r.rest| < |text|
  {
    if text == "" then Fail
    else if text[0] == '"' then Parsed("", text[1..])
    else if text[0] == '\\' then
      if |text| < 2 || Unescaped(text[1]).None? then Fail
      else
        match ParseChars(text[2..])
        case Fail => Fail
        case Parsed(value, rest) => Parsed([Unescaped(text[1]).value] + value, rest)
    else if text[0] < ' ' then Fail
    else
      match ParseChars(text[1..])
      case Fail => Fail
      case Parsed(value, rest) => Parsed([text[0]] + value, rest)
  }

  function Digits(text: string): (d: string)
    ensures d <= text
  {
    if text != "" && IsDigit(text[0]) then [text[0]] + Digits(text[1..]) else ""
  }

  function DigitValue(c: char): nat {
    if IsDigit(c) then c as nat - '0' as nat else 0
  }

  function DecimalValue(digits: string): nat {
    if digits == "" then 0
    else DecimalValue(digits[..|digits| - 1]) * 10 + DigitValue(digits[|digits| - 1])
  }

  /** Integers have no leading zeros (section 6). */
  function ParseNumber(text: string): (r: Result<Value>)
    ensures r.Parsed? ==> |r.rest| < |text|
  {
    var d := Digits(text);
    if d == "" || (d[0] == '0' && |d| > 1) then Fail
    else Parsed(Number(DecimalValue(d)), text[|d|..])
  }

  function ParseValue(text: string): (r: Result<Value>)
    ensures r.Parsed? ==> |r.rest| < |text|
  {
    if text == "" then Fail
    else if text[0] == '"' then
      match ParseChars(text[1..])
      case Fail => Fail
      case Parsed(value, rest) => Parsed(Text(value), rest)
    else if "true" <= text then Parsed(Truth(true), text[4..])
    else if "false" <= text then Parsed(Truth(false), text[5..])
    else ParseNumber(text)
  }

  /** A quoted key, a colon and a value. */
  function ParseMember(text: string): (r: Result<Member>)
    ensures r.Parsed? ==> |r.rest| < |text|
  {
    if text == "" || text[0] != '"' then Fail
    else
      match ParseChars(text[1..])
      case Fail => Fail
      case Parsed(key, afterKey) =>
        var colon := SkipSpace(afterKey);
        if colon == "" || colon[0] != ':' then Fail
        else
          match ParseValue(SkipSpace(colon[1..]))
          case Fail => Fail
          case Parsed(value, rest) => Parsed(Member(key, value), rest)
  }

  /** Members separated by commas, up to and including the closing brace. */
  function ParseMembers(text: string): (r: Result<seq<Member>>)
    decreases |text|
  {
    match ParseMember(SkipSpace(text))
    case Fail => Fail
    case Parsed(member, afterMember) =>
      var next := SkipSpace(afterMember);
      if next == "" then Fail
      else if next[0] == '}' then Parsed([member], next[1..])
      else if next[0] != ',' then Fail
      else
        match ParseMembers(next[1..])
        case Fail => Fail
        case Parsed(members, rest) => Parsed([member] + members, rest)
  }

  /** One object and nothing after it but white space. */
  function ParseObject(text: string): Option<seq<Member>> {
    var start := SkipSpace(text);
    if start == "" || start[0] != '{' then None
    else
      var inside := SkipSpace(start[1..]);
      if inside != "" && inside[0] == '}' then
        if SkipSpace(inside[1..]) == "" then Some([]) else None
      else
        match ParseMembers(inside)
        case Fail => None
        case Parsed(members, rest) => if SkipSpace(rest) == "" then Some(members) else None
  }

  // ---------------------------------------------------------------------
  // The printer
  // ---------------------------------------------------------------------

  /** The text of one escaped character. */
  function EscapeChar(c: char): string {
    if c == '"' || c == '\\' then ['\\', c] else if c >= ' ' then [c] else ""
  }

  function CleanChar(c: char): string {
    if c >= ' ' then [c] else ""
  }

  /** Quotes and backslashes are escaped, characters below 0x20 are dropped, all others are kept. */
  function Escape(s: string): string {
    if s == "" then ""
    else EscapeChar(s[0]) + Escape(s[1..])
  }

  /** What escaping keeps. */
  function Clean(s: string): string {
    if s == "" then "" else CleanChar(s[0]) + Clean(s[1..])
  }

  function Decimal(n: nat): (text: string)
    ensures text != ""
  {
    if n < 10 then [('0' as nat + n) as char]
    else Decimal(n / 10) + [('0' as nat + n % 10) as char]
  }

  function PrintValue(value: Value): string {
    match value
    case Text(text) => "\"" + Escape(text) + "\""
    case Number(n) => Decimal(n)
    case Truth(b) => if b then "true" else "false"
  }

  function PrintMember(m: Member): string {
    "\"" + (Escape(m.key) + "\"" + (":" + PrintValue(m.value)))
  }

  function PrintMembers(ms: seq<Member>): string
    requires ms != []
  {
    PrintMember(ms[0]) + (if |ms| == 1 then "}" else "," + PrintMembers(ms[1..]))
  }

  function PrintObject(ms: seq<Member>): string
    requires ms != []
  {
    "{" + PrintMembers(ms)
  }

  function CleanValue(value: Value): Value {
    if value.Text? then Text(Clean(value.text)) else value
  }

  function CleanMember(m: Member): Member {
    Member(Clean(m.key), CleanValue(m.value))
  }

  function CleanMembers(ms: seq<Member>): seq<Member> {
    seq(|ms|, i requires 0 <= i < |ms| => CleanMember(ms[i]))
  }

  lemma {:induction false} CleanConcat(a: string, b: string)
    ensures Clean(a + b) == Clean(a) + Clean(b)
  {
    if a == "" {
      assert a + b == b;
    } else {
      CleanConcat(a[1..], b);
      assert (a + b)[1..] == a[1..] + b && (a + b)[0] == a[0];
      assert CleanChar(a[0]) + (Clean(a[1..]) + Clean(b)) == CleanChar(a[0]) + Clean(a[1..]) + Clean(b);
    }
  }

  lemma {:induction false} CleanLeavesPrintable(s: string)
    ensures forall i | 0 <= i < |Clean(s)| :: Clean(s)[i] >= ' '
    ensures (forall i | 0 <= i < |s| :: s[i] >= ' ') ==> Clean(s) == s
  {
    if s != "" {
      CleanLeavesPrintable(s[1..]);
    }
  }

  lemma {:induction false} CleanCounts(s: string, c: char)
    requires c >= ' '
    ensures multiset(Clean(s))[c] == multiset(s)[c]
  {
    if s != "" {
      CleanCounts(s[1..], c);
      assert s == [s[0]] + s[1..];
      assert multiset(Clean(s)) == multiset(CleanChar(s[0])) + multiset(Clean(s[1..]));
    }
  }

  /** A backslash for each quote and each backslash, and nothing else, is added to what is kept. */
  lemma {:induction false} EscapeLength(s: string)
    ensures |Escape(s)| == |Clean(s)| + multiset(s)['"'] + multiset(s)['\\']
    ensures |Clean(s)| <= |Escape(s)| <= 2 * |s|
  {
    if s != "" {
      EscapeLength(s[1..]);
      assert s == [s[0]] + s[1..];
    }
  }

  // ---------------------------------------------------------------------
  // Reading what was printed
  // ---------------------------------------------------------------------

  /** Reading one escaped character in front of a text. */
  lemma {:induction false} CharStep(c: char, tail: string)
    ensures
      var r := ParseChars(tail);
      ParseChars(EscapeChar(c) + tail) == (if r.Fail? then Fail else Parsed(CleanChar(c) + r.value, r.rest))
  {
    var text := EscapeChar(c) + tail;
    if c == '"' || c == '\\' {
      assert text[2..] == tail;
    } else if c >= ' ' {
      assert text[1..] == tail;
    } else {
      assert text == tail;
      var r := ParseChars(tail);
      assert r.Parsed? ==> CleanChar(c) + r.value == r.value;
    }
  }

  lemma {:induction false} CharsRoundTrip(s: string, rest: string)
    ensures ParseChars(Escape(s) + "\"" + rest) == Parsed(Clean(s), rest)
  {
    if s == "" {
      assert Escape(s) + "\"" + rest == "\"" + rest;
    } else {
      CharsRoundTrip(s[1..], rest);
      CharStep(s[0], Escape(s[1..]) + "\"" + rest);
      assert Escape(s) + "\"" + rest == EscapeChar(s[0]) + (Escape(s[1..]) + "\"" + rest);
    }
  }

  /** A string cut before its closing quote is not read. */
  lemma {:induction false} CharsCut(s: string, cut: nat)
    requires cut <= |Escape(s)|
    ensures ParseChars((Escape(s) + "\"")[..cut]) == Fail
  {
    if s == "" {
      assert (Escape(s) + "\"")[..cut] == "";
    } else {
      var head := EscapeChar(s[0]);
      if cut < |head| {
        assert (Escape(s) + "\"")[..cut] == head[..cut];
      } else {
        var tail := (Escape(s[1..]) + "\"")[..cut - |head|];
        CharsCut(s[1..], cut - |head|);
        CharStep(s[0], tail);
        assert (Escape(s) + "\"")[..cut] == head + tail;
      }
    }
  }

  predicate AllDigits(text: string) {
    forall i | 0 <= i < |text| :: IsDigit(text[i])
  }

  lemma {:induction false} DecimalRoundTrip(n: nat)
    ensures AllDigits(Decimal(n))
    ensures DecimalValue(Decimal(n)) == n
    ensures Decimal(n)[0] == '0' ==> n == 0 && |Decimal(n)| == 1
  {
    if n < 10 {
    } else {
      DecimalRoundTrip(n / 10);
      var text := Decimal(n);
      assert text[..|text| - 1] == Decimal(n / 10);
    }
  }

  /** Without leading zeros there is one way to write a number. */
  lemma {:induction false} DecimalIsUnique(d: string)
    requires d != "" && AllDigits(d) && (d[0] == '0' ==> |d| == 1)
    ensures Decimal(DecimalValue(d)) == d
  {
    var front := d[..|d| - 1];
    assert d == front + [d[|d| - 1]];
    if front == "" {
      assert DecimalValue(front) == 0;
    } else {
      DecimalIsUnique(front);
      var v, last := DecimalValue(front), DigitValue(d[|d| - 1]);
      assert Decimal(0)[0] == '0';
      assert (v * 10 + last) / 10 == v && (v * 10 + last) % 10 == last;
    }
  }

  lemma {:induction false} DigitsOf(d: string, rest: string)
    requires AllDigits(d) && (rest == "" || !IsDigit(rest[0]))
    ensures Digits(d + rest) == d
  {
    if d == "" {
      assert d + rest == rest;
    } else {
      assert (d + rest)[1..] == d[1..] + rest;
      DigitsOf(d[1..], rest);
    }
  }

  lemma {:induction false} NumberRoundTrip(n: nat, rest: string)
    requires rest == "" || !IsDigit(rest[0])
    ensures ParseNumber(Decimal(n) + rest) == Parsed(Number(n), rest)
  {
    DecimalRoundTrip(n);
    DigitsOf(Decimal(n), rest);
    assert (Decimal(n) + rest)[|Decimal(n)|..] == rest;
  }

  lemma {:induction false} DigitIsNoKeyword(text: string)
    requires text != "" && IsDigit(text[0])
    ensures ParseValue(text) == ParseNumber(text)
  {
    assert !("true" <= text) && !("false" <= text);
  }

  lemma {:induction false} TruthRoundTrip(b: bool, rest: string)
    ensures ParseValue(PrintValue(Truth(b)) + rest) == Parsed(Truth(b), rest)
  {
    var text := PrintValue(Truth(b)) + rest;
    if b {
      assert "true" <= text && text[4..] == rest;
    } else {
      assert text[0] == 'f' && !("true" <= text);
      assert "false" <= text && text[5..] == rest;
    }
  }

  lemma {:induction false} ValueRoundTrip(value: Value, rest: string)
    requires rest == "" || !IsDigit(rest[0])
    ensures ParseValue(PrintValue(value) + rest) == Parsed(CleanValue(value), rest)
  {
    match value
    case Text(s) =>
      CharsRoundTrip(s, rest);
      var text := PrintValue(value) + rest;
      assert text[0] == '"' && text[1..] == Escape(s) + "\"" + rest;
    case Number(n) =>
      NumberRoundTrip(n, rest);
      DecimalRoundTrip(n);
      DigitIsNoKeyword(Decimal(n) + rest);
    case Truth(b) =>
      TruthRoundTrip(b, rest);
  }

  /** A value cut short is not read, or read with nothing left after it. */
  lemma {:induction false} ValueCut(value: Value, cut: nat)
    requires cut <= |PrintValue(value)|
    ensures var r := ParseValue(PrintValue(value)[..cut]); r.Fail? || r.rest == ""
  {
    match value
    case Text(s) => TextCut(s, cut);
    case Number(n) => NumberCut(n, cut);
    case Truth(b) => NoDigitsCut(if b then "true" else "false", cut);
  }

  lemma {:induction false} TextCut(s: string, cut: nat)
    requires cut <= |PrintValue(Text(s))|
    ensures var r := ParseValue(PrintValue(Text(s))[..cut]); r.Fail? || r.rest == ""
  {
    var whole := PrintValue(Text(s));
    if 0 < cut < |whole| {
      CharsCut(s, cut - 1);
      assert whole[..cut] == "\"" + (Escape(s) + "\"")[..cut - 1];
      UnreadText((Escape(s) + "\"")[..cut - 1]);
    } else if cut == |whole| {
      assert whole[..cut] == whole + "";
      ValueRoundTrip(Text(s), "");
    }
  }

  lemma {:induction false} UnreadText(rest: string)
    requires ParseChars(rest).Fail?
    ensures ParseValue("\"" + rest).Fail?
  {
    assert ("\"" + rest)[1..] == rest;
  }

  lemma {:induction false} NumberCut(n: nat, cut: nat)
    requires cut <= |Decimal(n)|
    ensures var r := ParseValue(Decimal(n)[..cut]); r.Fail? || r.rest == ""
  {
    var text := Decimal(n)[..cut];
    DecimalRoundTrip(n);
    DigitsOf(text, "");
    assert text + "" == text;
    assert text == "" || IsDigit(text[0]);
  }

  lemma {:induction false} NoDigitsCut(word: string, cut: nat)
    requires word == "true" || word == "false"
    requires cut <= |word|
    ensures var r := ParseValue(word[..cut]); r.Fail? || r.rest == ""
  {
    if cut > 0 {
      assert word[..cut][0] == word[0] && !IsDigit(word[0]);
      assert Digits(word[..cut]) == "";
    }
  }

  lemma {:induction false} NoSpace(text: string)
    requires text == "" || !IsSpace(text[0])
    ensures SkipSpace(text) == text
  {
  }

  lemma {:induction false} PrintValueStarts(value: Value)
    ensures PrintValue(value) != "" && !IsSpace(PrintValue(value)[0])
  {
    if value.Number? {
      DecimalRoundTrip(value.n);
    }
  }

  /** How a member is read, once its key and its value are. */
  lemma {:induction false} MemberStep(text: string, key: string, valueText: string, value: Result<Value>)
    requires text != "" && text[0] == '"'
    requires ParseChars(text[1..]) == Parsed(key, ":" + valueText)
    requires valueText == "" || !IsSpace(valueText[0])
    requires ParseValue(valueText) == value
    ensures ParseMember(text) ==
      (if value.Fail? then Fail else Parsed(Member(key, value.value), value.rest))
  {
    NoSpace(":" + valueText);
    assert (":" + valueText)[1..] == valueText;
    NoSpace(valueText);
  }

  lemma {:induction false} AfterQuote(m: Member, rest: string)
    ensures (PrintMember(m) + rest)[0] == '"'
    ensures (PrintMember(m) + rest)[1..] == Escape(m.key) + "\"" + (":" + (PrintValue(m.value) + rest))
  {
  }

  lemma {:induction false} MemberRoundTrip(m: Member, rest: string)
    requires rest == "" || !IsDigit(rest[0])
    ensures ParseMember(PrintMember(m) + rest) == Parsed(CleanMember(m), rest)
  {
    var text, valueText := PrintMember(m) + rest, PrintValue(m.value) + rest;
    AfterQuote(m, rest);
    assert ParseChars(text[1..]) == Parsed(Clean(m.key), ":" + valueText) by {
      CharsRoundTrip(m.key, ":" + valueText);
    }
    PrintValueStarts(m.value);
    assert ParseValue(valueText) == Parsed(CleanValue(m.value), rest) by {
      ValueRoundTrip(m.value, rest);
    }
    MemberStep(text, Clean(m.key), valueText, Parsed(CleanValue(m.value), rest));
  }

  /** A member cut short, or complete with nothing after it, leaves nothing to go on with. */
  lemma {:induction false} MemberCut(m: Member, cut: nat)
    requires cut <= |PrintMember(m)|
    ensures var r := ParseMember(PrintMember(m)[..cut]); r.Fail? || r.rest == ""
  {
    if cut == 0 {
      assert PrintMember(m)[..cut] == "";
    } else if cut <= |Escape(m.key)| + 2 {
      MemberCutInKey(m, cut);
    } else {
      MemberCutInValue(m, cut);
    }
  }

  lemma {:induction false} MemberCutInKey(m: Member, cut: nat)
    requires 0 < cut <= |Escape(m.key)| + 2 <= |PrintMember(m)|
    ensures ParseMember(PrintMember(m)[..cut]).Fail?
  {
    var key := (Escape(m.key) + "\"")[..cut - 1];
    assert PrintMember(m)[..cut] == "\"" + key;
    if cut - 1 < |Escape(m.key)| + 1 {
      CharsCut(m.key, cut - 1);
    } else {
      assert key == Escape(m.key) + "\"" + "";
      CharsRoundTrip(m.key, "");
    }
    UnreadMember(key);
  }

  lemma {:induction false} UnreadMember(key: string)
    requires ParseChars(key).Fail? || ParseChars(key).rest == ""
    ensures ParseMember("\"" + key).Fail?
  {
    assert ("\"" + key)[1..] == key;
  }

  lemma {:induction false} CutAfterQuote(m: Member, cut: nat)
    requires |Escape(m.key)| + 3 <= cut <= |PrintMember(m)|
    ensures
      var text := PrintMember(m)[..cut];
      && text[0] == '"'
      && text[1..] == Escape(m.key) + "\"" + (":" + PrintValue(m.value)[..cut - 3 - |Escape(m.key)|])
  {
    CutTail("\"", Escape(m.key) + "\"", ":", PrintValue(m.value), cut - 3 - |Escape(m.key)|);
  }

  lemma {:induction false} CutTail(a: string, b: string, c: string, d: string, cut: nat)
    requires cut <= |d|
    ensures (a + (b + (c + d)))[..|a| + |b| + |c| + cut] == a + (b + (c + d[..cut]))
    ensures (a + (b + (c + d[..cut])))[|a|..] == b + (c + d[..cut])
  {
  }

  lemma {:induction false} MemberCutInValue(m: Member, cut: nat)
    requires |Escape(m.key)| + 3 <= cut <= |PrintMember(m)|
    ensures var r := ParseMember(PrintMember(m)[..cut]); r.Fail? || r.rest == ""
  {
    var text := PrintMember(m)[..cut];
    var valueCut := cut - 3 - |Escape(m.key)|;
    var valueText := PrintValue(m.value)[..valueCut];
    assert ParseChars(text[1..]) == Parsed(Clean(m.key), ":" + valueText) by {
      CharsRoundTrip(m.key, ":" + valueText);
      CutAfterQuote(m, cut);
    }
    assert text[0] == '"';
    assert valueText == "" || !IsSpace(valueText[0]) by {
      PrintValueStarts(m.value);
    }
    ValueCut(m.value, valueCut);
    MemberStep(text, Clean(m.key), valueText, ParseValue(valueText));
  }

  lemma {:induction false} MemberStarts(ms: seq<Member>, rest: string)
    requires ms != []
    ensures PrintMembers(ms) + rest != "" && (PrintMembers(ms) + rest)[0] == '"'
  {
  }

  /** How a list of members is read, once its first member is. */
  lemma {:induction false} MembersStep(text: string, member: Member, rest: string)
    requires text != "" && text[0] == '"' && ParseMember(text) == Parsed(member, rest)
    requires rest == "" || rest[0] == ',' || rest[0] == '}'
    ensures ParseMembers(text) ==
      (if rest == "" then Fail
       else if rest[0] == '}' then Parsed([member], rest[1..])
       else
         match ParseMembers(rest[1..])
         case Fail => Fail
         case Parsed(members, after) => Parsed([member] + members, after))
  {
    NoSpace(text);
    NoSpace(rest);
  }

  lemma {:induction false} LastMember(m: Member, rest: string)
    ensures PrintMembers([m]) + rest == PrintMember(m) + ("}" + rest)
    ensures ("}" + rest)[1..] == rest
    ensures CleanMembers([m]) == [CleanMember(m)]
  {
  }

  lemma {:induction false} Regroup(a: string, b: string, c: string, rest: string)
    ensures (a + (b + c)) + rest == a + (b + (c + rest))
    ensures (b + (c + rest))[|b|..] == c + rest
  {
  }

  lemma {:induction false} FirstMember(ms: seq<Member>, rest: string)
    requires |ms| > 1
    ensures PrintMembers(ms) + rest == PrintMember(ms[0]) + ("," + (PrintMembers(ms[1..]) + rest))
    ensures ("," + (PrintMembers(ms[1..]) + rest))[1..] == PrintMembers(ms[1..]) + rest
  {
    Regroup(PrintMember(ms[0]), ",", PrintMembers(ms[1..]), rest);
  }

  lemma {:induction false} CleanFirst(ms: seq<Member>)
    requires ms != []
    ensures CleanMembers(ms) == [CleanMember(ms[0])] + CleanMembers(ms[1..])
  {
  }

  lemma {:induction false} MembersRoundTrip(ms: seq<Member>, rest: string)
    requires ms != []
    ensures ParseMembers(PrintMembers(ms) + rest) == Parsed(CleanMembers(ms), rest)
    decreases |ms|
  {
    var m, text := ms[0], PrintMembers(ms) + rest;
    MemberStarts(ms, rest);
    if |ms| == 1 {
      assert ms == [m];
      LastMember(m, rest);
      MemberRoundTrip(m, "}" + rest);
      MembersStep(text, CleanMember(m), "}" + rest);
    } else {
      var more := "," + (PrintMembers(ms[1..]) + rest);
      FirstMember(ms, rest);
      CleanFirst(ms);
      MemberRoundTrip(m, more);
      MembersRoundTrip(ms[1..], rest);
      MembersStep(text, CleanMember(m), more);
    }
  }

  lemma {:induction false} MembersCut(ms: seq<Member>, cut: nat)
    requires ms != [] && cut < |PrintMembers(ms)|
    ensures ParseMembers(PrintMembers(ms)[..cut]) == Fail
    decreases |ms|
  {
    var text, first := PrintMembers(ms)[..cut], PrintMember(ms[0]);
    if cut <= |first| {
      assert var r := ParseMember(text); r.Fail? || r.rest == "" by {
        MemberCut(ms[0], cut);
        assert text == first[..cut];
      }
      NoSpace(text);
    } else {
      var more := PrintMembers(ms[1..])[..cut - |first| - 1];
      assert ParseMember(text) == Parsed(CleanMember(ms[0]), "," + more) by {
        assert text == first + ("," + more);
        MemberRoundTrip(ms[0], "," + more);
      }
      assert ("," + more)[1..] == more;
      MembersCut(ms[1..], cut - |first| - 1);
      MembersStep(text, CleanMember(ms[0]), "," + more);
    }
  }

  /** Reading a printed object gives back every member, with only characters below 0x20 removed. */
  lemma {:induction false} ObjectRoundTrip(ms: seq<Member>)
    requires ms != []
    ensures ParseObject(PrintObject(ms)) == Some(CleanMembers(ms))
  {
    MembersRoundTrip(ms, "");
    assert PrintMembers(ms) + "" == PrintMembers(ms);
    MemberStarts(ms, "");
    NoSpace(PrintObject(ms));
    assert PrintObject(ms)[1..] == PrintMembers(ms);
    NoSpace(PrintMembers(ms));
  }

  /** No proper prefix of a printed object is an object. */
  lemma {:induction false} ObjectCut(ms: seq<Member>, cut: nat)
    requires ms != [] && cut < |PrintObject(ms)|
    ensures ParseObject(PrintObject(ms)[..cut]) == None
  {
    if cut > 0 {
      var inside := PrintMembers(ms)[..cut - 1];
      assert PrintObject(ms)[..cut] == "{" + inside;
      assert inside == "" || inside[0] == '"' by {
        MemberStarts(ms, "");
        assert PrintMembers(ms) + "" == PrintMembers(ms);
      }
      assert ParseMembers(inside) == Fail by {
        MembersCut(ms, cut - 1);
      }
      UnreadMembers(inside);
    }
  }

  lemma {:induction false} UnreadMembers(inside: string)
    requires inside == "" || inside[0] == '"'
    requires ParseMembers(inside) == Fail
    ensures ParseObject("{" + inside) == None
  {
    var text := "{" + inside;
    NoSpace(text);
    assert text[1..] == inside;
    NoSpace(inside);
  }
}
