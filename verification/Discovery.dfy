/**
  The answer of the discovery service: one JSON object printed into a buffer of 1024
  bytes, and what a client can read from it.
 */
module Discovery {
  import opened CStrings
  import opened Json
  import opened Wrappers
  import Utf8

  const RESPONSE_SIZE: nat := 1024

  /** What an accelerator tells about itself; the strings are C strings. */
  datatype Facts = Facts(hostname: string, architecture: string, grpcPort: nat,
                         modelName: string, task: string, busy: bool)

  /** The object that is meant. */
  function Members(f: Facts): seq<Member> {
    [Member("service", Text("luckfox-rknn")),
     Member("hostname", Text(f.hostname)),
     Member("board_model", Text("Luckfox Pico")),
     Member("soc", Text("Rockchip RV1106/RV1103")),
     Member("architecture", Text(f.architecture)),
     Member("grpc_port", Number(f.grpcPort)),
     Member("model_name", Text(f.modelName)),
     Member("task", Text(f.task)),
     Member("busy", Truth(f.busy)),
     Member("password_required", Truth(true))]
  }

  /** One field of the format string: a quoted key, and what stands after the colon. */
  function BareField(key: string, printed: string): string {
    "\"" + (key + "\"" + (":" + printed))
  }

  function TextField(key: string, escaped: string): string {
    BareField(key, "\"" + escaped + "\"")
  }

  /** The fields of the format string, in order, with its arguments filled in; the strings come escaped. */
  function Fields(hostname: string, architecture: string, grpcPort: nat, modelName: string, task: string,
                  busy: bool): seq<string> {
    [TextField("service", "luckfox-rknn"),
     TextField("hostname", hostname),
     TextField("board_model", "Luckfox Pico"),
     TextField("soc", "Rockchip RV1106/RV1103"),
     TextField("architecture", architecture),
     BareField("grpc_port", Decimal(grpcPort)),
     TextField("model_name", modelName),
     TextField("task", task),
     BareField("busy", if busy then "true" else "false"),
     BareField("password_required", "true")]
  }

  function Joined(fields: seq<string>): string
    requires fields != []
  {
    if |fields| == 1 then fields[0] + "}" else fields[0] + ("," + Joined(fields[1..]))
  }

  /** The format string is these fields, separated by commas, in braces. */
  function Line(hostname: string, architecture: string, grpcPort: nat, modelName: string, task: string,
                busy: bool): string {
    "{" + Joined(Fields(hostname, architecture, grpcPort, modelName, task, busy))
  }

  function FieldsOf(f: Facts): seq<string> {
    Fields(Escape(f.hostname), Escape(f.architecture), f.grpcPort, Escape(f.modelName), Escape(f.task), f.busy)
  }

  /** The whole answer, before it is cut to the buffer. */
  function Answer(f: Facts): string {
    Line(Escape(f.hostname), Escape(f.architecture), f.grpcPort, Escape(f.modelName), Escape(f.task), f.busy)
  }

  /** What the client receives. */
  function Sent(f: Facts): string {
    Printed(Answer(f), RESPONSE_SIZE)
  }

  /** Escaping one more character of a C string. */
  lemma {:induction false} EscapeStep(value: string, cursor: nat, escaped: string)
    requires cursor < |value| && value[cursor] != '\0'
    requires escaped + Escape(CString(value[cursor..])) == Escape(CString(value))
    ensures (escaped + EscapeChar(value[cursor])) + Escape(CString(value[cursor + 1..])) == Escape(CString(value))
  {
    assert value[cursor..][1..] == value[cursor + 1..];
    var rest := CString(value[cursor + 1..]);
    assert CString(value[cursor..]) == [value[cursor]] + rest;
    assert ([value[cursor]] + rest)[1..] == rest;
  }

  method EscapeOne(c: char, escaped: string) returns (longer: string)
    ensures longer == escaped + EscapeChar(c)
  {
    longer := escaped;
    if c == '"' || c == '\\' {
      longer := longer + ['\\'];
      longer := longer + [c];
    } else if c >= ' ' {
      longer := longer + [c];
    }
  }

  /** The escaping loop, up to the terminating NUL. */
  method JsonEscape(value: string) returns (escaped: string)
    ensures escaped == Escape(CString(value))
  {
    escaped := "";
    var cursor := 0;
    assert value[0..] == value;
    while cursor < |value| && value[cursor] != '\0'
      invariant 0 <= cursor <= |value|
      invariant escaped + Escape(CString(value[cursor..])) == Escape(CString(value))
    {
      EscapeStep(value, cursor, escaped);
      escaped := EscapeOne(value[cursor], escaped);
      cursor := cursor + 1;
    }
  }

  /** The facts as C code sees them. */
  function Seen(f: Facts): Facts {
    f.(hostname := CString(f.hostname), architecture := CString(f.architecture),
       modelName := CString(f.modelName), task := CString(f.task))
  }

  method DiscoveryResponse(f: Facts) returns (response: string)
    ensures response == Sent(Seen(f))
  {
    var hostname := JsonEscape(f.hostname);
    var architecture := JsonEscape(f.architecture);
    var modelName := JsonEscape(f.modelName);
    var task := JsonEscape(f.task);
    response := Printed(Line(hostname, architecture, f.grpcPort, modelName, task, f.busy), RESPONSE_SIZE);
  }

  // ---------------------------------------------------------------------
  // The format string prints the object
  // ---------------------------------------------------------------------

  predicate Plain(s: string) {
    forall i | 0 <= i < |s| :: s[i] >= ' ' && s[i] != '"' && s[i] != '\\'
  }

  lemma {:induction false} PlainIsKept(s: string)
    requires Plain(s)
    ensures Escape(s) == s && Clean(s) == s
  {
    if s != "" {
      PlainIsKept(s[1..]);
      assert s == [s[0]] + s[1..];
    }
  }

  /** The field is the one that prints the member; texts that need no escaping may stand as they are. */
  ghost predicate FieldFor(m: Member, field: string) {
    && Plain(m.key)
    && match m.value
       case Text(text) => field == TextField(m.key, Escape(text)) || (Plain(text) && field == TextField(m.key, text))
       case value => field == BareField(m.key, PrintValue(value))
  }

  lemma {:induction false} FieldPrintsMember(m: Member, field: string)
    requires FieldFor(m, field)
    ensures PrintMember(m) == field
  {
    PlainIsKept(m.key);
    if m.value.Text? && Plain(m.value.text) {
      PlainIsKept(m.value.text);
    }
  }

  lemma {:induction false} MembersAreJoined(ms: seq<Member>, fields: seq<string>)
    requires ms != [] && |fields| == |ms|
    requires forall i | 0 <= i < |ms| :: FieldFor(ms[i], fields[i])
    ensures PrintMembers(ms) == Joined(fields)
  {
    FieldPrintsMember(ms[0], fields[0]);
    if |ms| > 1 {
      MembersAreJoined(ms[1..], fields[1..]);
    }
  }

  lemma {:induction false} FixedKeysArePlain()
    ensures Plain("service") && Plain("hostname") && Plain("board_model") && Plain("soc") && Plain("architecture")
    ensures Plain("grpc_port") && Plain("model_name") && Plain("task") && Plain("busy") && Plain("password_required")
  {
  }

  lemma {:induction false} FixedTextsArePlain()
    ensures Plain("luckfox-rknn") && Plain("Luckfox Pico") && Plain("Rockchip RV1106/RV1103")
  {
  }

  lemma {:induction false} FieldsOfMembers(f: Facts)
    ensures |FieldsOf(f)| == |Members(f)| == 10
    ensures forall i | 0 <= i < 10 :: FieldFor(Members(f)[i], FieldsOf(f)[i])
  {
    FixedKeysArePlain();
    FixedTextsArePlain();
  }

  /** The answer is exactly the printed object. */
  lemma {:induction false} AnswerPrintsMembers(f: Facts)
    ensures Answer(f) == PrintObject(Members(f))
  {
    FieldsOfMembers(f);
    MembersAreJoined(Members(f), FieldsOf(f));
  }

  // ---------------------------------------------------------------------
  // What the client reads
  // ---------------------------------------------------------------------

  lemma {:induction false} FitsAndIsRead(answer: string, ms: seq<Member>)
    requires ms != [] && answer == PrintObject(ms) && |answer| < RESPONSE_SIZE
    ensures ParseObject(Printed(answer, RESPONSE_SIZE)) == Some(CleanMembers(ms))
  {
    ObjectRoundTrip(ms);
  }

  /** An answer that fits is read back member by member, with only characters below 0x20 removed. */
  lemma {:induction false} FittingAnswerIsRead(f: Facts)
    requires |Answer(f)| < RESPONSE_SIZE
    ensures ParseObject(Sent(f)) == Some(CleanMembers(Members(f)))
  {
    assert Answer(f) == PrintObject(Members(f)) by {
      AnswerPrintsMembers(f);
    }
    FitsAndIsRead(Answer(f), Members(f));
  }

  lemma {:induction false} CutIsNotRead(answer: string, ms: seq<Member>)
    requires ms != [] && answer == PrintObject(ms) && |answer| >= RESPONSE_SIZE
    ensures |Printed(answer, RESPONSE_SIZE)| == 1023 && ParseObject(Printed(answer, RESPONSE_SIZE)) == None
  {
    ObjectCut(ms, 1023);
  }

  /** An answer that does not fit is cut, and then it is no object at all: the client ignores the accelerator. */
  lemma {:induction false} CutAnswerIsNotRead(f: Facts)
    requires |Answer(f)| >= RESPONSE_SIZE
    ensures |Sent(f)| == 1023 && ParseObject(Sent(f)) == None
  {
    assert Answer(f) == PrintObject(Members(f)) by {
      AnswerPrintsMembers(f);
    }
    CutIsNotRead(Answer(f), Members(f));
  }

  lemma {:induction false} DecimalLength(n: nat)
    requires n < 65536
    ensures |Decimal(n)| <= 5
  {
    if n >= 10 {
      ShortDecimal(n / 10, 4);
    }
  }

  lemma {:induction false} ShortDecimal(n: nat, digits: nat)
    requires digits > 0 && n < Pow10(digits)
    ensures |Decimal(n)| <= digits
  {
    if n >= 10 {
      ShortDecimal(n / 10, digits - 1);
    }
  }

  function Pow10(digits: nat): nat {
    if digits == 0 then 1 else 10 * Pow10(digits - 1)
  }

  /** The lengths of the first `n` fields. */
  function TotalLength(fields: seq<string>, n: nat): nat
    requires n <= |fields|
  {
    if n == 0 then 0 else TotalLength(fields, n - 1) + |fields[n - 1]|
  }

  lemma {:induction false} TotalWithoutFirst(fields: seq<string>, n: nat)
    requires 0 < n <= |fields|
    ensures TotalLength(fields, n) == |fields[0]| + TotalLength(fields[1..], n - 1)
  {
    if n > 1 {
      TotalWithoutFirst(fields, n - 1);
    }
  }

  lemma {:induction false} JoinedLength(fields: seq<string>)
    requires fields != []
    ensures |Joined(fields)| == TotalLength(fields, |fields|) + |fields|
  {
    TotalWithoutFirst(fields, |fields|);
    if |fields| > 1 {
      JoinedLength(fields[1..]);
    }
  }

  lemma {:induction false} TenLengths(fields: seq<string>)
    requires |fields| == 10
    ensures |Joined(fields)| ==
      |fields[0]| + |fields[1]| + |fields[2]| + |fields[3]| + |fields[4]| + |fields[5]| + |fields[6]|
      + |fields[7]| + |fields[8]| + |fields[9]| + 10
  {
    JoinedLength(fields);
    assert TotalLength(fields, 1) == |fields[0]|;
    assert TotalLength(fields, 2) == |fields[0]| + |fields[1]|;
    assert TotalLength(fields, 4) == TotalLength(fields, 2) + |fields[2]| + |fields[3]|;
    assert TotalLength(fields, 6) == TotalLength(fields, 4) + |fields[4]| + |fields[5]|;
    assert TotalLength(fields, 8) == TotalLength(fields, 6) + |fields[6]| + |fields[7]|;
    assert TotalLength(fields, 10) == TotalLength(fields, 8) + |fields[8]| + |fields[9]|;
  }

  /** The length of the fixed text and the lengths of what is filled in. */
  lemma {:induction false} AnswerLength(f: Facts)
    ensures |Answer(f)| ==
      190 + |Escape(f.hostname)| + |Escape(f.architecture)| + |Escape(f.modelName)| + |Escape(f.task)|
      + |Decimal(f.grpcPort)| + (if f.busy then 4 else 5)
  {
    TenLengths(FieldsOf(f));
  }

  // ---------------------------------------------------------------------
  // What the client reads of it
  // ---------------------------------------------------------------------

  /** The client decodes the datagram as UTF-8 before it reads it; texts stay as their bytes here. */
  function ClientReads(datagram: string): Option<seq<Member>> {
    if Utf8.Valid(datagram) then ParseObject(datagram) else None
  }

  /** What is left of the texts without characters below 0x20 is UTF-8. */
  predicate Decodable(f: Facts) {
    && Utf8.Valid(Clean(f.hostname)) && Utf8.Valid(Clean(f.architecture))
    && Utf8.Valid(Clean(f.modelName)) && Utf8.Valid(Clean(f.task))
  }

  lemma {:induction false} AsciiBetween(before: string, middle: string, after: string)
    requires middle != "" && Utf8.IsAscii(middle)
    ensures Utf8.Valid(before + (middle + after)) <==> Utf8.Valid(before) && Utf8.Valid(after)
  {
    assert before + (middle + after) == before + [middle[0]] + (middle[1..] + after);
    Utf8.ValidAround(before, middle[0], middle[1..] + after);
    Utf8.AsciiBefore(middle[1..], after);
  }

  /** Escaping neither breaks nor repairs UTF-8, beyond what leaving out characters does. */
  lemma {:induction false} EscapeKeepsUtf8(before: string, s: string)
    ensures Utf8.Valid(before + Escape(s)) <==> Utf8.Valid(before + Clean(s))
    decreases |s|
  {
    if s == "" {
    } else if s[0] < ' ' {
      EscapeKeepsUtf8(before, s[1..]);
      assert Escape(s) == Escape(s[1..]) && Clean(s) == Clean(s[1..]);
    } else if s[0] == '"' || s[0] == '\\' {
      assert Utf8.Valid(Escape(s[1..])) <==> Utf8.Valid(Clean(s[1..])) by {
        EscapeKeepsUtf8("", s[1..]);
        assert "" + Escape(s[1..]) == Escape(s[1..]) && "" + Clean(s[1..]) == Clean(s[1..]);
      }
      QuoteKeepsUtf8(before, s[0], Escape(s[1..]), Clean(s[1..]));
    } else {
      EscapeKeepsUtf8(before + [s[0]], s[1..]);
      OneCharacterOn(before, s[0], Escape(s[1..]));
      OneCharacterOn(before, s[0], Clean(s[1..]));
    }
  }

  lemma {:induction false} OneCharacterOn(before: string, c: char, rest: string)
    ensures (before + [c]) + rest == before + ([c] + rest)
  {
  }

  lemma {:induction false} QuoteKeepsUtf8(before: string, c: char, escaped: string, cleaned: string)
    requires c == '"' || c == '\\'
    requires Utf8.Valid(escaped) <==> Utf8.Valid(cleaned)
    ensures Utf8.Valid(before + (['\\', c] + escaped)) <==> Utf8.Valid(before + ([c] + cleaned))
  {
    AsciiBetween(before, ['\\', c], escaped);
    AsciiBetween(before, [c], cleaned);
  }

  lemma {:induction false} EscapedIsUtf8(s: string)
    ensures Utf8.Valid(Escape(s)) <==> Utf8.Valid(Clean(s))
  {
    EscapeKeepsUtf8("", s);
    assert "" + Escape(s) == Escape(s) && "" + Clean(s) == Clean(s);
  }

  lemma {:induction false} BareFieldIsUtf8(key: string, printed: string)
    requires Utf8.IsAscii(key)
    ensures Utf8.Valid(BareField(key, printed)) <==> Utf8.Valid(printed)
  {
    var before := "\"" + (key + "\":");
    assert BareField(key, printed) == before + printed;
    Utf8.AsciiBefore(before, printed);
  }

  lemma {:induction false} TextFieldIsUtf8(key: string, escaped: string)
    requires Utf8.IsAscii(key)
    ensures Utf8.Valid(TextField(key, escaped)) <==> Utf8.Valid(escaped)
  {
    BareFieldIsUtf8(key, "\"" + escaped + "\"");
    Utf8.AsciiBehind("\"" + escaped, "\"");
    Utf8.AsciiBefore("\"", escaped);
  }

  lemma {:induction false} AsciiIsUtf8(s: string)
    requires Utf8.IsAscii(s)
    ensures Utf8.Valid(s)
  {
    Utf8.AsciiBefore(s, "");
    assert s + "" == s;
  }

  lemma {:induction false} DecimalIsAscii(n: nat)
    ensures Utf8.IsAscii(Decimal(n))
  {
    if n >= 10 {
      DecimalIsAscii(n / 10);
    }
  }

  lemma {:induction false} JoinedIsUtf8(fields: seq<string>)
    requires fields != []
    ensures Utf8.Valid(Joined(fields)) <==> forall i | 0 <= i < |fields| :: Utf8.Valid(fields[i])
  {
    if |fields| == 1 {
      Utf8.AsciiBehind(fields[0], "}");
    } else {
      var rest := Joined(fields[1..]);
      assert Joined(fields) == fields[0] + [','] + rest;
      Utf8.ValidAround(fields[0], ',', rest);
      JoinedIsUtf8(fields[1..]);
      assert forall i | 1 <= i < |fields| :: fields[i] == fields[1..][i - 1];
    }
  }

  lemma {:induction false} FixedKeysAreAscii()
    ensures Utf8.IsAscii("service") && Utf8.IsAscii("hostname") && Utf8.IsAscii("board_model") && Utf8.IsAscii("soc")
    ensures Utf8.IsAscii("architecture") && Utf8.IsAscii("grpc_port") && Utf8.IsAscii("model_name")
    ensures Utf8.IsAscii("task") && Utf8.IsAscii("busy") && Utf8.IsAscii("password_required")
  {
  }

  lemma {:induction false} FixedTextsAreAscii()
    ensures Utf8.IsAscii("luckfox-rknn") && Utf8.IsAscii("Luckfox Pico") && Utf8.IsAscii("Rockchip RV1106/RV1103")
    ensures Utf8.IsAscii("true") && Utf8.IsAscii("false")
  {
  }

  lemma {:induction false} AsciiFieldIsUtf8(key: string, printed: string, field: string)
    requires Utf8.IsAscii(key) && Utf8.IsAscii(printed)
    requires field == TextField(key, printed) || field == BareField(key, printed)
    ensures Utf8.Valid(field)
  {
    AsciiIsUtf8(printed);
    TextFieldIsUtf8(key, printed);
    BareFieldIsUtf8(key, printed);
  }

  lemma {:induction false} ServiceIsUtf8(f: Facts)
    ensures Utf8.Valid(FieldsOf(f)[0])
  {
    FixedKeysAreAscii();
    FixedTextsAreAscii();
    AsciiFieldIsUtf8("service", "luckfox-rknn", FieldsOf(f)[0]);
  }

  lemma {:induction false} BoardIsUtf8(f: Facts)
    ensures Utf8.Valid(FieldsOf(f)[2])
  {
    FixedKeysAreAscii();
    FixedTextsAreAscii();
    AsciiFieldIsUtf8("board_model", "Luckfox Pico", FieldsOf(f)[2]);
  }

  lemma {:induction false} SocIsUtf8(f: Facts)
    ensures Utf8.Valid(FieldsOf(f)[3])
  {
    FixedKeysAreAscii();
    FixedTextsAreAscii();
    AsciiFieldIsUtf8("soc", "Rockchip RV1106/RV1103", FieldsOf(f)[3]);
  }

  lemma {:induction false} PortIsUtf8(f: Facts)
    ensures Utf8.Valid(FieldsOf(f)[5])
  {
    FixedKeysAreAscii();
    FixedTextsAreAscii();
    DecimalIsAscii(f.grpcPort);
    AsciiFieldIsUtf8("grpc_port", Decimal(f.grpcPort), FieldsOf(f)[5]);
  }

  lemma {:induction false} BusyIsUtf8(f: Facts)
    ensures Utf8.Valid(FieldsOf(f)[8])
  {
    FixedKeysAreAscii();
    FixedTextsAreAscii();
    AsciiFieldIsUtf8("busy", if f.busy then "true" else "false", FieldsOf(f)[8]);
  }

  lemma {:induction false} PasswordIsUtf8(f: Facts)
    ensures Utf8.Valid(FieldsOf(f)[9])
  {
    FixedKeysAreAscii();
    FixedTextsAreAscii();
    AsciiFieldIsUtf8("password_required", "true", FieldsOf(f)[9]);
  }

  lemma {:induction false} HostnameIsUtf8(f: Facts)
    ensures Utf8.Valid(FieldsOf(f)[1]) <==> Utf8.Valid(Clean(f.hostname))
  {
    FixedKeysAreAscii();
    EscapedIsUtf8(f.hostname);
    TextFieldIsUtf8("hostname", Escape(f.hostname));
  }

  lemma {:induction false} ArchitectureIsUtf8(f: Facts)
    ensures Utf8.Valid(FieldsOf(f)[4]) <==> Utf8.Valid(Clean(f.architecture))
  {
    FixedKeysAreAscii();
    EscapedIsUtf8(f.architecture);
    TextFieldIsUtf8("architecture", Escape(f.architecture));
  }

  lemma {:induction false} ModelIsUtf8(f: Facts)
    ensures Utf8.Valid(FieldsOf(f)[6]) <==> Utf8.Valid(Clean(f.modelName))
  {
    FixedKeysAreAscii();
    EscapedIsUtf8(f.modelName);
    TextFieldIsUtf8("model_name", Escape(f.modelName));
  }

  lemma {:induction false} TaskIsUtf8(f: Facts)
    ensures Utf8.Valid(FieldsOf(f)[7]) <==> Utf8.Valid(Clean(f.task))
  {
    FixedKeysAreAscii();
    EscapedIsUtf8(f.task);
    TextFieldIsUtf8("task", Escape(f.task));
  }

  /** The answer is UTF-8 if and only if its cleaned texts are. */
  lemma {:induction false} AnswerIsUtf8(f: Facts)
    ensures Utf8.Valid(Answer(f)) <==> Decodable(f)
  {
    var fields := FieldsOf(f);
    Utf8.AsciiBefore("{", Joined(fields));
    JoinedIsUtf8(fields);
    FieldsAreUtf8(f);
  }

  lemma {:induction false} FieldsAreUtf8(f: Facts)
    ensures |FieldsOf(f)| == 10
    ensures (forall i | 0 <= i < 10 :: Utf8.Valid(FieldsOf(f)[i])) <==> Decodable(f)
  {
    ServiceIsUtf8(f);
    HostnameIsUtf8(f);
    BoardIsUtf8(f);
    SocIsUtf8(f);
    ArchitectureIsUtf8(f);
    PortIsUtf8(f);
    ModelIsUtf8(f);
    TaskIsUtf8(f);
    BusyIsUtf8(f);
    PasswordIsUtf8(f);
    TenAreUtf8(FieldsOf(f));
  }

  lemma {:induction false} TenAreUtf8(fields: seq<string>)
    requires |fields| == 10
    ensures (forall i | 0 <= i < 10 :: Utf8.Valid(fields[i])) <==>
      && Utf8.Valid(fields[0]) && Utf8.Valid(fields[1]) && Utf8.Valid(fields[2]) && Utf8.Valid(fields[3])
      && Utf8.Valid(fields[4]) && Utf8.Valid(fields[5]) && Utf8.Valid(fields[6]) && Utf8.Valid(fields[7])
      && Utf8.Valid(fields[8]) && Utf8.Valid(fields[9])
  {
  }

  /** What a client reads of an answer: everything, cleaned, or nothing. */
  lemma {:induction false} ReadsAllOrNothing(f: Facts)
    ensures ClientReads(Sent(f)) ==
      if |Answer(f)| < RESPONSE_SIZE && Decodable(f) then Some(CleanMembers(Members(f))) else None
  {
    if |Answer(f)| < RESPONSE_SIZE {
      AnswerIsUtf8(f);
      FittingAnswerIsRead(f);
    } else {
      CutAnswerIsNotRead(f);
    }
  }

  /**
    A client can read the answer if and only if its parts fit, 833 bytes for the escaped texts, the
    digits of the port and the busy flag, and its cleaned texts are UTF-8.
   */
  lemma {:induction false} ReadableExactlyWhenItFits(f: Facts)
    ensures ClientReads(Sent(f)).Some? <==>
      && |Escape(f.hostname)| + |Escape(f.architecture)| + |Escape(f.modelName)| + |Escape(f.task)|
           + |Decimal(f.grpcPort)| + (if f.busy then 4 else 5) <= 833
      && Decodable(f)
  {
    AnswerLength(f);
    ReadsAllOrNothing(f);
  }

  /**
    Any host name and architecture the system can have fit, with up to 220 characters of model and task,
    and are read if they are UTF-8.
   */
  lemma {:induction false} SystemNamesFit(f: Facts)
    requires |f.hostname| <= 127 && |f.architecture| <= 64 && f.grpcPort < 65536
    requires |f.modelName| + |f.task| <= 220
    ensures |Answer(f)| < RESPONSE_SIZE
    ensures Decodable(f) ==> ClientReads(Sent(f)) == Some(CleanMembers(Members(f)))
  {
    EscapeLength(f.hostname);
    EscapeLength(f.architecture);
    EscapeLength(f.modelName);
    EscapeLength(f.task);
    DecimalLength(f.grpcPort);
    AnswerLength(f);
    ReadsAllOrNothing(f);
  }

  /** A host name in Latin-1 fits, and yet nobody can read the answer. */
  lemma {:induction false} LatinHostIsNotRead(f: Facts)
    requires f.hostname == [0xE9 as char] && |f.architecture| <= 64 && f.grpcPort < 65536
    requires |f.modelName| + |f.task| <= 220
    ensures |Answer(f)| < RESPONSE_SIZE && ClientReads(Sent(f)) == None
  {
    SystemNamesFit(f);
    ReadsAllOrNothing(f);
    assert Clean(f.hostname) == f.hostname;
  }
}
