/** What the entries of a discovered list say, in terms of the members of the answers and of nothing else. */
module DiscoverAnswers {
  import opened DiscoverClient
  import opened StringOrder
  import opened Wrappers
  import Json

  // ---------------------------------------------------------------------
  // Members
  // ---------------------------------------------------------------------

  /** The last member with the key has the value. */
  predicate Has(ms: seq<Member>, key: string, value: Value) {
    exists i | 0 <= i < |ms| :: ms[i] == Member(key, value) && forall j | i < j < |ms| :: ms[j].key != key
  }

  predicate Absent(ms: seq<Member>, key: string) {
    forall i | 0 <= i < |ms| :: ms[i].key != key
  }

  lemma {:induction false} LookupAbsent(ms: seq<Member>, key: string)
    ensures Lookup(ms, key) == None <==> Absent(ms, key)
  {
    if ms != [] && ms[|ms| - 1].key != key {
      var front := ms[..|ms| - 1];
      LookupAbsent(front, key);
      assert Absent(front, key) <==> forall i | 0 <= i < |ms| - 1 :: ms[i].key != key;
    }
  }

  lemma {:induction false} LastOf(ms: seq<Member>, key: string) returns (i: nat)
    requires Lookup(ms, key).Some?
    ensures i < |ms| && ms[i] == Member(key, Lookup(ms, key).value)
    ensures forall j | i < j < |ms| :: ms[j].key != key
  {
    i := |ms| - 1;
    if ms[i].key != key {
      i := LastOf(ms[..i], key);
    }
  }

  /** Looking up a key finds the last member that has it. */
  lemma {:induction false} LookupMeans(ms: seq<Member>, key: string, value: Value)
    ensures Lookup(ms, key) == None <==> Absent(ms, key)
    ensures Lookup(ms, key) == Some(value) <==> Has(ms, key, value)
  {
    LookupAbsent(ms, key);
    if Lookup(ms, key) == Some(value) {
      var i := LastOf(ms, key);
      assert ms[i] == Member(key, value);
    }
    if Has(ms, key, value) {
      var i: nat :| i < |ms| && ms[i] == Member(key, value) && forall j | i < j < |ms| :: ms[j].key != key;
      LookupFinds(ms, i, key);
    }
  }

  // ---------------------------------------------------------------------
  // Values
  // ---------------------------------------------------------------------

  /** The number in decimal: digits without leading zeros, after a minus when it is negative. */
  predicate IsDecimal(text: string, n: int) {
    var digits := if n < 0 && text != "" then text[1..] else text;
    && (n < 0 ==> text != "" && text[0] == '-')
    && digits != "" && Json.AllDigits(digits) && (digits[0] == '0' ==> |digits| == 1)
    && Json.DecimalValue(digits) == if n < 0 then -n else n
  }

  /** The integer a port is: itself, what Python reads in a text, a fraction cut towards zero, a truth as 0 or 1. */
  predicate IsPort(readInt: IntReader, value: Value, n: int) {
    match value
    case Text(text) => readInt(text) == Some(n)
    case Integer(m) => n == m
    case Fraction(v, _) =>
      && (v >= 0.0 ==> n as real <= v < n as real + 1.0)
      && (v < 0.0 ==> n as real - 1.0 < v <= n as real)
    case Infinite(_) => false
    case NotANumber => false
    case Truth(b) => n == if b then 1 else 0
    case Null => false
    case Nested(_, _) => false
  }

  /** The text Python shows for a value. */
  predicate IsShown(value: Value, text: string) {
    match value
    case Text(t) => text == t
    case Integer(n) => IsDecimal(text, n)
    case Fraction(_, shown) => text == shown
    case Infinite(negative) => text == if negative then "-inf" else "inf"
    case NotANumber => text == "nan"
    case Truth(b) => text == if b then "True" else "False"
    case Null => text == "None"
    case Nested(_, repr) => repr == Some(text)
  }

  /** The values Python counts as false. */
  predicate IsFalse(value: Value) {
    value == Text("") || value == Integer(0) || (value.Fraction? && value.value == 0.0) || value == Truth(false)
    || value == Null || (value.Nested? && value.empty)
  }

  lemma {:induction false} DecimalMeans(text: string, n: int)
    ensures IntText(n) == text <==> IsDecimal(text, n)
  {
    var m := if n < 0 then -n else n;
    Json.DecimalRoundTrip(m);
    if n < 0 {
      assert ("-" + Json.Decimal(m))[1..] == Json.Decimal(m);
    }
    if IsDecimal(text, n) {
      var digits := if n < 0 then text[1..] else text;
      Json.DecimalIsUnique(digits);
      assert n < 0 ==> text == ['-'] + digits;
    }
  }

  lemma {:induction false} ShowMeans(value: Value, text: string)
    ensures Show(value) == Some(text) <==> IsShown(value, text)
  {
    if value.Integer? {
      DecimalMeans(text, value.n);
    }
  }

  lemma {:induction false} TruthMeans(value: Value)
    ensures IsTrue(value) <==> !IsFalse(value)
  {
  }

  /** A port is cut as `IsPort` says, or it is infinite, or the answer is ignored. */
  lemma {:induction false} PortMeans(readInt: IntReader, value: Value, n: int)
    ensures ToPort(readInt, value) == Usable(n) <==> IsPort(readInt, value, n)
    ensures ToPort(readInt, value) == Overflow <==> value.Infinite?
  {
  }

  // ---------------------------------------------------------------------
  // One answer
  // ---------------------------------------------------------------------

  /** The address, a colon, and the port in decimal. */
  predicate IsEndpoint(endpoint: string, address: string, port: int) {
    address + [':'] <= endpoint && IsDecimal(endpoint[|address| + 1..], port)
  }

  /** The text shown for the member, or the default when there is none. */
  ghost predicate IsText(ms: seq<Member>, key: string, default: string, text: string) {
    (Absent(ms, key) && text == default) || exists v :: Has(ms, key, v) && IsShown(v, text)
  }

  ghost predicate IsFlag(ms: seq<Member>, key: string, default: bool, flag: bool) {
    (Absent(ms, key) && flag == default) || exists v :: Has(ms, key, v) && flag == !IsFalse(v)
  }

  /** The eight fields besides the endpoint: of a datagram that lacks a member, the default. */
  ghost predicate IsDescribed(ms: seq<Member>, a: Accelerator) {
    && IsText(ms, "hostname", "unknown", a.hostname)
    && IsText(ms, "board_model", "Luckfox Pico", a.boardModel)
    && IsText(ms, "soc", "Rockchip RV1106/RV1103", a.soc)
    && IsText(ms, "architecture", "arm32", a.architecture)
    && IsText(ms, "model_name", "", a.modelName)
    && IsText(ms, "task", "", a.task)
    && IsFlag(ms, "busy", false, a.busy)
    && IsFlag(ms, "password_required", true, a.passwordRequired)
  }

  ghost predicate HasPort(readInt: IntReader, ms: seq<Member>, port: int) {
    exists v :: Has(ms, "grpc_port", v) && IsPort(readInt, v, port)
  }

  /** The datagram is a valid answer, and this is the accelerator it tells of. */
  ghost predicate Tells(readInt: IntReader, d: Datagram, a: Accelerator) {
    && d.payload.Object?
    && Has(d.payload.members, "service", Text("luckfox-rknn"))
    && (exists port :: HasPort(readInt, d.payload.members, port) && IsEndpoint(a.endpoint, d.address, port))
    && IsDescribed(d.payload.members, a)
  }

  lemma {:induction false} EndpointMeans(endpoint: string, address: string, port: int)
    ensures Endpoint(address, port) == endpoint <==> IsEndpoint(endpoint, address, port)
  {
    DecimalMeans(IntText(port), port);
    assert (address + ":" + IntText(port))[|address| + 1..] == IntText(port);
    if IsEndpoint(endpoint, address, port) {
      DecimalMeans(endpoint[|address| + 1..], port);
      assert endpoint == address + [':'] + endpoint[|address| + 1..];
    }
  }

  lemma {:induction false} TextMeans(ms: seq<Member>, key: string, default: string, text: string)
    ensures TextOr(ms, key, default) == Some(text) <==> IsText(ms, key, default, text)
  {
    LookupMeans(ms, key, Null);
    if Lookup(ms, key).Some? {
      var value := Lookup(ms, key).value;
      LookupMeans(ms, key, value);
      ShowMeans(value, text);
      forall v | Has(ms, key, v) ensures v == value {
        LookupMeans(ms, key, v);
      }
    } else {
      forall v ensures !Has(ms, key, v) {
        LookupMeans(ms, key, v);
      }
    }
  }

  lemma {:induction false} FlagMeans(ms: seq<Member>, key: string, default: bool, flag: bool)
    ensures TruthOr(ms, key, default) == flag <==> IsFlag(ms, key, default, flag)
  {
    LookupMeans(ms, key, Null);
    if Lookup(ms, key).Some? {
      var value := Lookup(ms, key).value;
      LookupMeans(ms, key, value);
      TruthMeans(value);
      forall v | Has(ms, key, v) ensures v == value {
        LookupMeans(ms, key, v);
      }
    } else {
      forall v ensures !Has(ms, key, v) {
        LookupMeans(ms, key, v);
      }
    }
  }

  lemma {:induction false} PortOf(readInt: IntReader, ms: seq<Member>, port: int)
    ensures HasPort(readInt, ms, port) <==>
      Lookup(ms, "grpc_port").Some? && ToPort(readInt, Lookup(ms, "grpc_port").value) == Usable(port)
  {
    var key := "grpc_port";
    if Lookup(ms, key).Some? {
      var value := Lookup(ms, key).value;
      LookupMeans(ms, key, value);
      PortMeans(readInt, value, port);
      forall v | Has(ms, key, v) ensures v == value {
        LookupMeans(ms, key, v);
      }
    } else {
      forall v ensures !Has(ms, key, v) {
        LookupMeans(ms, key, v);
      }
    }
  }

  lemma {:induction false} EndpointOf(readInt: IntReader, ms: seq<Member>, address: string, endpoint: string)
    ensures (exists port :: HasPort(readInt, ms, port) && IsEndpoint(endpoint, address, port)) <==>
      && Lookup(ms, "grpc_port").Some? && ToPort(readInt, Lookup(ms, "grpc_port").value).Usable?
      && Endpoint(address, ToPort(readInt, Lookup(ms, "grpc_port").value).n) == endpoint
  {
    forall port
      ensures HasPort(readInt, ms, port) <==>
        Lookup(ms, "grpc_port").Some? && ToPort(readInt, Lookup(ms, "grpc_port").value) == Usable(port)
      ensures IsEndpoint(endpoint, address, port) <==> Endpoint(address, port) == endpoint
    {
      PortOf(readInt, ms, port);
      EndpointMeans(endpoint, address, port);
    }
  }

  lemma {:induction false} DescribedMeans(ms: seq<Member>, endpoint: string, a: Accelerator)
    ensures Described(ms, endpoint) == Answer(a) <==> a.endpoint == endpoint && IsDescribed(ms, a)
  {
    TextMeans(ms, "hostname", "unknown", a.hostname);
    TextMeans(ms, "board_model", "Luckfox Pico", a.boardModel);
    TextMeans(ms, "soc", "Rockchip RV1106/RV1103", a.soc);
    TextMeans(ms, "architecture", "arm32", a.architecture);
    TextMeans(ms, "model_name", "", a.modelName);
    TextMeans(ms, "task", "", a.task);
    FlagMeans(ms, "busy", false, a.busy);
    FlagMeans(ms, "password_required", true, a.passwordRequired);
  }

  /** The way the code takes to an entry. */
  predicate Accepts(readInt: IntReader, ms: seq<Member>, address: string, a: Accelerator) {
    && Lookup(ms, "service") == Some(Text("luckfox-rknn"))
    && Lookup(ms, "grpc_port").Some? && ToPort(readInt, Lookup(ms, "grpc_port").value).Usable?
    && Described(ms, Endpoint(address, ToPort(readInt, Lookup(ms, "grpc_port").value).n)) == Answer(a)
  }

  lemma {:induction false} AnswersAccept(readInt: IntReader, address: string, ms: seq<Member>, a: Accelerator)
    ensures EffectOf(readInt, Datagram(address, Object(ms))) == Answer(a) <==> Accepts(readInt, ms, address, a)
  {
  }

  lemma {:induction false} AcceptsWhatIsTold(readInt: IntReader, address: string, ms: seq<Member>, a: Accelerator)
    ensures Accepts(readInt, ms, address, a) <==> Tells(readInt, Datagram(address, Object(ms)), a)
  {
    LookupMeans(ms, "service", Text("luckfox-rknn"));
    EndpointOf(readInt, ms, address, a.endpoint);
    var port := Lookup(ms, "grpc_port");
    if port.Some? && ToPort(readInt, port.value).Usable? {
      DescribedMeans(ms, Endpoint(address, ToPort(readInt, port.value).n), a);
    }
  }

  /** A datagram becomes an entry exactly if it is a valid answer, and the entry is the one it tells of. */
  lemma {:induction false} AnswersTell(readInt: IntReader, d: Datagram, a: Accelerator)
    ensures EffectOf(readInt, d) == Answer(a) <==> Tells(readInt, d, a)
  {
    if d.payload.Object? {
      AnswersAccept(readInt, d.address, d.payload.members, a);
      AcceptsWhatIsTold(readInt, d.address, d.payload.members, a);
    }
  }

  /** Where addresses have no colon, as those of IPv4, an endpoint names one address and one port. */
  lemma {:induction false} EndpointsDiffer(address: string, port: int, otherAddress: string, otherPort: int,
                                           endpoint: string, otherEndpoint: string)
    requires IsEndpoint(endpoint, address, port) && IsEndpoint(otherEndpoint, otherAddress, otherPort)
    requires ':' !in address && ':' !in otherAddress
    ensures endpoint == otherEndpoint <==> address == otherAddress && port == otherPort
  {
    EndpointMeans(endpoint, address, port);
    EndpointMeans(otherEndpoint, otherAddress, otherPort);
    if endpoint == otherEndpoint {
      ColonAfter(endpoint, address, port);
      ColonAfter(endpoint, otherAddress, otherPort);
      OneNumber(endpoint[|address| + 1..], port, otherPort);
    }
  }

  /** The place of the first colon. */
  function Colon(text: string): nat {
    if text == "" || text[0] == ':' then 0 else 1 + Colon(text[1..])
  }

  lemma {:induction false} ColonAt(text: string, i: nat)
    requires i < |text| && text[i] == ':' && forall k | 0 <= k < i :: text[k] != ':'
    ensures Colon(text) == i
  {
    if i > 0 {
      ColonAt(text[1..], i - 1);
    }
  }

  lemma {:induction false} ColonAfter(endpoint: string, address: string, port: int)
    requires IsEndpoint(endpoint, address, port) && ':' !in address
    ensures Colon(endpoint) == |address| && |address| < |endpoint| && endpoint[..|address|] == address
  {
    forall k | 0 <= k < |address| ensures endpoint[k] == address[k] {
      assert (address + [':'])[k] == address[k];
    }
    assert (address + [':'])[|address|] == ':';
    ColonAt(endpoint, |address|);
  }

  lemma {:induction false} OneNumber(text: string, m: int, n: int)
    requires IsDecimal(text, m) && IsDecimal(text, n)
    ensures m == n
  {
    assert Json.IsDigit(text[0]) <==> m >= 0;
  }

  // ---------------------------------------------------------------------
  // The whole list
  // ---------------------------------------------------------------------

  ghost predicate TellsOf(readInt: IntReader, d: Datagram, endpoint: string) {
    exists a :: Tells(readInt, d, a) && a.endpoint == endpoint
  }

  /** Datagram `k` tells of the accelerator, and no later one of its endpoint. */
  ghost predicate LastTold(readInt: IntReader, ds: seq<Datagram>, k: nat, a: Accelerator)
    requires k < |ds|
  {
    Tells(readInt, ds[k], a) && forall j | k < j < |ds| :: !TellsOf(readInt, ds[j], a.endpoint)
  }

  ghost predicate ToldLast(readInt: IntReader, ds: seq<Datagram>, a: Accelerator) {
    exists k: nat | k < |ds| :: LastTold(readInt, ds, k, a)
  }

  ghost predicate Told(readInt: IntReader, ds: seq<Datagram>, endpoint: string) {
    exists k | 0 <= k < |ds| :: TellsOf(readInt, ds[k], endpoint)
  }

  /** Every entry is the last that was told of its endpoint, every endpoint told of has one, in ascending order. */
  ghost predicate ListsTold(readInt: IntReader, ds: seq<Datagram>, listed: seq<Accelerator>) {
    && (forall i | 0 <= i < |listed| :: ToldLast(readInt, ds, listed[i]))
    && (forall e | Told(readInt, ds, e) :: exists i | 0 <= i < |listed| :: listed[i].endpoint == e)
    && (forall i, j | 0 <= i < j < |listed| :: Before(listed[i].endpoint, listed[j].endpoint))
  }

  lemma {:induction false} TellsOfMeans(readInt: IntReader, d: Datagram, endpoint: string)
    ensures TellsOf(readInt, d, endpoint) <==> AnswersFor(readInt, d, endpoint)
  {
    if TellsOf(readInt, d, endpoint) {
      var a :| Tells(readInt, d, a) && a.endpoint == endpoint;
      AnswersTell(readInt, d, a);
    }
    if AnswersFor(readInt, d, endpoint) {
      AnswersTell(readInt, d, EffectOf(readInt, d).accelerator);
    }
  }

  lemma {:induction false} NobodyAnswers(readInt: IntReader, ds: seq<Datagram>, e: string)
    ensures From(readInt, ds, e) == [] <==> forall k | 0 <= k < |ds| :: !AnswersFor(readInt, ds[k], e)
  {
    if ds != [] && !AnswersFor(readInt, ds[|ds| - 1], e) {
      NobodyAnswers(readInt, ds[..|ds| - 1], e);
      assert forall k | 0 <= k < |ds| - 1 :: ds[..|ds| - 1][k] == ds[k];
    }
  }

  lemma {:induction false} LastTrue(answers: seq<bool>) returns (k: nat)
    requires true in answers
    ensures k < |answers| && answers[k] && forall j | k < j < |answers| :: !answers[j]
  {
    k := |answers| - 1;
    if !answers[k] {
      k := LastTrue(answers[..k]);
    }
  }

  lemma {:induction false} LastAnswer(readInt: IntReader, ds: seq<Datagram>, e: string) returns (k: nat)
    requires From(readInt, ds, e) != []
    ensures k < |ds| && AnswersFor(readInt, ds[k], e)
    ensures
      var said := From(readInt, ds, e);
      EffectOf(readInt, ds[k]).accelerator == said[|said| - 1]
    ensures forall j | k < j < |ds| :: !AnswersFor(readInt, ds[j], e)
  {
    NobodyAnswers(readInt, ds, e);
    var answers := seq(|ds|, i requires 0 <= i < |ds| => AnswersFor(readInt, ds[i], e));
    assert forall i | 0 <= i < |ds| :: answers[i] == AnswersFor(readInt, ds[i], e);
    k := LastTrue(answers);
    NobodyAnswers(readInt, ds[k + 1..], e);
    FromConcat(readInt, ds[..k + 1], ds[k + 1..], e);
    assert ds[..k + 1] + ds[k + 1..] == ds;
    FromNext(readInt, ds, k, e);
  }

  /** What an endpoint says last is the last that is told of it. */
  lemma {:induction false} SaidLast(readInt: IntReader, ds: seq<Datagram>, e: string, a: Accelerator)
    requires
      var said := From(readInt, ds, e);
      said != [] && said[|said| - 1] == a
    ensures a.endpoint == e && ToldLast(readInt, ds, a)
  {
    var k := LastAnswer(readInt, ds, e);
    AnswersTell(readInt, ds[k], a);
    forall j | k < j < |ds| ensures !TellsOf(readInt, ds[j], e) {
      TellsOfMeans(readInt, ds[j], e);
    }
    assert LastTold(readInt, ds, k, a);
  }

  lemma {:induction false} ToldSpeaks(readInt: IntReader, ds: seq<Datagram>, e: string)
    requires Told(readInt, ds, e)
    ensures From(readInt, ds, e) != []
  {
    var k :| 0 <= k < |ds| && TellsOf(readInt, ds[k], e);
    TellsOfMeans(readInt, ds[k], e);
    NobodyAnswers(readInt, ds, e);
  }

  /** The list `discover` returns, told without saying how it is made. */
  lemma {:induction false} ListedIsTold(readInt: IntReader, ds: seq<Datagram>, r: Outcome)
    requires IsOutcome(readInt, ds, r) && r.Listed?
    ensures ListsTold(readInt, ds, r.accelerators)
  {
    var listed := r.accelerators;
    var keys := Endpoints(listed);
    forall i | 0 <= i < |listed| ensures ToldLast(readInt, ds, listed[i]) {
      SaidLast(readInt, ds, listed[i].endpoint, listed[i]);
    }
    forall e | Told(readInt, ds, e) ensures exists i | 0 <= i < |listed| :: listed[i].endpoint == e {
      ToldSpeaks(readInt, ds, e);
      var i :| 0 <= i < |keys| && keys[i] == e;
      assert listed[i].endpoint == e;
    }
    forall i, j | 0 <= i < j < |listed| ensures Before(listed[i].endpoint, listed[j].endpoint) {
      assert Before(keys[i], keys[j]);
    }
  }
}
