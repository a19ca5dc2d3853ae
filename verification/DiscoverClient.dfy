/**
  The client's side of discovery: datagrams arrive from anywhere, and the answers among them
  become a list of accelerators, one for each endpoint.
 */
module DiscoverClient {
  import opened StringOrder
  import opened Wrappers
  import Json

  /**
    What a member of a JSON object may hold, as Python's reader decodes it: a number may be no number or
    infinite, even when written with digits (1e999). Fractions and nested values come with the text
    Python shows for them; a value nested too deeply has none.
   */
  datatype Value =
    | Text(text: string)
    | Integer(n: int)
    | Fraction(value: real, shown: string)
    | Infinite(negative: bool)
    | NotANumber
    | Truth(b: bool)
    | Null
    | Nested(empty: bool, repr: Option<string>)

  datatype Member = Member(key: string, value: Value)

  /** What a payload decodes to: no text or no JSON, JSON nested too deeply to read, JSON but no object, an object. */
  datatype Payload = Garbage | TooDeep | NotAnObject | Object(members: seq<Member>)

  datatype Datagram = Datagram(address: string, payload: Payload)

  datatype Accelerator = Accelerator(
    endpoint: string, hostname: string, boardModel: string, soc: string, architecture: string,
    modelName: string, task: string, busy: bool, passwordRequired: bool)

  /** The list, or an exception that nothing catches. */
  datatype Outcome = Listed(accelerators: seq<Accelerator>) | Raised

  /** How Python reads a decimal integer from a string. */
  type IntReader = string -> Option<int>

  // ---------------------------------------------------------------------
  // One datagram
  // ---------------------------------------------------------------------

  /** Of equal keys the last one counts. */
  function Lookup(ms: seq<Member>, key: string): Option<Value> {
    if ms == [] then None
    else if ms[|ms| - 1].key == key then Some(ms[|ms| - 1].value)
    else Lookup(ms[..|ms| - 1], key)
  }

  lemma {:induction false} LookupFinds(ms: seq<Member>, i: nat, key: string)
    requires i < |ms| && ms[i].key == key
    requires forall j | i < j < |ms| :: ms[j].key != key
    ensures Lookup(ms, key) == Some(ms[i].value)
    decreases |ms|
  {
    if i < |ms| - 1 {
      LookupFinds(ms[..|ms| - 1], i, key);
    }
  }

  function IntText(n: int): string {
    if n < 0 then "-" + Json.Decimal(-n) else Json.Decimal(n)
  }

  /** `str`; none when showing the value nests too deeply. */
  function Show(value: Value): Option<string> {
    match value
    case Text(text) => Some(text)
    case Integer(n) => Some(IntText(n))
    case Fraction(_, shown) => Some(shown)
    case Infinite(negative) => Some(if negative then "-inf" else "inf")
    case NotANumber => Some("nan")
    case Truth(b) => Some(if b then "True" else "False")
    case Null => Some("None")
    case Nested(_, repr) => repr
  }

  /** `bool`. */
  function IsTrue(value: Value): bool {
    match value
    case Text(text) => text != ""
    case Integer(n) => n != 0
    case Fraction(value, _) => value != 0.0
    case Infinite(_) => true
    case NotANumber => true
    case Truth(b) => b
    case Null => false
    case Nested(empty, _) => !empty
  }

  /** `int`: a number, an exception that is caught, or OverflowError, which is not. */
  datatype Port = Usable(n: int) | Rejected | Overflow

  function ToPort(readInt: IntReader, value: Value): Port {
    match value
    case Text(text) => if readInt(text).Some? then Usable(readInt(text).value) else Rejected
    case Integer(n) => Usable(n)
    case Fraction(value, _) => Usable(if value >= 0.0 then value.Floor else -(-value).Floor)
    case Infinite(_) => Overflow
    case NotANumber => Rejected
    case Truth(b) => Usable(if b then 1 else 0)
    case Null => Rejected
    case Nested(_, _) => Rejected
  }

  function Endpoint(address: string, port: int): string {
    address + ":" + IntText(port)
  }

  function TextOr(ms: seq<Member>, key: string, default: string): Option<string> {
    match Lookup(ms, key)
    case None => Some(default)
    case Some(value) => Show(value)
  }

  function TruthOr(ms: seq<Member>, key: string, default: bool): bool {
    match Lookup(ms, key)
    case None => default
    case Some(value) => IsTrue(value)
  }

  /** What one datagram does: nothing, one entry, or an exception that leaves `discover`. */
  datatype Effect = Ignored | Answer(accelerator: Accelerator) | Escapes

  function EffectOf(readInt: IntReader, d: Datagram): Effect {
    match d.payload
    case Garbage => Ignored
    case TooDeep => Escapes
    case NotAnObject => Escapes
    case Object(ms) =>
      if Lookup(ms, "service") != Some(Text("luckfox-rknn")) then Ignored
      else
        match Lookup(ms, "grpc_port")
        case None => Ignored
        case Some(value) =>
          match ToPort(readInt, value)
          case Rejected => Ignored
          case Overflow => Escapes
          case Usable(port) => Described(ms, Endpoint(d.address, port))
  }

  function Described(ms: seq<Member>, endpoint: string): Effect {
    var hostname := TextOr(ms, "hostname", "unknown");
    var boardModel := TextOr(ms, "board_model", "Luckfox Pico");
    var soc := TextOr(ms, "soc", "Rockchip RV1106/RV1103");
    var architecture := TextOr(ms, "architecture", "arm32");
    var modelName := TextOr(ms, "model_name", "");
    var task := TextOr(ms, "task", "");
    if hostname.None? || boardModel.None? || soc.None? || architecture.None? || modelName.None? || task.None? then
      Escapes
    else
      Answer(Accelerator(endpoint, hostname.value, boardModel.value, soc.value, architecture.value, modelName.value,
                         task.value, TruthOr(ms, "busy", false), TruthOr(ms, "password_required", true)))
  }

  // ---------------------------------------------------------------------
  // When an exception leaves discover
  // ---------------------------------------------------------------------

  /** A member whose value cannot be shown, of those that are. */
  predicate Unshowable(ms: seq<Member>, key: string) {
    && (key == "hostname" || key == "board_model" || key == "soc" || key == "architecture"
        || key == "model_name" || key == "task")
    && Lookup(ms, key).Some? && Lookup(ms, key).value.Nested? && Lookup(ms, key).value.repr == None
  }

  predicate IsAnswer(ms: seq<Member>) {
    Lookup(ms, "service") == Some(Text("luckfox-rknn")) && Lookup(ms, "grpc_port").Some?
  }

  /**
    The payloads that make `discover` raise: JSON that is no object or too deep to read, an answer with
    an infinite port, an answer with a usable port and a text nested too deeply to be shown.
   */
  ghost predicate MakesItRaise(readInt: IntReader, d: Datagram) {
    || d.payload.TooDeep?
    || d.payload.NotAnObject?
    || (d.payload.Object? && IsAnswer(d.payload.members) && Lookup(d.payload.members, "grpc_port").value.Infinite?)
    || (d.payload.Object? && IsAnswer(d.payload.members)
          && ToPort(readInt, Lookup(d.payload.members, "grpc_port").value).Usable?
          && exists key :: Unshowable(d.payload.members, key))
  }

  lemma {:induction false} EscapesExactlyWhenItRaises(readInt: IntReader, d: Datagram)
    ensures EffectOf(readInt, d) == Escapes <==> MakesItRaise(readInt, d)
  {
    if d.payload.Object? && IsAnswer(d.payload.members) {
      ShownOrNot(d.payload.members, "");
    }
  }

  lemma {:induction false} ShownOrNot(ms: seq<Member>, endpoint: string)
    ensures Described(ms, endpoint) == Escapes <==> exists key :: Unshowable(ms, key)
  {
    if Described(ms, endpoint) == Escapes {
      assert Unshowable(ms, "hostname") || Unshowable(ms, "board_model") || Unshowable(ms, "soc")
             || Unshowable(ms, "architecture") || Unshowable(ms, "model_name") || Unshowable(ms, "task");
    }
  }

  // ---------------------------------------------------------------------
  // All datagrams
  // ---------------------------------------------------------------------

  predicate AnswersFor(readInt: IntReader, d: Datagram, endpoint: string) {
    EffectOf(readInt, d).Answer? && EffectOf(readInt, d).accelerator.endpoint == endpoint
  }

  /** The accelerators that the datagrams describe under one endpoint, in the order they arrive. */
  function From(readInt: IntReader, ds: seq<Datagram>, endpoint: string): seq<Accelerator> {
    if ds == [] then []
    else
      var earlier, d := From(readInt, ds[..|ds| - 1], endpoint), ds[|ds| - 1];
      if AnswersFor(readInt, d, endpoint) then earlier + [EffectOf(readInt, d).accelerator] else earlier
  }

  function Endpoints(accelerators: seq<Accelerator>): seq<string> {
    seq(|accelerators|, i requires 0 <= i < |accelerators| => accelerators[i].endpoint)
  }

  /** Sorted by endpoint, every endpoint once, and for each endpoint that answered the last thing it said. */
  ghost predicate IsListing(readInt: IntReader, ds: seq<Datagram>, accelerators: seq<Accelerator>) {
    && Ascending(Endpoints(accelerators))
    && (forall e :: e in Endpoints(accelerators) <==> From(readInt, ds, e) != [])
    && (forall i | 0 <= i < |accelerators| ::
          var said := From(readInt, ds, accelerators[i].endpoint);
          said != [] && accelerators[i] == said[|said| - 1])
  }

  ghost predicate SomeRaises(readInt: IntReader, ds: seq<Datagram>) {
    exists i | 0 <= i < |ds| :: MakesItRaise(readInt, ds[i])
  }

  /** What `discover` does with the datagrams. */
  ghost predicate IsOutcome(readInt: IntReader, ds: seq<Datagram>, r: Outcome) {
    match r
    case Raised => SomeRaises(readInt, ds)
    case Listed(accelerators) => !SomeRaises(readInt, ds) && IsListing(readInt, ds, accelerators)
  }

  /** The dictionary holds, under every endpoint that answered, the last thing it said. */
  ghost predicate Holds(readInt: IntReader, ds: seq<Datagram>, found: map<string, Accelerator>) {
    && (forall e :: e in found <==> From(readInt, ds, e) != [])
    && (forall e | e in found :: var said := From(readInt, ds, e); said != [] && found[e] == said[|said| - 1])
  }

  lemma {:induction false} FromNext(readInt: IntReader, ds: seq<Datagram>, n: nat, e: string)
    requires n < |ds|
    ensures From(readInt, ds[..n + 1], e) ==
      From(readInt, ds[..n], e) + (if AnswersFor(readInt, ds[n], e) then [EffectOf(readInt, ds[n]).accelerator] else [])
  {
    assert ds[..n + 1][..n] == ds[..n];
  }

  lemma {:induction false} HoldsNext(readInt: IntReader, ds: seq<Datagram>, n: nat, effect: Effect,
                                     found: map<string, Accelerator>, next: map<string, Accelerator>)
    requires n < |ds| && Holds(readInt, ds[..n], found) && effect == EffectOf(readInt, ds[n])
    requires next == if effect.Answer? then found[effect.accelerator.endpoint := effect.accelerator] else found
    ensures Holds(readInt, ds[..n + 1], next)
  {
    forall e
      ensures e in next <==> From(readInt, ds[..n + 1], e) != []
      ensures e in next ==> var said := From(readInt, ds[..n + 1], e); said != [] && next[e] == said[|said| - 1]
    {
      FromNext(readInt, ds, n, e);
    }
  }

  /** Every described accelerator carries the endpoint it is stored under. */
  lemma {:induction false} FromHasEndpoint(readInt: IntReader, ds: seq<Datagram>, e: string)
    ensures forall a | a in From(readInt, ds, e) :: a.endpoint == e
  {
    if ds != [] {
      FromHasEndpoint(readInt, ds[..|ds| - 1], e);
    }
  }

  /** Collects the answers until the time is over; here the datagrams that arrive until then are given. */
  method Discover(readInt: IntReader, ds: seq<Datagram>) returns (r: Outcome)
    ensures IsOutcome(readInt, ds, r)
  {
    var found: map<string, Accelerator> := map[];
    var n := 0;
    while n < |ds|
      invariant 0 <= n <= |ds|
      invariant forall i | 0 <= i < n :: !MakesItRaise(readInt, ds[i])
      invariant Holds(readInt, ds[..n], found)
    {
      var effect := EffectOf(readInt, ds[n]);
      EscapesExactlyWhenItRaises(readInt, ds[n]);
      if effect.Escapes? {
        return Raised;
      }
      ghost var before := found;
      if effect.Answer? {
        found := found[effect.accelerator.endpoint := effect.accelerator];
      }
      HoldsNext(readInt, ds, n, effect, before, found);
      n := n + 1;
    }
    assert ds[..n] == ds;
    var keys := Sort(found.Keys);
    r := Listed(seq(|keys|, i requires 0 <= i < |keys| && keys[i] in found => found[keys[i]]));
    ListsFound(readInt, ds, found, keys, r.accelerators);
  }

  lemma {:induction false} ListsFound(readInt: IntReader, ds: seq<Datagram>, found: map<string, Accelerator>,
                                      keys: seq<string>, accelerators: seq<Accelerator>)
    requires Holds(readInt, ds, found) && Ascending(keys) && forall k :: k in keys <==> k in found.Keys
    requires |accelerators| == |keys|
    requires forall i | 0 <= i < |keys| :: keys[i] in found && accelerators[i] == found[keys[i]]
    ensures IsListing(readInt, ds, accelerators)
  {
    forall i | 0 <= i < |keys| ensures accelerators[i].endpoint == keys[i] {
      FromHasEndpoint(readInt, ds, keys[i]);
    }
    assert Endpoints(accelerators) == keys;
  }

  // ---------------------------------------------------------------------
  // Single datagrams that make it raise
  // ---------------------------------------------------------------------

  /** A number: valid JSON, but no object. */
  lemma {:induction false} NumberRaises(readInt: IntReader, address: string, r: Outcome)
    requires IsOutcome(readInt, [Datagram(address, NotAnObject)], r)
    ensures r == Raised
  {
    assert MakesItRaise(readInt, [Datagram(address, NotAnObject)][0]);
  }

  /** Thousands of opening brackets. */
  lemma {:induction false} DeepNestingRaises(readInt: IntReader, address: string, r: Outcome)
    requires IsOutcome(readInt, [Datagram(address, TooDeep)], r)
    ensures r == Raised
  {
    assert MakesItRaise(readInt, [Datagram(address, TooDeep)][0]);
  }

  /** An answer whose port is written 1e999. */
  lemma {:induction false} InfinitePortRaises(readInt: IntReader, address: string, r: Outcome)
    requires
      var ms := [Member("service", Text("luckfox-rknn")), Member("grpc_port", Infinite(false))];
      IsOutcome(readInt, [Datagram(address, Object(ms))], r)
    ensures r == Raised
  {
    var ms := [Member("service", Text("luckfox-rknn")), Member("grpc_port", Infinite(false))];
    TwoMembers(ms);
    assert MakesItRaise(readInt, [Datagram(address, Object(ms))][0]);
  }

  /** An answer whose host name can be read but nests too deeply to be shown. */
  lemma {:induction false} DeepHostRaises(readInt: IntReader, address: string, port: int, r: Outcome)
    requires
      var ms := [Member("hostname", Nested(false, None)), Member("service", Text("luckfox-rknn")),
                 Member("grpc_port", Integer(port))];
      IsOutcome(readInt, [Datagram(address, Object(ms))], r)
    ensures r == Raised
  {
    var ms := [Member("hostname", Nested(false, None)), Member("service", Text("luckfox-rknn")),
               Member("grpc_port", Integer(port))];
    TwoMembers(ms);
    assert Unshowable(ms, "hostname") by {
      assert ms[0].key == "hostname" && |ms[1].key| == 7 && |ms[2].key| == 9;
      LookupFinds(ms, 0, "hostname");
    }
    assert MakesItRaise(readInt, [Datagram(address, Object(ms))][0]);
  }

  lemma {:induction false} TwoMembers(ms: seq<Member>)
    requires |ms| >= 2 && ms[|ms| - 2] == Member("service", Text("luckfox-rknn")) && ms[|ms| - 1].key == "grpc_port"
    ensures Lookup(ms, "service") == Some(Text("luckfox-rknn"))
    ensures Lookup(ms, "grpc_port") == Some(ms[|ms| - 1].value)
  {
    assert |ms[|ms| - 1].key| == 9 && |"service"| == 7;
    LookupFinds(ms, |ms| - 2, "service");
    LookupFinds(ms, |ms| - 1, "grpc_port");
  }

  // ---------------------------------------------------------------------
  // What the order of arrival changes
  // ---------------------------------------------------------------------

  /**
    What `discover` does depends only on whether some datagram makes it raise and on what each endpoint
    says, in its own order.
   */
  lemma {:induction false} OutcomeDependsOnEndpointsOnly(readInt: IntReader, ds: seq<Datagram>, es: seq<Datagram>,
                                                         a: Outcome, b: Outcome)
    requires IsOutcome(readInt, ds, a) && IsOutcome(readInt, es, b)
    requires SomeRaises(readInt, ds) <==> SomeRaises(readInt, es)
    requires forall e :: From(readInt, ds, e) == From(readInt, es, e)
    ensures a == b
  {
    if a.Listed? {
      ListingDependsOnEndpointsOnly(readInt, ds, es, a.accelerators, b.accelerators);
    }
  }

  lemma {:induction false} ListingDependsOnEndpointsOnly(readInt: IntReader, ds: seq<Datagram>, es: seq<Datagram>,
                                                         a: seq<Accelerator>, b: seq<Accelerator>)
    requires IsListing(readInt, ds, a) && IsListing(readInt, es, b)
    requires forall e :: From(readInt, ds, e) == From(readInt, es, e)
    ensures a == b
  {
    SortedIsUnique(Endpoints(a), Endpoints(b));
    forall i | 0 <= i < |a| ensures a[i] == b[i] {
      assert a[i].endpoint == Endpoints(a)[i] == Endpoints(b)[i] == b[i].endpoint;
    }
  }

  lemma {:induction false} FromConcat(readInt: IntReader, ds: seq<Datagram>, es: seq<Datagram>, e: string)
    ensures From(readInt, ds + es, e) == From(readInt, ds, e) + From(readInt, es, e)
    decreases |es|
  {
    if es == [] {
      assert ds + es == ds;
    } else {
      assert (ds + es)[..|ds + es| - 1] == ds + es[..|es| - 1];
      FromConcat(readInt, ds, es[..|es| - 1], e);
    }
  }

  lemma {:induction false} FromOne(readInt: IntReader, d: Datagram, e: string)
    ensures From(readInt, [d], e) == if AnswersFor(readInt, d, e) then [EffectOf(readInt, d).accelerator] else []
  {
    assert [d][..0] == [];
  }

  lemma {:induction false} RaisesConcat(readInt: IntReader, ds: seq<Datagram>, es: seq<Datagram>)
    ensures SomeRaises(readInt, ds + es) <==> SomeRaises(readInt, ds) || SomeRaises(readInt, es)
  {
    if SomeRaises(readInt, ds) {
      var i :| 0 <= i < |ds| && MakesItRaise(readInt, ds[i]);
      assert (ds + es)[i] == ds[i];
    }
    if SomeRaises(readInt, es) {
      var i :| 0 <= i < |es| && MakesItRaise(readInt, es[i]);
      assert (ds + es)[|ds| + i] == es[i];
    }
  }

  /** Two neighbours may change places unless both are answers of the same endpoint. */
  lemma {:induction false} NeighboursMayChangePlaces(readInt: IntReader, before: seq<Datagram>, x: Datagram,
        y: Datagram, after: seq<Datagram>, a: Outcome, b: Outcome)
    requires forall e :: !(AnswersFor(readInt, x, e) && AnswersFor(readInt, y, e))
    requires IsOutcome(readInt, before + [x] + [y] + after, a)
    requires IsOutcome(readInt, before + [y] + [x] + after, b)
    ensures a == b
  {
    forall e
      ensures From(readInt, before + [x] + [y] + after, e) == From(readInt, before + [y] + [x] + after, e)
    {
      SwapKeepsFrom(readInt, before, x, y, after, e);
    }
    assert SomeRaises(readInt, before + [x] + [y] + after) <==> SomeRaises(readInt, before + [y] + [x] + after) by {
      RaisesConcat(readInt, before, [x]);
      RaisesConcat(readInt, before, [y]);
      RaisesConcat(readInt, before + [x], [y]);
      RaisesConcat(readInt, before + [y], [x]);
      RaisesConcat(readInt, before + [x] + [y], after);
      RaisesConcat(readInt, before + [y] + [x], after);
    }
    OutcomeDependsOnEndpointsOnly(readInt, before + [x] + [y] + after, before + [y] + [x] + after, a, b);
  }

  lemma {:induction false} SwapKeepsFrom(readInt: IntReader, before: seq<Datagram>, x: Datagram, y: Datagram,
                                         after: seq<Datagram>, e: string)
    requires !(AnswersFor(readInt, x, e) && AnswersFor(readInt, y, e))
    ensures From(readInt, before + [x] + [y] + after, e) == From(readInt, before + [y] + [x] + after, e)
  {
    FromConcat(readInt, before, [x], e);
    FromConcat(readInt, before, [y], e);
    FromConcat(readInt, before + [x], [y], e);
    FromConcat(readInt, before + [y], [x], e);
    FromConcat(readInt, before + [x] + [y], after, e);
    FromConcat(readInt, before + [y] + [x], after, e);
    FromOne(readInt, x, e);
    FromOne(readInt, y, e);
  }

  /** A datagram that is no answer may be left out, if it does not make `discover` raise. */
  lemma {:induction false} OthersAreIgnored(readInt: IntReader, before: seq<Datagram>, x: Datagram,
        after: seq<Datagram>, a: Outcome, b: Outcome)
    requires !EffectOf(readInt, x).Answer? && !MakesItRaise(readInt, x)
    requires IsOutcome(readInt, before + [x] + after, a) && IsOutcome(readInt, before + after, b)
    ensures a == b
  {
    forall e ensures From(readInt, before + [x] + after, e) == From(readInt, before + after, e) {
      FromConcat(readInt, before, [x], e);
      FromConcat(readInt, before + [x], after, e);
      FromConcat(readInt, before, after, e);
      FromOne(readInt, x, e);
    }
    assert SomeRaises(readInt, before + [x] + after) <==> SomeRaises(readInt, before + after) by {
      RaisesConcat(readInt, before, [x]);
      RaisesConcat(readInt, before + [x], after);
      RaisesConcat(readInt, before, after);
    }
    OutcomeDependsOnEndpointsOnly(readInt, before + [x] + after, before + after, a, b);
  }

  /** One that does may not. */
  lemma {:induction false} OneExceptionEndsAll(readInt: IntReader, before: seq<Datagram>, x: Datagram,
        after: seq<Datagram>, a: Outcome)
    requires MakesItRaise(readInt, x) && IsOutcome(readInt, before + [x] + after, a)
    ensures a == Raised
  {
    assert (before + [x] + after)[|before|] == x;
  }
}
