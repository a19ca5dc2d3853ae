/** From the answer an accelerator prints to the record its client keeps. */
module DiscoverEndToEnd {
  import opened DiscoverAnswers
  import opened DiscoverClient
  import opened Wrappers
  import Discovery
  import Json

  function Decoded(value: Json.Value): Value {
    match value
    case Text(text) => Text(text)
    case Number(n) => Integer(n)
    case Truth(b) => Truth(b)
  }

  function DecodedMembers(ms: seq<Json.Member>): seq<Member> {
    seq(|ms|, i requires 0 <= i < |ms| => Member(ms[i].key, Decoded(ms[i].value)))
  }

  /** What the client makes of the datagram with a printed answer. */
  function Received(datagram: string): Payload {
    match Discovery.ClientReads(datagram)
    case None => Garbage
    case Some(ms) => Object(DecodedMembers(ms))
  }

  /** The keys of the answer are pairwise different. */
  lemma {:induction false} KeysDiffer(f: Discovery.Facts, i: nat, j: nat)
    requires i < j < 10
    ensures Discovery.Members(f)[i].key != Discovery.Members(f)[j].key
  {
    var ms := Discovery.Members(f);
    assert |ms[0].key| == 7 && |ms[1].key| == 8 && |ms[2].key| == 11 && |ms[3].key| == 3 && |ms[4].key| == 12;
    assert |ms[5].key| == 9 && |ms[6].key| == 10 && |ms[7].key| == 4 && |ms[8].key| == 4 && |ms[9].key| == 17;
    assert ms[7].key[0] == 't' && ms[8].key[0] == 'b';
  }

  /** What the client reads of the answer. */
  function ReadMembers(f: Discovery.Facts): seq<Member> {
    DecodedMembers(Json.CleanMembers(Discovery.Members(f)))
  }

  function ReadValue(value: Json.Value): Value {
    Decoded(Json.CleanValue(value))
  }

  lemma {:induction false} CleanedMember(f: Discovery.Facts, i: nat)
    requires i < 10
    ensures |Discovery.Members(f)| == 10 && |ReadMembers(f)| == 10
    ensures
      var m := Discovery.Members(f)[i];
      ReadMembers(f)[i] == Member(m.key, ReadValue(m.value))
  {
    Discovery.FieldsOfMembers(f);
    assert Discovery.FieldFor(Discovery.Members(f)[i], Discovery.FieldsOf(f)[i]);
    Discovery.PlainIsKept(Discovery.Members(f)[i].key);
  }

  lemma {:induction false} LookupInAnswer(f: Discovery.Facts, i: nat)
    requires i < 10
    ensures |Discovery.Members(f)| == 10
    ensures
      var m := Discovery.Members(f)[i];
      Lookup(ReadMembers(f), m.key) == Some(ReadValue(m.value))
  {
    var ms := ReadMembers(f);
    CleanedMember(f, i);
    forall j | i < j < |ms| ensures ms[j].key != ms[i].key {
      CleanedMember(f, j);
      KeysDiffer(f, i, j);
    }
    LookupFinds(ms, i, ms[i].key);
  }

  /** What the client keeps of an answer it can read. */
  function Entry(f: Discovery.Facts, address: string): Accelerator {
    Accelerator(Endpoint(address, f.grpcPort), Json.Clean(f.hostname), "Luckfox Pico", "Rockchip RV1106/RV1103",
                Json.Clean(f.architecture), Json.Clean(f.modelName), Json.Clean(f.task), f.busy, true)
  }

  /**
    From the accelerator's facts to the client's record: an answer that fits and is UTF-8 arrives, no other does.
    The record has the address with the port, the texts cleaned, and never the client's own defaults.
   */
  lemma {:induction false} AnswerBecomesEntry(readInt: IntReader, f: Discovery.Facts, address: string)
    ensures
      var effect := EffectOf(readInt, Datagram(address, Received(Discovery.Sent(f))));
      if |Discovery.Answer(f)| < Discovery.RESPONSE_SIZE && Discovery.Decodable(f) then
        && effect.Answer?
        && IsEndpoint(effect.accelerator.endpoint, address, f.grpcPort)
        && effect.accelerator.hostname == Json.Clean(f.hostname)
        && effect.accelerator.boardModel == "Luckfox Pico"
        && effect.accelerator.soc == "Rockchip RV1106/RV1103"
        && effect.accelerator.architecture == Json.Clean(f.architecture)
        && effect.accelerator.modelName == Json.Clean(f.modelName)
        && effect.accelerator.task == Json.Clean(f.task)
        && effect.accelerator.busy == f.busy
        && effect.accelerator.passwordRequired
      else effect == Ignored
  {
    Discovery.ReadsAllOrNothing(f);
    if |Discovery.Answer(f)| < Discovery.RESPONSE_SIZE && Discovery.Decodable(f) {
      AnswerReads(f);
      EntryOfMembers(readInt, ReadMembers(f), f, address);
      EndpointMeans(Endpoint(address, f.grpcPort), address, f.grpcPort);
    }
  }

  /** Every member of the answer is found under its key, cleaned. */
  ghost predicate Reads(ms: seq<Member>, f: Discovery.Facts) {
    && |Discovery.Members(f)| == 10
    && forall i | 0 <= i < 10 ::
         Lookup(ms, Discovery.Members(f)[i].key) == Some(ReadValue(Discovery.Members(f)[i].value))
  }

  lemma {:induction false} AnswerReads(f: Discovery.Facts)
    ensures Reads(ReadMembers(f), f)
  {
    assert |Discovery.Members(f)| == 10;
    forall i | 0 <= i < 10
      ensures
        var m := Discovery.Members(f)[i];
        Lookup(ReadMembers(f), m.key) == Some(ReadValue(m.value))
    {
      LookupInAnswer(f, i);
    }
  }

  lemma {:induction false} ReadAt(ms: seq<Member>, f: Discovery.Facts, i: nat, key: string, value: Json.Value)
    requires Reads(ms, f) && i < 10 && Discovery.Members(f)[i] == Json.Member(key, value)
    ensures Lookup(ms, key) == Some(ReadValue(value))
  {
  }

  lemma {:induction false} PlainReadAt(ms: seq<Member>, f: Discovery.Facts, i: nat, key: string, text: string)
    requires Reads(ms, f) && i < 10 && Discovery.Members(f)[i] == Json.Member(key, Json.Text(text))
    requires Discovery.Plain(text)
    ensures Lookup(ms, key) == Some(Text(text))
  {
    Discovery.PlainIsKept(text);
  }

  lemma {:induction false} ServiceLookup(ms: seq<Member>, f: Discovery.Facts)
    requires Reads(ms, f)
    ensures Lookup(ms, "service") == Some(Text("luckfox-rknn"))
  {
    Discovery.FixedTextsArePlain();
    PlainReadAt(ms, f, 0, "service", "luckfox-rknn");
  }

  lemma {:induction false} BoardLookup(ms: seq<Member>, f: Discovery.Facts)
    requires Reads(ms, f)
    ensures Lookup(ms, "board_model") == Some(Text("Luckfox Pico"))
  {
    Discovery.FixedTextsArePlain();
    PlainReadAt(ms, f, 2, "board_model", "Luckfox Pico");
  }

  lemma {:induction false} SocLookup(ms: seq<Member>, f: Discovery.Facts)
    requires Reads(ms, f)
    ensures Lookup(ms, "soc") == Some(Text("Rockchip RV1106/RV1103"))
  {
    Discovery.FixedTextsArePlain();
    PlainReadAt(ms, f, 3, "soc", "Rockchip RV1106/RV1103");
  }

  lemma {:induction false} FilledLookups(ms: seq<Member>, f: Discovery.Facts)
    requires Reads(ms, f)
    ensures Lookup(ms, "hostname") == Some(Text(Json.Clean(f.hostname)))
    ensures Lookup(ms, "architecture") == Some(Text(Json.Clean(f.architecture)))
    ensures Lookup(ms, "model_name") == Some(Text(Json.Clean(f.modelName)))
    ensures Lookup(ms, "task") == Some(Text(Json.Clean(f.task)))
  {
    ReadAt(ms, f, 1, "hostname", Json.Text(f.hostname));
    ReadAt(ms, f, 4, "architecture", Json.Text(f.architecture));
    ReadAt(ms, f, 6, "model_name", Json.Text(f.modelName));
    ReadAt(ms, f, 7, "task", Json.Text(f.task));
  }

  lemma {:induction false} OtherLookups(ms: seq<Member>, f: Discovery.Facts)
    requires Reads(ms, f)
    ensures Lookup(ms, "grpc_port") == Some(Integer(f.grpcPort))
    ensures Lookup(ms, "busy") == Some(Truth(f.busy))
    ensures Lookup(ms, "password_required") == Some(Truth(true))
  {
    ReadAt(ms, f, 5, "grpc_port", Json.Number(f.grpcPort));
    ReadAt(ms, f, 8, "busy", Json.Truth(f.busy));
    ReadAt(ms, f, 9, "password_required", Json.Truth(true));
  }

  lemma {:induction false} EntryOfMembers(readInt: IntReader, ms: seq<Member>, f: Discovery.Facts, address: string)
    requires Reads(ms, f)
    ensures EffectOf(readInt, Datagram(address, Object(ms))) == Answer(Entry(f, address))
  {
    ServiceLookup(ms, f);
    BoardLookup(ms, f);
    SocLookup(ms, f);
    FilledLookups(ms, f);
    OtherLookups(ms, f);
    EntryOfLookups(readInt, ms, f, address);
  }

  lemma {:induction false} EntryOfLookups(readInt: IntReader, ms: seq<Member>, f: Discovery.Facts, address: string)
    requires Lookup(ms, "service") == Some(Text("luckfox-rknn"))
    requires Lookup(ms, "board_model") == Some(Text("Luckfox Pico"))
    requires Lookup(ms, "soc") == Some(Text("Rockchip RV1106/RV1103"))
    requires Lookup(ms, "hostname") == Some(Text(Json.Clean(f.hostname)))
    requires Lookup(ms, "architecture") == Some(Text(Json.Clean(f.architecture)))
    requires Lookup(ms, "model_name") == Some(Text(Json.Clean(f.modelName)))
    requires Lookup(ms, "task") == Some(Text(Json.Clean(f.task)))
    requires Lookup(ms, "grpc_port") == Some(Integer(f.grpcPort))
    requires Lookup(ms, "busy") == Some(Truth(f.busy))
    requires Lookup(ms, "password_required") == Some(Truth(true))
    ensures EffectOf(readInt, Datagram(address, Object(ms))) == Answer(Entry(f, address))
  {
  }
}
