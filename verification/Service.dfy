/**
  The request handlers of the server: they check and renew the session, run the engine, and
  turn its codes into gRPC statuses. What the engine answered is a parameter here.
 */
module Service {
  import opened CStrings
  import opened SessionStore
  import opened Detections
  import Npu
  import NpuTheorems
  import Leases

  const MODEL_NAME := "yolov5"
  const SESSION_ID_SIZE: nat := 65
  const SESSION_MODEL_SIZE: nat := 64

  datatype Status =
    | Ok
    | NotFound
    | FailedPrecondition
    | InvalidArgument
    | ResourceExhausted
    | Unauthenticated
    | Internal

  datatype Encoding = Unspecified | Jpeg | Png

  datatype InferRequest = InferRequest(sessionId: string, requestId: string, image: seq<nat>,
                                       encoding: Encoding, options: Options)

  datatype InferResponse = InferResponse(requestId: string, cols: nat, rows: nat,
                                         detections: seq<Numbered>, timing: Npu.Timing)

  // ---------------------------------------------------------------------
  // One request
  // ---------------------------------------------------------------------

  function ValidationStatus(reply: Reply): Status {
    if !reply.Valid? then NotFound
    else if reply.modelName != MODEL_NAME then FailedPrecondition
    else Ok
  }

  function EngineStatus(reply: Npu.Reply): Status {
    match reply
    case Undecodable => InvalidArgument
    case Done(outcome, _) => if outcome.Detected? then Ok else Internal
    case _ => Internal
  }

  function RequestStatus(request: InferRequest, maxImageBytes: nat): Status {
    if request.image == [] then InvalidArgument
    else if |request.image| > maxImageBytes then ResourceExhausted
    else if request.encoding == Unspecified then InvalidArgument
    else Ok
  }

  /** Session first, then the request itself, then the engine. */
  function InferStatus(session: Reply, request: InferRequest, maxImageBytes: nat, reply: Npu.Reply): Status {
    if ValidationStatus(session) != Ok then ValidationStatus(session)
    else if RequestStatus(request, maxImageBytes) != Ok then RequestStatus(request, maxImageBytes)
    else EngineStatus(reply)
  }

  ghost predicate Answers(request: InferRequest, reply: Npu.Reply, response: InferResponse) {
    && reply.Done? && reply.outcome.Detected?
    && response.requestId == request.requestId
    && response.cols == reply.outcome.cols && response.rows == reply.outcome.rows
    && |response.detections| == |reply.outcome.detections|
    && (forall k | 0 <= k < |response.detections| ::
          response.detections[k] == Numbered(k + 1, reply.outcome.detections[k]))
    && response.timing == reply.timing
  }

  const NO_RESPONSE := InferResponse("", 0, 0, [], Npu.Timing(0, 0, 0, 0))

  lemma {:induction false} ShortNamesSurviveTheBuffer(name: string)
    ensures Printed(name, SESSION_MODEL_SIZE) == MODEL_NAME <==> name == MODEL_NAME
  {
    if |name| >= SESSION_MODEL_SIZE {
      assert |Printed(name, SESSION_MODEL_SIZE)| == 63;
    }
  }

  function ValidateCall(request: InferRequest, first: Instant, second: Instant): Timed {
    Timed(Call.Validate(CString(request.sessionId)), first, second)
  }

  method ValidateSession(store: Store, sessionId: string, first: Instant, second: Instant) returns (status: Status)
    requires store.Valid()
    modifies store
    ensures store.Valid()
    ensures
      var c := Timed(Call.Validate(CString(sessionId)), first, second);
      var (reply, next) := Step(store.setup, old(store.Contents()), c);
      && store.Contents() == next && status == ValidationStatus(reply)
      && (status == Ok <==> reply == Valid("yolov5"))
      && (status == NotFound <==> !reply.Valid?)
      && (status == FailedPrecondition <==> reply.Valid? && reply.modelName != "yolov5")
  {
    var code, modelName := store.Validate(CString(sessionId), SESSION_MODEL_SIZE, first, second);
    if code != 0 {
      return NotFound;
    }
    ghost var c := Timed(Call.Validate(CString(sessionId)), first, second);
    ghost var reply := Step(store.setup, old(store.Contents()), c).0;
    ShortNamesSurviveTheBuffer(reply.modelName);
    if modelName != MODEL_NAME {
      return FailedPrecondition;
    }
    return Ok;
  }

  /** The session is renewed by the validation, even when the request is then rejected. */
  method RunInference(store: Store, maxImageBytes: nat, request: InferRequest, reply: Npu.Reply,
                      first: Instant, second: Instant)
    returns (status: Status, response: InferResponse)
    requires store.Valid()
    modifies store
    ensures store.Valid()
    ensures
      var (session, next) := Step(store.setup, old(store.Contents()), ValidateCall(request, first, second));
      && store.Contents() == next
      && status == InferStatus(session, request, maxImageBytes, reply)
      && (status == Ok ==> Answers(request, reply, response))
    ensures
      var session := Step(store.setup, old(store.Contents()), ValidateCall(request, first, second)).0;
      var sized := request.image != [] && |request.image| <= maxImageBytes;
      var encoded := request.encoding == Jpeg || request.encoding == Png;
      && (status == Ok <==>
            session == Valid("yolov5") && sized && encoded && reply.Done? && reply.outcome.Detected?)
      && (status == NotFound <==> !session.Valid?)
      && (status == FailedPrecondition <==> session.Valid? && session.modelName != "yolov5")
      && (session == Valid("yolov5") ==>
            && (request.image == [] ==> status == InvalidArgument)
            && (|request.image| > maxImageBytes && request.image != [] ==> status == ResourceExhausted)
            && (sized && !encoded ==> status == InvalidArgument)
            && (sized && encoded && reply == Npu.Undecodable ==> status == InvalidArgument)
            && (sized && encoded && reply != Npu.Undecodable && !(reply.Done? && reply.outcome.Detected?) ==>
                  status == Internal))
  {
    response := NO_RESPONSE;
    status := ValidateSession(store, request.sessionId, first, second);
    if status != Ok {
      return;
    }
    if request.image == [] {
      return InvalidArgument, response;
    }
    if |request.image| > maxImageBytes {
      return ResourceExhausted, response;
    }
    if request.encoding != Jpeg && request.encoding != Png {
      return InvalidArgument, response;
    }
    if reply == Npu.Undecodable {
      return InvalidArgument, response;
    }
    if !reply.Done? || !reply.outcome.Detected? {
      return Internal, response;
    }
    var numbered := NumberDetections(reply.outcome.detections);
    response := InferResponse(request.requestId, reply.outcome.cols, reply.outcome.rows, numbered, reply.timing);
    return Ok, response;
  }

  method OpenSession(store: Store, modelName: string, password: string, expected: string,
                     first: Instant, second: Instant)
    returns (status: Status, sessionId: string)
    requires store.Valid()
    modifies store
    ensures store.Valid()
    ensures modelName != "yolov5" ==> status == NotFound && store.Contents() == old(store.Contents())
    ensures modelName == "yolov5" && password != expected ==>
      status == Unauthenticated && store.Contents() == old(store.Contents())
    ensures modelName == "yolov5" && password == expected ==>
      var (reply, next) := Step(store.setup, old(store.Contents()), Timed(Call.Open(MODEL_NAME), first, second));
      && store.Contents() == next
      && (if reply == Full then status == ResourceExhausted else status == Ok && reply == Opened(sessionId))
    ensures modelName == "yolov5" && password == expected ==>
      var live := Pruned(store.setup.config, old(store.sessions), first);
      if |live| < store.setup.config.maxSessions then
        status == Ok && sessionId !in live && store.sessions == live[sessionId := Entry("yolov5", second)]
      else status == ResourceExhausted && store.sessions == live
  {
    if modelName != MODEL_NAME {
      return NotFound, "";
    }
    if password != expected {
      return Unauthenticated, "";
    }
    var code, id := store.Open(modelName, SESSION_ID_SIZE, first, second);
    if code == -2 {
      return ResourceExhausted, "";
    }
    if code != 0 {
      return Internal, "";
    }
    return Ok, id;
  }

  method CloseSession(store: Store, sessionId: string, ghost first: Instant, ghost second: Instant)
    returns (closed: bool)
    requires store.Valid()
    modifies store
    ensures store.Valid()
    ensures
      var c := Timed(Call.Close(CString(sessionId)), first, second);
      var (reply, next) := Step(store.setup, old(store.Contents()), c);
      && store.Contents() == next && (closed <==> reply == Closed)
      && (closed <==> CString(sessionId) in old(store.sessions))
      && store.sessions == old(store.sessions) - {CString(sessionId)}
  {
    var code := store.Close(CString(sessionId), first, second);
    closed := code == 0;
  }

  /** Sessions only ever name the one model the server has. */
  ghost predicate OneModel(s: State) {
    forall id | id in s.sessions :: s.sessions[id].modelName == MODEL_NAME
  }

  lemma {:induction false} OneModelKept(setup: Setup, s: State, c: Timed)
    requires setup.Ok() && OneModel(s) && (c.call.Open? ==> c.call.modelName == MODEL_NAME)
    ensures OneModel(Step(setup, s, c).1)
    ensures c.call.Validate? ==> ValidationStatus(Step(setup, s, c).0) != FailedPrecondition
  {
    match c.call
    case Open(_) =>
    case Validate(_) =>
    case Close(_) =>
    case Count =>
  }

  // ---------------------------------------------------------------------
  // A stream of requests
  // ---------------------------------------------------------------------

  /**
    One message of a stream: the calls other clients make before it is read, the request, what the
    engine answers it, the clock readings, and whether writing the response succeeds.
   */
  datatype Message = Message(others: seq<Timed>, request: InferRequest, reply: Npu.Reply,
                             first: Instant, second: Instant, written: bool)

  ghost function After(setup: Setup, s: State, cs: seq<Timed>): State
    requires setup.Ok()
    decreases |cs|
  {
    if cs == [] then s else After(setup, Step(setup, s, cs[0]).1, cs[1..])
  }

  /** The calls a message makes on the store. */
  function CallsOf(m: Message): seq<Timed> {
    m.others + [ValidateCall(m.request, m.first, m.second)]
  }

  /** The calls of messages `0..n`, in order. */
  function AllCalls(messages: seq<Message>, n: nat): seq<Timed>
    requires n <= |messages|
  {
    if n == 0 then [] else AllCalls(messages, n - 1) + CallsOf(messages[n - 1])
  }

  /** What the validation of message `n` finds, when all earlier messages were handled. */
  ghost function SessionReply(setup: Setup, s: State, messages: seq<Message>, n: nat): Reply
    requires setup.Ok() && n < |messages|
  {
    var before := After(setup, s, AllCalls(messages, n) + messages[n].others);
    Step(setup, before, ValidateCall(messages[n].request, messages[n].first, messages[n].second)).0
  }

  ghost function StatusOf(setup: Setup, s: State, maxImageBytes: nat, messages: seq<Message>, n: nat): Status
    requires setup.Ok() && n < |messages|
  {
    InferStatus(SessionReply(setup, s, messages, n), messages[n].request, maxImageBytes, messages[n].reply)
  }

  lemma {:induction false} AfterConcat(setup: Setup, s: State, a: seq<Timed>, b: seq<Timed>)
    requires setup.Ok()
    ensures After(setup, s, a + b) == After(setup, After(setup, s, a), b)
    decreases |a|
  {
    if a == [] {
      assert a + b == b;
    } else {
      var next := Step(setup, s, a[0]).1;
      AfterFirst(setup, s, a, next);
      assert (a + b)[1..] == a[1..] + b;
      AfterFirst(setup, s, a + b, next);
      AfterConcat(setup, next, a[1..], b);
    }
  }

  lemma {:induction false} AfterFirst(setup: Setup, s: State, cs: seq<Timed>, next: State)
    requires setup.Ok() && cs != [] && next == Step(setup, s, cs[0]).1
    ensures After(setup, s, cs) == After(setup, next, cs[1..])
  {
  }

  lemma {:induction false} AfterOne(setup: Setup, s: State, c: Timed)
    requires setup.Ok()
    ensures After(setup, s, [c]) == Step(setup, s, c).1
  {
    assert [c][1..] == [];
  }

  /** Other clients' calls reach the store in between. */
  method Interfere(store: Store, cs: seq<Timed>)
    requires store.Valid()
    modifies store
    ensures store.Valid()
    ensures store.Contents() == After(store.setup, old(store.Contents()), cs)
  {
    var i := 0;
    while i < |cs|
      invariant 0 <= i <= |cs|
      invariant store.Valid()
      invariant After(store.setup, store.Contents(), cs[i..]) == After(store.setup, old(store.Contents()), cs)
    {
      var c := cs[i];
      assert cs[i..][1..] == cs[i + 1..];
      match c.call {
        case Open(modelName) =>
          var code, id := store.Open(modelName, SESSION_ID_SIZE, c.first, c.second);
        case Validate(id) =>
          var code, name := store.Validate(id, SESSION_MODEL_SIZE, c.first, c.second);
        case Close(id) =>
          var code := store.Close(id, c.first, c.second);
        case Count =>
          var n := store.Count(c.first, c.second);
      }
      i := i + 1;
    }
  }

  /** Reads message `i` and answers it. */
  method HandleMessage(store: Store, maxImageBytes: nat, messages: seq<Message>, i: nat, ghost start: State)
    returns (status: Status, response: InferResponse)
    requires store.Valid() && i < |messages|
    requires store.Contents() == After(store.setup, start, AllCalls(messages, i))
    modifies store
    ensures store.Valid()
    ensures store.Contents() == After(store.setup, start, AllCalls(messages, i + 1))
    ensures status == StatusOf(store.setup, start, maxImageBytes, messages, i)
    ensures status == Ok ==> Answers(messages[i].request, messages[i].reply, response)
  {
    var m := messages[i];
    HandledSoFar(store.setup, start, messages, i);
    Interfere(store, m.others);
    status, response := RunInference(store, maxImageBytes, m.request, m.reply, m.first, m.second);
  }

  /** The responses answer the first messages, each of which succeeds and is written, in order and with its own id. */
  ghost predicate AnswersFirst(setup: Setup, s: State, maxImageBytes: nat, messages: seq<Message>,
                               responses: seq<InferResponse>)
    requires setup.Ok()
  {
    && |responses| <= |messages|
    && forall k | 0 <= k < |responses| :: AnsweredAt(setup, s, maxImageBytes, messages, k, responses[k])
  }

  ghost predicate AnsweredAt(setup: Setup, s: State, maxImageBytes: nat, messages: seq<Message>, k: nat,
                             response: InferResponse)
    requires setup.Ok() && k < |messages|
  {
    && StatusOf(setup, s, maxImageBytes, messages, k) == Ok
    && messages[k].written
    && Answers(messages[k].request, messages[k].reply, response)
  }

  lemma {:induction false} OneMoreAnswer(setup: Setup, s: State, maxImageBytes: nat, messages: seq<Message>,
                                         responses: seq<InferResponse>, response: InferResponse)
    requires setup.Ok() && AnswersFirst(setup, s, maxImageBytes, messages, responses)
    requires |responses| < |messages|
    requires AnsweredAt(setup, s, maxImageBytes, messages, |responses|, response)
    ensures AnswersFirst(setup, s, maxImageBytes, messages, responses + [response])
  {
  }

  /**
    The responses answer the longest prefix of messages that succeed, up to the first response that
    cannot be written; the first failure ends the stream with its status.
   */
  method StreamInfer(store: Store, maxImageBytes: nat, messages: seq<Message>)
    returns (status: Status, responses: seq<InferResponse>)
    requires store.Valid()
    modifies store
    ensures store.Valid()
    ensures AnswersFirst(store.setup, old(store.Contents()), maxImageBytes, messages, responses)
    ensures |responses| < |messages| ==>
      var k := |responses|;
      && status == StatusOf(store.setup, old(store.Contents()), maxImageBytes, messages, k)
      && (status == Ok ==> !messages[k].written)
    ensures |responses| == |messages| ==> status == Ok
    ensures
      var handled := if |responses| < |messages| then |responses| + 1 else |responses|;
      store.Contents() == After(store.setup, old(store.Contents()), AllCalls(messages, handled))
  {
    ghost var start := store.Contents();
    status := Ok;
    responses := [];
    var i := 0;
    while i < |messages|
      invariant 0 <= i == |responses| <= |messages|
      invariant store.Valid() && status == Ok
      invariant store.Contents() == After(store.setup, start, AllCalls(messages, i))
      invariant AnswersFirst(store.setup, start, maxImageBytes, messages, responses)
    {
      var response;
      status, response := HandleMessage(store, maxImageBytes, messages, i, start);
      if status != Ok {
        return;
      }
      if !messages[i].written {
        break;
      }
      OneMoreAnswer(store.setup, start, maxImageBytes, messages, responses, response);
      responses := responses + [response];
      i := i + 1;
    }
  }

  lemma {:induction false} HandledSoFar(setup: Setup, s: State, messages: seq<Message>, n: nat)
    requires setup.Ok() && n < |messages|
    ensures
      var m := messages[n];
      var between := After(setup, After(setup, s, AllCalls(messages, n)), m.others);
      var (reply, next) := Step(setup, between, ValidateCall(m.request, m.first, m.second));
      && SessionReply(setup, s, messages, n) == reply
      && After(setup, s, AllCalls(messages, n + 1)) == next
  {
    var m := messages[n];
    var calls, call := AllCalls(messages, n), ValidateCall(m.request, m.first, m.second);
    AfterConcat(setup, s, calls, m.others);
    assert AllCalls(messages, n + 1) == (calls + m.others) + [call];
    AfterConcat(setup, s, calls + m.others, [call]);
    AfterOne(setup, After(setup, s, calls + m.others), call);
  }

  // ---------------------------------------------------------------------
  // A stream keeps its session
  // ---------------------------------------------------------------------

  lemma {:induction false} RunAfter(setup: Setup, r: Leases.Run, n: nat)
    requires setup.Ok() && Leases.Legal(Leases.Lazy, setup, r) && n <= |r.calls|
    ensures After(setup, r.states[0], r.calls[..n]) == r.states[n]
  {
    if n == 0 {
    } else {
      RunAfter(setup, r, n - 1);
      assert r.calls[..n] == r.calls[..n - 1] + [r.calls[n - 1]];
      AfterConcat(setup, r.states[0], r.calls[..n - 1], [r.calls[n - 1]]);
      AfterOne(setup, r.states[n - 1], r.calls[n - 1]);
      Leases.StepOf(Leases.Lazy, setup, r, n - 1);
    }
  }

  /** In a run of all calls up to and with the validation of message `n`, that validation is the last call. */
  lemma {:induction false} MessageInRun(setup: Setup, r: Leases.Run, messages: seq<Message>, n: nat)
    requires setup.Ok() && Leases.Legal(Leases.Lazy, setup, r) && n < |messages|
    requires r.calls == AllCalls(messages, n + 1)
    ensures r.calls != []
    ensures
      var at := |r.calls| - 1;
      && r.calls[at] == ValidateCall(messages[n].request, messages[n].first, messages[n].second)
      && r.replies[at] == SessionReply(setup, r.states[0], messages, n)
  {
    var before := AllCalls(messages, n) + messages[n].others;
    assert r.calls == before + [ValidateCall(messages[n].request, messages[n].first, messages[n].second)];
    assert r.calls[..|before|] == before;
    RunAfter(setup, r, |before|);
    Leases.StepOf(Leases.Lazy, setup, r, |before|);
  }

  lemma {:induction false} ValidSessionIsFound(session: Reply, request: InferRequest, maxImageBytes: nat,
        reply: Npu.Reply)
    requires session.Valid?
    ensures InferStatus(session, request, maxImageBytes, reply) != NotFound
  {
  }

  /**
    If every validation up to that of message `n` comes before a full timeout after the session was last
    stamped, and nobody closes it, message `n` is not refused for its session, whatever other clients do
    and whatever becomes of the requests themselves.
   */
  lemma {:induction false} StreamNeverLosesItsSession(setup: Setup, r: Leases.Run, from: Instant,
        messages: seq<Message>, maxImageBytes: nat, id: string, n: nat)
    requires n < |messages| && CString(messages[n].request.sessionId) == id
    requires Leases.RunFrom(setup, r, from) && r.calls == AllCalls(messages, n + 1)
    requires id in r.states[0].sessions
    requires Leases.KeptAlive(setup, r.calls, id, r.states[0].sessions[id].lastAccess, |r.calls|)
    ensures StatusOf(setup, r.states[0], maxImageBytes, messages, n) != NotFound
  {
    var session := SessionReply(setup, r.states[0], messages, n);
    assert session.Valid? by {
      MessageInRun(setup, r, messages, n);
      Leases.RenewalKeepsSession(setup, r, from, id, |r.calls| - 1);
    }
    ValidSessionIsFound(session, messages[n].request, maxImageBytes, messages[n].reply);
  }

  ghost predicate OpensOneModel(cs: seq<Timed>) {
    forall j | 0 <= j < |cs| && cs[j].call.Open? :: cs[j].call.modelName == MODEL_NAME
  }

  /** When all opens name the one model, as OpenSession's do, so do all sessions of every state. */
  lemma {:induction false} RunKeepsOneModel(setup: Setup, r: Leases.Run, n: nat)
    requires setup.Ok() && Leases.Legal(Leases.Lazy, setup, r) && n <= |r.calls|
    requires OneModel(r.states[0]) && OpensOneModel(r.calls)
    ensures OneModel(r.states[n])
  {
    if n == 0 {
    } else {
      RunKeepsOneModel(setup, r, n - 1);
      Leases.StepOf(Leases.Lazy, setup, r, n - 1);
      OneModelKept(setup, r.states[n - 1], r.calls[n - 1]);
    }
  }

  /** Then a message fails only for its own request or because of the engine: its session never stands in the way. */
  lemma {:induction false} StreamStatusIsTheRequestsOwn(setup: Setup, r: Leases.Run, from: Instant,
        messages: seq<Message>, maxImageBytes: nat, id: string, n: nat)
    requires n < |messages| && CString(messages[n].request.sessionId) == id
    requires Leases.RunFrom(setup, r, from) && r.calls == AllCalls(messages, n + 1)
    requires id in r.states[0].sessions
    requires Leases.KeptAlive(setup, r.calls, id, r.states[0].sessions[id].lastAccess, |r.calls|)
    requires OneModel(r.states[0]) && OpensOneModel(r.calls)
    ensures
      var (request, reply) := (messages[n].request, messages[n].reply);
      var status := StatusOf(setup, r.states[0], maxImageBytes, messages, n);
      var encoded := request.encoding == Jpeg || request.encoding == Png;
      if request.image == [] then status == InvalidArgument
      else if |request.image| > maxImageBytes then status == ResourceExhausted
      else if !encoded || reply == Npu.Undecodable then status == InvalidArgument
      else status == if reply.Done? && reply.outcome.Detected? then Ok else Internal
  {
    StreamNeverLosesItsSession(setup, r, from, messages, maxImageBytes, id, n);
    MessageInRun(setup, r, messages, n);
    var at := |r.calls| - 1;
    RunKeepsOneModel(setup, r, at);
    Leases.StepOf(Leases.Lazy, setup, r, at);
    OneModelKept(setup, r.states[at], r.calls[at]);
  }

  // ---------------------------------------------------------------------
  // The service on the engine
  // ---------------------------------------------------------------------

  function EngineRequest(request: InferRequest): Npu.Request {
    Npu.Request(request.image, request.options)
  }

  /** Thread `t` of the engine has returned this reply to this request, among any other threads. */
  ghost predicate RepliedBy(dev: Npu.Device, run: Npu.Run, i: nat, t: nat, request: InferRequest, reply: Npu.Reply)
    requires Npu.Legal(dev, run)
  {
    && i <= |run.events|
    && t in run.states[i].threads && run.states[i].threads[t].pc.Returned?
    && run.states[i].threads[t].request == EngineRequest(request)
    && run.states[i].threads[t].reply == reply
  }

  /** The response has the request's id and numbers, from one, what the model finds in the request's own image. */
  ghost predicate HoldsOwnResult(dev: Npu.Device, request: InferRequest, response: InferResponse) {
    exists found: seq<Detection> ::
      && Npu.IsOwnResult(dev, EngineRequest(request), Npu.Detected(response.cols, response.rows, found))
      && response.requestId == request.requestId
      && |response.detections| == |found|
      && forall k | 0 <= k < |found| :: response.detections[k] == Numbered(k + 1, found[k])
  }

  /**
    From the request to the response: whatever other requests share the NPU's memory, a response carries
    the results of its own image under its own id, and times that add up.
   */
  lemma {:induction false} ResponsesCarryTheirOwnResults(dev: Npu.Device, run: Npu.Run, i: nat, t: nat,
        request: InferRequest, reply: Npu.Reply, response: InferResponse)
    requires Npu.Legal(dev, run) && RepliedBy(dev, run, i, t, request, reply) && Answers(request, reply, response)
    ensures HoldsOwnResult(dev, request, response)
    ensures response.timing.decodeUs + response.timing.queueUs + response.timing.inferenceUs <= response.timing.totalUs
  {
    NpuTheorems.CompletedRequestsGetTheirOwnResult(dev, run, i, t);
    NpuTheorems.ReportedTimesAddUp(dev, run, i, t);
    var found := reply.outcome.detections;
    assert reply.outcome == Npu.Detected(response.cols, response.rows, found);
  }

  /** The engine's part of the status: undecodable images, and only they, are the client's fault. */
  lemma {:induction false} OwnImageDecidesTheStatus(dev: Npu.Device, run: Npu.Run, i: nat, t: nat,
                                                    request: InferRequest, reply: Npu.Reply)
    requires Npu.Legal(dev, run) && RepliedBy(dev, run, i, t, request, reply) && request.image != []
    ensures EngineStatus(reply) == InvalidArgument <==> dev.decode(request.image).Empty()
  {
    NpuTheorems.RefusalsAreExact(dev, run, i, t);
  }

  /** All responses of a stream: the one to message `k` carries the results of image `k`. */
  lemma {:induction false} StreamCarriesOwnResults(setup: Setup, s: State, maxImageBytes: nat, messages: seq<Message>,
                                                   responses: seq<InferResponse>, dev: Npu.Device, run: Npu.Run)
    requires setup.Ok() && AnswersFirst(setup, s, maxImageBytes, messages, responses)
    requires Npu.Legal(dev, run)
    requires forall k | 0 <= k < |responses| ::
      exists i, t :: RepliedBy(dev, run, i, t, messages[k].request, messages[k].reply)
    ensures forall k | 0 <= k < |responses| :: HoldsOwnResult(dev, messages[k].request, responses[k])
  {
    forall k | 0 <= k < |responses| ensures HoldsOwnResult(dev, messages[k].request, responses[k]) {
      assert AnsweredAt(setup, s, maxImageBytes, messages, k, responses[k]);
      var i, t :| RepliedBy(dev, run, i, t, messages[k].request, messages[k].reply);
      ResponsesCarryTheirOwnResults(dev, run, i, t, messages[k].request, messages[k].reply, responses[k]);
    }
  }
}
