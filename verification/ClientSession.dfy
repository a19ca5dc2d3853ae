/**
  The client's side of a lease: it opens a session when it connects and closes it when it leaves.
  Every remote call may get lost on the way there or on the way back.
 */
module ClientSession {
  import opened CStrings
  import opened SessionIds
  import opened SessionStore
  import opened Wrappers
  import Leases
  import Service

  /** What becomes of a remote call; when its reply is lost the server has carried it out all the same. */
  datatype Fate = Lost | ReplyLost | Answered

  /** The remote calls of one connection attempt, and whether the channel gets ready and the server says it serves. */
  datatype Rpcs = Rpcs(close: Fate, ready: bool, info: Fate, health: Fate, serving: bool, open: Fate)

  /** The server's two clock readings for a call. */
  datatype Readings = Readings(first: Instant, second: Instant)

  datatype Result = Connected(sessionId: string) | BadEndpoint | TimedOut | NotServing | RpcFailed

  // ---------------------------------------------------------------------
  // What a connection attempt finds at the server
  // ---------------------------------------------------------------------

  /** The table when OpenSession looks for room: pruned by Health and by the open itself. */
  ghost function TableAtOpen(config: Config, t: Table, health: Instant, open: Instant): Table {
    Pruned(config, Pruned(config, t, health), open)
  }

  /** Everything but room at the server: all calls of a connection attempt are answered and the request is right. */
  predicate AllAnswered(target: string, modelName: string, password: string, expected: string, rpcs: Rpcs) {
    && target != "" && ':' in target && rpcs.ready && rpcs.info == Answered
    && rpcs.health == Answered && rpcs.serving && rpcs.open == Answered
    && modelName == Service.MODEL_NAME && password == expected
  }

  /** With a limit of one, a session left behind takes the room exactly until the idle timeout has passed. */
  lemma {:induction false} OwnSessionTakesTheRoom(setup: Setup, t: Table, id: string, health: Instant, open: Instant)
    requires setup.Ok() && setup.config.maxSessions == 1 && |t| <= 1 && id in t
    requires t[id].lastAccess <= health <= open
    ensures |TableAtOpen(setup.config, t, health, open)| < 1 <==>
      open - t[id].lastAccess >= setup.config.idleTimeoutSeconds * NANOS
  {
    ExpiryIsExact(setup.config, t[id], health);
    ExpiryIsExact(setup.config, t[id], open);
    var left := TableAtOpen(setup.config, t, health, open);
    forall k | k in t ensures k == id {
      if k != id {
        SubsetIsNoLarger({k, id}, t.Keys);
      }
    }
    if Expired(setup.config, t[id], open) {
      assert left == map[];
    } else {
      assert id in left;
    }
  }

  /**
    A client that loses the reply to OpenSession leaves a session that nobody knows: with the server's
    limit of one it keeps everybody out exactly until the idle timeout has passed.
   */
  lemma {:induction false} LostReplyBlocksForTheTimeout(setup: Setup, s: State, c: Timed, r: Leases.Run, i: nat)
    requires setup.Ok() && setup.config.maxSessions == 1 && c.call.Open? && Step(setup, s, c).0.Opened?
    requires Leases.RunFrom(setup, r, c.second) && r.states[0] == Step(setup, s, c).1
    requires i < |r.calls| && r.calls[i].call.Open?
    requires
      var id := Step(setup, s, c).0.id;
      forall j | 0 <= j < i :: r.calls[j].call != Validate(id) && r.calls[j].call != Close(id)
    requires forall j | 0 <= j < i :: r.replies[j] == Full || !r.calls[j].call.Open?
    ensures r.replies[i] == Full <==> r.calls[i].first - c.second < setup.config.idleTimeoutSeconds * NANOS
  {
    var id := Step(setup, s, c).0.id;
    OpenedAlone(setup, s, c);
    Leases.OrphanBlocksExactlyForTheTimeout(setup, r, c.second, id, i);
  }

  lemma {:induction false} OpenedAlone(setup: Setup, s: State, c: Timed)
    requires setup.Ok() && setup.config.maxSessions == 1 && c.call.Open? && Step(setup, s, c).0.Opened?
    ensures Step(setup, s, c).1.sessions == map[Step(setup, s, c).0.id := Entry(c.call.modelName, c.second)]
  {
    var live := Pruned(setup.config, s.sessions, c.first);
    assert |live.Keys| == |live|;
    assert live == map[];
  }

  /** The attempt gets as far as counting the sessions, and as far as opening one. */
  predicate ReachesHealth(rpcs: Rpcs) {
    rpcs.ready && rpcs.info == Answered && rpcs.health != Lost
  }

  predicate ReachesOpen(modelName: string, password: string, expected: string, rpcs: Rpcs) {
    && rpcs.ready && rpcs.info == Answered && rpcs.health == Answered && rpcs.serving && rpcs.open != Lost
    && modelName == Service.MODEL_NAME && password == expected
  }

  /** What an open leaves: a new session if there is room. */
  ghost predicate IsOpened(config: Config, live: Table, after: Table, at: Instant) {
    if |live| < config.maxSessions then
      exists id :: id !in live && after == live[id := Entry(Service.MODEL_NAME, at)]
    else after == live
  }

  /** The table at the server after an attempt, wherever it ended. */
  ghost predicate IsAfterAttempt(config: Config, before: Table, after: Table, modelName: string, password: string,
                                 expected: string, rpcs: Rpcs, health: Instant, open: Readings) {
    if ReachesOpen(modelName, password, expected, rpcs) then
      IsOpened(config, TableAtOpen(config, before, health, open.first), after, open.second)
    else if ReachesHealth(rpcs) then after == Pruned(config, before, health)
    else after == before
  }

  // ---------------------------------------------------------------------
  // The client object
  // ---------------------------------------------------------------------

  lemma {:induction false} IdsAreWholeCStrings(store: Store, s: State, c: Timed)
    requires store.setup.Ok() && PrintsDraws(store.setup.texts, store.draws)
    requires Step(store.setup, s, c).0.Opened?
    ensures
      var id := Step(store.setup, s, c).0.id;
      CString(id) == id && |id| == 32
  {
    var k := Leases.IssuedStep(store.setup, s, c);
    var draw := store.draws(k);
    HexHasNoNul(draw.high, 16);
    HexHasNoNul(draw.low, 16);
    WholeWithoutNul(IdText(draw));
    IdTextLength(draw);
  }

  class RknnClient {
    var channel: Option<nat>
    var stub: Option<nat>
    var sessionId: string
    var endpoint: string
    ghost var openChannels: set<nat>
    var channelsMade: nat

    /** Connected with all four fields set and its own channel the only open one, or not connected at all. */
    ghost predicate Valid()
      reads this
    {
      && stub == channel
      && CString(sessionId) == sessionId
      && (channel.Some? <==> sessionId != "")
      && (channel.None? ==> endpoint == "")
      && openChannels == (if channel.Some? then {channel.value} else {})
      && forall c | c in openChannels :: c < channelsMade
    }

    predicate IsConnected()
      reads this
    {
      channel.Some? && stub.Some? && sessionId != ""
    }

    /** Nothing is left of a session on this side. */
    ghost predicate IsClear()
      reads this
    {
      channel.None? && stub.None? && sessionId == "" && endpoint == "" && openChannels == {}
    }

    constructor ()
      ensures Valid() && IsClear()
    {
      channel := None;
      stub := None;
      sessionId := "";
      endpoint := "";
      openChannels := {};
      channelsMade := 0;
    }

    /** Whatever becomes of the call, the client is clear afterwards; a lost call leaves the session at the server. */
    method Close(store: Store, fate: Fate, at: Readings) returns (closed: bool)
      requires Valid() && store.Valid()
      modifies this, store
      ensures Valid() && IsClear() && store.Valid()
      ensures closed <==> old(IsConnected()) && fate == Answered && old(sessionId in store.sessions)
      ensures store.sessions ==
        if old(IsConnected()) && fate != Lost then old(store.sessions) - {old(sessionId)} else old(store.sessions)
      ensures store.drawn == old(store.drawn) && channelsMade == old(channelsMade)
    {
      closed := false;
      if stub.Some? && sessionId != "" {
        closed := RemoteClose(store, sessionId, fate, at);
      }
      if channel.Some? {
        openChannels := openChannels - {channel.value};
      }
      channel := None;
      stub := None;
      sessionId := "";
      endpoint := "";
    }

    /**
      Leaves the old session first, then tries to open a new one. It succeeds exactly when every call is
      answered, the request is right and there is room; a failed attempt leaves the client clear.
      Sessions that are not the client's own appear or stay at the server only through lost messages.
     */
    method Connect(store: Store, target: string, modelName: string, password: string, expected: string,
                   rpcs: Rpcs, close: Readings, health: Readings, open: Readings)
      returns (r: Result)
      requires Valid() && store.Valid()
      modifies this, store
      ensures Valid() && store.Valid()
      ensures if r.Connected? then IsConnected() && sessionId == r.sessionId && endpoint == target else IsClear()
      ensures r.Connected? <==>
        && AllAnswered(target, modelName, password, expected, rpcs)
        && |TableAtOpen(store.setup.config, old(Remaining(store.sessions, rpcs.close)), health.first, open.first)|
             < store.setup.config.maxSessions
      ensures r.Connected? ==>
        sessionId in store.sessions && store.sessions[sessionId] == Entry(Service.MODEL_NAME, open.second)
      ensures rpcs.open != ReplyLost ==>
        store.sessions.Keys - {sessionId} <= old(Remaining(store.sessions, rpcs.close)).Keys
      ensures AtMostOneNew(old(Remaining(store.sessions, rpcs.close)), store.sessions)
      ensures
        if target == "" || ':' !in target then store.sessions == old(Remaining(store.sessions, rpcs.close))
        else
          IsAfterAttempt(store.setup.config, old(Remaining(store.sessions, rpcs.close)), store.sessions, modelName,
                         password, expected, rpcs, health.first, open)
      ensures
        && store.setup.config.maxSessions == 1 && AllAnswered(target, modelName, password, expected, rpcs)
        && rpcs.close == Lost && old(IsConnected()) && old(sessionId in store.sessions)
        && old(store.sessions[sessionId].lastAccess) <= health.first <= open.first ==>
          (r.Connected? <==>
            open.first - old(store.sessions[sessionId].lastAccess) >= store.setup.config.idleTimeoutSeconds * NANOS)
    {
      LostCloseTakesTheRoom(store, rpcs.close, health.first, open.first);
      ghost var remaining := Remaining(store.sessions, rpcs.close);
      var ignored := Close(store, rpcs.close, close);
      assert store.sessions == remaining;
      if target == "" || ':' !in target {
        return BadEndpoint;
      }
      var mine := OpenChannel();
      r := Attempt(store, modelName, password, expected, rpcs, health, open);
      if r.Connected? {
        Adopt(mine, r.sessionId, target);
      } else {
        openChannels := openChannels - {mine};
      }
    }

    method OpenChannel() returns (mine: nat)
      requires Valid() && IsClear()
      modifies this`openChannels, this`channelsMade
      ensures mine == old(channelsMade) && channelsMade == mine + 1 && openChannels == {mine}
    {
      mine := channelsMade;
      openChannels, channelsMade := openChannels + {mine}, channelsMade + 1;
    }

    method Adopt(mine: nat, id: string, target: string)
      requires openChannels == {mine} && mine < channelsMade && CString(id) == id != ""
      modifies this`channel, this`stub, this`sessionId, this`endpoint
      ensures Valid() && IsConnected() && sessionId == id && endpoint == target
    {
      channel := Some(mine);
      stub := Some(mine);
      sessionId := id;
      endpoint := target;
    }

    /** A client whose close gets lost finds its old session in the way exactly until the idle timeout has passed. */
    lemma {:induction false} LostCloseTakesTheRoom(store: Store, close: Fate, health: Instant, open: Instant)
      requires store.Valid()
      ensures
        && store.setup.config.maxSessions == 1 && close == Lost && IsConnected() && sessionId in store.sessions
        && store.sessions[sessionId].lastAccess <= health <= open ==>
          (|TableAtOpen(store.setup.config, Remaining(store.sessions, close), health, open)| < 1 <==>
            open - store.sessions[sessionId].lastAccess >= store.setup.config.idleTimeoutSeconds * NANOS)
    {
      if && store.setup.config.maxSessions == 1 && close == Lost && IsConnected() && sessionId in store.sessions
         && store.sessions[sessionId].lastAccess <= health <= open {
        OwnSessionTakesTheRoom(store.setup, store.sessions, sessionId, health, open);
      }
    }

    /** The sessions left when this client has closed its own, if that call gets through. */
    ghost function Remaining(t: Table, close: Fate): Table
      reads this
    {
      if IsConnected() && close != Lost then t - {sessionId} else t
    }
  }

  /** No two sessions have been added. */
  ghost predicate AtMostOneNew(a: Table, b: Table) {
    forall x, y | x in b && x !in a && y in b && y !in a :: x == y
  }

  /** What an open does to the table. */
  lemma {:induction false} OpenOnTable(setup: Setup, s: State, c: Timed)
    requires setup.Ok() && c.call.Open?
    ensures
      var (reply, next) := Step(setup, s, c);
      && (reply == Full <==> |Pruned(setup.config, s.sessions, c.first)| >= setup.config.maxSessions)
      && (reply == Full || reply.Opened?)
      && (reply == Full ==> next.sessions.Keys <= s.sessions.Keys)
      && (reply.Opened? ==>
            && next.sessions.Keys <= s.sessions.Keys + {reply.id}
            && reply.id in next.sessions && next.sessions[reply.id] == Entry(c.call.modelName, c.second))
  {
  }

  /** The remote CloseSession call. */
  method RemoteClose(store: Store, id: string, fate: Fate, at: Readings) returns (closed: bool)
    requires store.Valid() && CString(id) == id
    modifies store
    ensures store.Valid() && store.drawn == old(store.drawn)
    ensures store.sessions == if fate != Lost then old(store.sessions) - {id} else old(store.sessions)
    ensures closed <==> fate == Answered && id in old(store.sessions)
  {
    closed := false;
    if fate != Lost {
      var reply := Service.CloseSession(store, id, at.first, at.second);
      assert id !in old(store.sessions) ==> old(store.sessions) - {id} == old(store.sessions);
      if fate == Answered {
        closed := reply;
      }
    }
  }

  /** The remote OpenSession call. */
  method RemoteOpen(store: Store, modelName: string, password: string, expected: string, fate: Fate, at: Readings)
    returns (r: Result)
    requires store.Valid()
    modifies store
    ensures store.Valid() && (r.Connected? || r.RpcFailed?)
    ensures r.Connected? <==>
      && fate == Answered && modelName == Service.MODEL_NAME && password == expected
      && |Pruned(store.setup.config, old(store.sessions), at.first)| < store.setup.config.maxSessions
    ensures r.Connected? ==> CString(r.sessionId) == r.sessionId != "" && r.sessionId in store.sessions
    ensures r.Connected? ==>
      && store.sessions[r.sessionId] == Entry(Service.MODEL_NAME, at.second)
      && store.sessions.Keys - {r.sessionId} <= old(store.sessions.Keys)
    ensures !r.Connected? && fate != ReplyLost ==> store.sessions.Keys <= old(store.sessions.Keys)
    ensures AtMostOneNew(old(store.sessions), store.sessions)
    ensures
      if fate != Lost && modelName == Service.MODEL_NAME && password == expected then
        IsOpened(store.setup.config, Pruned(store.setup.config, old(store.sessions), at.first), store.sessions,
                 at.second)
      else store.sessions == old(store.sessions)
  {
    if fate == Lost {
      return RpcFailed;
    }
    ghost var c := Timed(Call.Open(Service.MODEL_NAME), at.first, at.second);
    OpenOnTable(store.setup, store.Contents(), c);
    if Step(store.setup, store.Contents(), c).0.Opened? {
      IdsAreWholeCStrings(store, store.Contents(), c);
    }
    var status, id := Service.OpenSession(store, modelName, password, expected, at.first, at.second);
    if fate != Answered || status != Service.Ok {
      return RpcFailed;
    }
    return Connected(id);
  }

  /** The remote calls over a new channel. */
  method Attempt(store: Store, modelName: string, password: string, expected: string,
                 rpcs: Rpcs, health: Readings, open: Readings)
    returns (r: Result)
    requires store.Valid()
    modifies store
    ensures store.Valid() && !r.BadEndpoint?
    ensures r.Connected? <==>
      && rpcs.ready && rpcs.info == Answered && rpcs.health == Answered && rpcs.serving && rpcs.open == Answered
      && modelName == Service.MODEL_NAME && password == expected
      && |TableAtOpen(store.setup.config, old(store.sessions), health.first, open.first)|
           < store.setup.config.maxSessions
    ensures r.Connected? ==> CString(r.sessionId) == r.sessionId != "" && r.sessionId in store.sessions
    ensures r.Connected? ==>
      && store.sessions[r.sessionId] == Entry(Service.MODEL_NAME, open.second)
      && store.sessions.Keys - {r.sessionId} <= old(store.sessions.Keys)
    ensures !r.Connected? && rpcs.open != ReplyLost ==> store.sessions.Keys <= old(store.sessions.Keys)
    ensures AtMostOneNew(old(store.sessions), store.sessions)
    ensures IsAfterAttempt(store.setup.config, old(store.sessions), store.sessions, modelName, password, expected,
                           rpcs, health.first, open)
  {
    if !rpcs.ready {
      return TimedOut;
    }
    if rpcs.info != Answered {
      return RpcFailed;
    }
    if rpcs.health != Lost {
      var active := store.Count(health.first, health.second);
    }
    if rpcs.health != Answered {
      return RpcFailed;
    }
    assert store.sessions == Pruned(store.setup.config, old(store.sessions), health.first);
    if !rpcs.serving {
      return NotServing;
    }
    r := RemoteOpen(store, modelName, password, expected, rpcs.open, open);
  }
}
