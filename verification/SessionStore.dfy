/**
  The lease map of the server: sessions with a last-access stamp, pruned lazily
  by the calls that read the clock. Every method body runs under the store's
  mutex, so one call is one step; the values of its clock readings are parameters.
 */
module SessionStore {
  import opened CStrings
  import opened MachineInts
  import opened SessionIds

  const NANOS: int := 1_000_000_000

  /** A reading of the steady clock: a signed 64-bit count of nanoseconds. */
  type Instant = t: int | -0x8000_0000_0000_0000 <= t < 0x8000_0000_0000_0000

  datatype Entry = Entry(modelName: string, lastAccess: Instant)

  datatype Config = Config(maxSessions: Uint32, idleTimeoutSeconds: Uint32)

  type Table = map<string, Entry>

  /** Division as C++ performs it: the quotient is truncated toward zero. */
  function Truncated(n: int, d: int): int
    requires d > 0
  {
    if n >= 0 then n / d else -(-n / d)
  }

  /** Whole idle seconds, converted to an unsigned 64-bit number. */
  function IdleSeconds(now: Instant, lastAccess: Instant): nat {
    Truncated(now - lastAccess, NANOS) % WORD
  }

  predicate Expired(config: Config, entry: Entry, now: Instant) {
    IdleSeconds(now, entry.lastAccess) >= config.idleTimeoutSeconds
  }

  function Pruned(config: Config, table: Table, now: Instant): Table {
    map id | id in table && !Expired(config, table[id], now) :: table[id]
  }

  // ---------------------------------------------------------------------
  // One call as a function of the state
  // ---------------------------------------------------------------------

  /** What the store is made with: its limits, and the id text each attempt of its generator produces. */
  datatype Setup = Setup(config: Config, texts: nat -> string) {
    ghost predicate Ok() {
      && config.maxSessions > 0
      && config.idleTimeoutSeconds > 0
      && Productive(texts, config.maxSessions)
    }
  }

  datatype State = State(sessions: Table, drawn: nat)

  datatype Call =
    | Open(modelName: string)
    | Validate(id: string)
    | Close(id: string)
    | Count

  datatype Reply =
    | Opened(id: string)
    | Full
    | Valid(modelName: string)
    | Unknown
    | Closed
    | NotOpen
    | Counted(n: nat)

  /** A call with the two clock readings taken while it holds the mutex: one to prune, one to stamp. */
  datatype Timed = Timed(call: Call, first: Instant, second: Instant)

  ghost predicate WithinLimit(setup: Setup, s: State) {
    |s.sessions| <= setup.config.maxSessions
  }

  lemma {:induction false} PrunedIsNoLarger(config: Config, table: Table, now: Instant)
    ensures Pruned(config, table, now).Keys <= table.Keys
    ensures |Pruned(config, table, now)| <= |table|
  {
    SubsetIsNoLarger(Pruned(config, table, now).Keys, table.Keys);
  }

  ghost function Step(setup: Setup, s: State, c: Timed): (Reply, State)
    requires setup.Ok()
  {
    var live := Pruned(setup.config, s.sessions, c.first);
    match c.call
    case Open(modelName) =>
      if |live| >= setup.config.maxSessions then (Full, s.(sessions := live))
      else
        assert |live.Keys| == |live|;
        assert SomeFresh(setup.texts, s.drawn, live.Keys);
        var k := FirstFresh(setup.texts, s.drawn, live.Keys);
        var id := setup.texts(k);
        (Opened(id), State(live[id := Entry(modelName, c.second)], k + 1))
    case Validate(id) =>
      if id !in live then (Unknown, s.(sessions := live))
      else (Valid(live[id].modelName), s.(sessions := live[id := live[id].(lastAccess := c.second)]))
    case Close(id) =>
      if id in s.sessions then (Closed, s.(sessions := s.sessions - {id})) else (NotOpen, s)
    case Count =>
      (Counted(|live|), s.(sessions := live))
  }

  lemma {:induction false} StepKeepsLimit(setup: Setup, s: State, c: Timed)
    requires setup.Ok() && WithinLimit(setup, s)
    ensures WithinLimit(setup, Step(setup, s, c).1)
  {
    PrunedIsNoLarger(setup.config, s.sessions, c.first);
    var live := Pruned(setup.config, s.sessions, c.first);
    match c.call
    case Open(_) =>
    case Validate(id) =>
      if id in live {
        assert live[id := live[id].(lastAccess := c.second)].Keys == live.Keys;
      }
    case Close(id) =>
      SubsetIsNoLarger((s.sessions - {id}).Keys, s.sessions.Keys);
    case Count =>
  }

  // ---------------------------------------------------------------------
  // The expiry test, for every pair of clock readings
  // ---------------------------------------------------------------------

  /**
    The test on whole seconds is the exact test on nanoseconds when the clock has not
    gone back. A reading a second or more before the stamp turns into a huge
    unsigned number and expires the session; less than a second back does not.
   */
  lemma {:induction false} ExpiryIsExact(config: Config, entry: Entry, now: Instant)
    requires config.idleTimeoutSeconds > 0
    ensures Expired(config, entry, now) <==>
      || now - entry.lastAccess >= config.idleTimeoutSeconds * 1_000_000_000
      || entry.lastAccess - now >= 1_000_000_000
  {
    var idle := now - entry.lastAccess;
    if idle >= 0 {
      assert idle / NANOS < WORD;
    } else {
      var back := -idle / NANOS;
      assert 0 <= back < 0x8_0000_0000;
      assert Truncated(idle, NANOS) == -back;
      if back > 0 {
        assert -back % WORD == WORD - back;
      }
    }
  }

  // ---------------------------------------------------------------------
  // The store itself
  // ---------------------------------------------------------------------

  class Store {
    const setup: Setup
    const draws: nat -> Draw
    var sessions: Table
    var drawn: nat

    ghost predicate Valid()
      reads this
    {
      && setup.Ok()
      && PrintsDraws(setup.texts, draws)
      && WithinLimit(setup, State(sessions, drawn))
    }

    ghost function Contents(): State
      reads this
    {
      State(sessions, drawn)
    }

    constructor (setup: Setup, draws: nat -> Draw)
      requires setup.Ok() && PrintsDraws(setup.texts, draws)
      ensures Valid() && this.setup == setup && Contents() == State(map[], 0)
    {
      this.setup := setup;
      this.draws := draws;
      sessions := map[];
      drawn := 0;
    }

    /** Visits the entries in whatever order the hash table holds them and erases the expired ones. */
    method PruneLocked(now: Instant)
      modifies this`sessions
      ensures sessions == Pruned(setup.config, old(sessions), now)
      ensures forall id :: id in sessions <==> id in old(sessions) && !Expired(setup.config, old(sessions)[id], now)
      ensures forall id | id in sessions :: sessions[id] == old(sessions)[id]
    {
      var pending := sessions.Keys;
      ghost var before := sessions;
      while pending != {}
        invariant pending <= sessions.Keys <= before.Keys
        invariant forall id :: id in before ==>
          (id in sessions <==> id in pending || !Expired(setup.config, before[id], now))
        invariant forall id :: id in sessions ==> sessions[id] == before[id]
        decreases |pending|
      {
        var id :| id in pending;
        pending := pending - {id};
        if IdleSeconds(now, sessions[id].lastAccess) >= setup.config.idleTimeoutSeconds {
          sessions := sessions - {id};
        }
      }
    }

    method NewId() returns (id: string)
      requires PrintsDraws(setup.texts, draws)
      modifies this`drawn
      ensures id == setup.texts(old(drawn)) && |id| == 32 && drawn == old(drawn) + 1
    {
      id := IdText(draws(drawn));
      IdTextLength(draws(drawn));
      drawn := drawn + 1;
    }

    /** Draws until the text is not held: a do-while loop that stops at the first fresh attempt. */
    method DrawFreshId() returns (id: string)
      requires PrintsDraws(setup.texts, draws)
      requires SomeFresh(setup.texts, drawn, sessions.Keys)
      modifies this`drawn
      ensures drawn == FirstFresh(setup.texts, old(drawn), sessions.Keys) + 1
      ensures id == setup.texts(drawn - 1) && |id| == 32 && id !in sessions
    {
      ghost var stop := FirstFresh(setup.texts, drawn, sessions.Keys);
      id := NewId();
      while id in sessions
        invariant old(drawn) < drawn <= stop + 1
        invariant id == setup.texts(drawn - 1) && |id| == 32
        invariant forall j: nat | old(drawn) <= j < drawn - 1 :: setup.texts(j) in sessions
        decreases stop + 1 - drawn
      {
        id := NewId();
      }
    }

    /** Code 0 with the id text, -2 when full, -1 when the caller's buffer cannot hold an id. */
    method Open(modelName: string, idSize: nat, first: Instant, second: Instant)
      returns (code: int, idText: string)
      requires Valid()
      modifies this
      ensures Valid()
      ensures idSize < 33 ==> code == -1 && Contents() == old(Contents())
      ensures idSize >= 33 ==>
        var (reply, next) := Step(setup, old(Contents()), Timed(Call.Open(modelName), first, second));
        && Contents() == next
        && (reply == Full ==> code == -2)
        && (reply != Full ==> code == 0 && reply == Opened(idText) && idText in sessions)
      ensures
        var live := Pruned(setup.config, old(sessions), first);
        && (code == 0 <==> idSize >= 33 && |live| < setup.config.maxSessions)
        && (code == 0 ==> idText !in live && |idText| == 32 && sessions == live[idText := Entry(modelName, second)])
        && (idSize >= 33 && code != 0 ==> code == -2 && sessions == live && drawn == old(drawn))
    {
      idText := "";
      if idSize < 33 {
        return -1, "";
      }
      StepKeepsLimit(setup, Contents(), Timed(Call.Open(modelName), first, second));
      PruneLocked(first);
      if |sessions| >= setup.config.maxSessions {
        return -2, "";
      }
      assert |sessions.Keys| == |sessions|;
      var id := DrawFreshId();
      sessions := sessions[id := Entry(modelName, second)];
      return 0, Printed(id, idSize);
    }

    /** Code 0 with the model name as far as the caller's buffer holds it, else -2; -1 for no buffer. */
    method Validate(id: string, modelSize: nat, first: Instant, second: Instant)
      returns (code: int, modelName: string)
      requires Valid()
      modifies this
      ensures Valid()
      ensures modelSize == 0 ==> code == -1 && Contents() == old(Contents())
      ensures modelSize > 0 ==>
        var (reply, next) := Step(setup, old(Contents()), Timed(Call.Validate(id), first, second));
        && Contents() == next
        && (reply == Unknown ==> code == -2)
        && (reply != Unknown ==> code == 0 && reply.Valid? && modelName == Printed(reply.modelName, modelSize))
      ensures modelSize > 0 ==>
        var live := Pruned(setup.config, old(sessions), first);
        && (code == 0 <==> id in live) && (code != 0 ==> code == -2 && sessions == live)
        && (code == 0 ==>
              && modelName == Printed(live[id].modelName, modelSize)
              && sessions == live[id := Entry(live[id].modelName, second)])
        && drawn == old(drawn)
    {
      modelName := "";
      if modelSize == 0 {
        return -1, "";
      }
      StepKeepsLimit(setup, Contents(), Timed(Call.Validate(id), first, second));
      PruneLocked(first);
      if id !in sessions {
        return -2, "";
      }
      sessions := sessions[id := sessions[id].(lastAccess := second)];
      return 0, Printed(sessions[id].modelName, modelSize);
    }

    /** Does not look at the clock: an expired session that nothing has pruned yet still closes with 0. */
    method Close(id: string, ghost first: Instant, ghost second: Instant) returns (code: int)
      requires Valid()
      modifies this
      ensures Valid()
      ensures
        var (reply, next) := Step(setup, old(Contents()), Timed(Call.Close(id), first, second));
        && Contents() == next
        && (code == 0 <==> reply == Closed)
        && (code == -2 <==> reply == NotOpen)
      ensures (code == 0 <==> id in old(sessions)) && sessions == old(sessions) - {id} && drawn == old(drawn)
    {
      StepKeepsLimit(setup, Contents(), Timed(Call.Close(id), first, second));
      if id in sessions {
        sessions := sessions - {id};
        code := 0;
      } else {
        code := -2;
      }
    }

    method Count(first: Instant, ghost second: Instant) returns (n: nat)
      requires Valid()
      modifies this
      ensures Valid()
      ensures (Counted(n), Contents()) ==
        Step(setup, old(Contents()), Timed(Call.Count, first, second))
      ensures n == |sessions| && sessions == Pruned(setup.config, old(sessions), first) && drawn == old(drawn)
    {
      StepKeepsLimit(setup, Contents(), Timed(Call.Count, first, second));
      PruneLocked(first);
      n := |sessions|;
    }
  }
}
