/**
  What the lazily pruned store stands for, over whole runs of calls with a clock
  that does not go back: an eager lease table, one independent lease per id,
  and exclusive use that is recovered after the idle timeout.
 */
module Leases {
  import opened SessionIds
  import opened SessionStore

  // ---------------------------------------------------------------------
  // The eager table
  // ---------------------------------------------------------------------

  ghost predicate Alive(config: Config, lastAccess: Instant, now: Instant) {
    now - lastAccess < config.idleTimeoutSeconds * NANOS
  }

  ghost function Dropped(config: Config, table: Table, now: Instant): Table {
    map id | id in table && Alive(config, table[id].lastAccess, now) :: table[id]
  }

  /**
    One call on a table from which a session vanishes the instant its idle time
    reaches the timeout, to the nanosecond. The call decides at its first reading.
   */
  ghost function EagerStep(setup: Setup, e: State, c: Timed): (Reply, State)
    requires setup.Ok()
  {
    var held := Dropped(setup.config, e.sessions, c.first);
    var (reply, sessions, drawn) :=
      match c.call
      case Open(modelName) =>
        if |held| >= setup.config.maxSessions then (Full, held, e.drawn)
        else
          assert |held.Keys| == |held|;
          assert SomeFresh(setup.texts, e.drawn, held.Keys);
          var k := FirstFresh(setup.texts, e.drawn, held.Keys);
          var id := setup.texts(k);
          (Opened(id), held[id := Entry(modelName, c.second)], k + 1)
      case Validate(id) =>
        if id !in held then (Unknown, held, e.drawn)
        else (Valid(held[id].modelName), held[id := held[id].(lastAccess := c.second)], e.drawn)
      case Close(id) =>
        (if id in held then Closed else NotOpen, held - {id}, e.drawn)
      case Count =>
        (Counted(|held|), held, e.drawn);
    (reply, State(Dropped(setup.config, sessions, c.second), drawn))
  }

  datatype Discipline = Lazy | Eager

  ghost function StepBy(d: Discipline, setup: Setup, s: State, c: Timed): (Reply, State)
    requires setup.Ok()
  {
    if d == Lazy then Step(setup, s, c) else EagerStep(setup, s, c)
  }

  // ---------------------------------------------------------------------
  // Runs
  // ---------------------------------------------------------------------

  /** The last clock reading before call `i`. */
  ghost function ClockAt(cs: seq<Timed>, from: Instant, i: nat): Instant
    requires i <= |cs|
  {
    if i == 0 then from else cs[i - 1].second
  }

  ghost predicate InOrder(cs: seq<Timed>, from: Instant, i: nat)
    requires i < |cs|
  {
    ClockAt(cs, from, i) <= cs[i].first <= cs[i].second
  }

  /** Calls hold the mutex one after the other and the clock never goes back. */
  ghost predicate Monotone(cs: seq<Timed>, from: Instant) {
    forall i: nat | i < |cs| :: InOrder(cs, from, i)
  }

  ghost predicate StampedBy(s: State, now: Instant) {
    forall id | id in s.sessions :: s.sessions[id].lastAccess <= now
  }

  /** A run: the state before each call, and the last state; the reply to each call. */
  datatype Run = Run(calls: seq<Timed>, states: seq<State>, replies: seq<Reply>)

  ghost predicate Shaped(r: Run) {
    |r.states| == |r.calls| + 1 && |r.replies| == |r.calls|
  }

  ghost predicate StepHolds(d: Discipline, setup: Setup, r: Run, i: nat)
    requires setup.Ok() && Shaped(r) && i < |r.calls|
  {
    (r.replies[i], r.states[i + 1]) == StepBy(d, setup, r.states[i], r.calls[i])
  }

  ghost predicate Legal(d: Discipline, setup: Setup, r: Run)
    requires setup.Ok()
  {
    Shaped(r) && forall i: nat | i < |r.calls| :: StepHolds(d, setup, r, i)
  }

  /** A run of the store from a state it may be in at clock reading `from`. */
  ghost predicate RunFrom(setup: Setup, r: Run, from: Instant) {
    && setup.Ok()
    && Legal(Lazy, setup, r)
    && WithinLimit(setup, r.states[0])
    && StampedBy(r.states[0], from)
    && Monotone(r.calls, from)
  }

  lemma {:induction false} StepOf(d: Discipline, setup: Setup, r: Run, i: nat)
    requires setup.Ok() && Legal(d, setup, r) && i < |r.calls|
    ensures (r.replies[i], r.states[i + 1]) == StepBy(d, setup, r.states[i], r.calls[i])
  {
    assert StepHolds(d, setup, r, i);
  }

  lemma {:induction false} ClockOf(cs: seq<Timed>, from: Instant, i: nat)
    requires Monotone(cs, from) && i < |cs|
    ensures ClockAt(cs, from, i) <= cs[i].first <= cs[i].second == ClockAt(cs, from, i + 1)
  {
    assert InOrder(cs, from, i);
  }

  /** Every sequence of calls has a run from every state. */
  lemma {:induction false} RunExists(d: Discipline, setup: Setup, s: State, cs: seq<Timed>) returns (r: Run)
    requires setup.Ok()
    ensures Legal(d, setup, r) && r.calls == cs && r.states[0] == s
  {
    if cs == [] {
      r := Run([], [s], []);
    } else {
      var front := RunExists(d, setup, s, cs[..|cs| - 1]);
      var c := cs[|cs| - 1];
      var (reply, next) := StepBy(d, setup, front.states[|cs| - 1], c);
      r := Run(cs, front.states + [next], front.replies + [reply]);
      forall i: nat | i < |cs| ensures StepHolds(d, setup, r, i) {
        if i < |cs| - 1 {
          StepOf(d, setup, front, i);
        }
      }
    }
  }

  lemma {:induction false} RunKeepsLimit(setup: Setup, r: Run, from: Instant, i: nat)
    requires RunFrom(setup, r, from) && i <= |r.calls|
    ensures WithinLimit(setup, r.states[i])
    ensures StampedBy(r.states[i], ClockAt(r.calls, from, i))
  {
    if i == 0 {
    } else {
      RunKeepsLimit(setup, r, from, i - 1);
      StepOf(Lazy, setup, r, i - 1);
      ClockOf(r.calls, from, i - 1);
      StepKeepsLimit(setup, r.states[i - 1], r.calls[i - 1]);
    }
  }

  /** What one call can do to the map and to the generator. */
  lemma {:induction false} StepFrame(setup: Setup, s: State, c: Timed)
    requires setup.Ok()
    ensures
      var (reply, next) := Step(setup, s, c);
      && s.drawn <= next.drawn
      && (reply.Opened? ==> s.drawn < next.drawn && reply.id == setup.texts(next.drawn - 1))
      && (forall id | id in next.sessions :: id in s.sessions || reply == Opened(id))
  {
    match c.call
    case Open(_) =>
    case Validate(_) =>
    case Close(_) =>
    case Count =>
  }

  lemma {:induction false} OpenedIsHeld(setup: Setup, s: State, c: Timed)
    requires setup.Ok() && Step(setup, s, c).0.Opened?
    ensures Step(setup, s, c).0.id in Step(setup, s, c).1.sessions
  {
  }

  lemma {:induction false} UnservedStepOnlyShrinks(setup: Setup, s: State, c: Timed)
    requires setup.Ok() && !Step(setup, s, c).0.Valid? && !Step(setup, s, c).0.Opened?
    ensures
      var t := Step(setup, s, c).1.sessions;
      forall id | id in t :: id in s.sessions && t[id] == s.sessions[id]
  {
    match c.call
    case Open(_) =>
    case Validate(_) =>
    case Close(_) =>
    case Count =>
  }

  // ---------------------------------------------------------------------
  // The lazy store refines the eager table
  // ---------------------------------------------------------------------

  /** The simulation relation: the physical map restricted to live entries. */
  ghost predicate Simulates(setup: Setup, s: State, e: State, now: Instant) {
    && StampedBy(s, now)
    && e == State(Dropped(setup.config, s.sessions, now), s.drawn)
  }

  lemma {:induction false} PruneDropsExactly(setup: Setup, s: State, now: Instant)
    requires setup.Ok() && StampedBy(s, now)
    ensures Pruned(setup.config, s.sessions, now) == Dropped(setup.config, s.sessions, now)
  {
    forall id | id in s.sessions
      ensures Expired(setup.config, s.sessions[id], now) <==> !Alive(setup.config, s.sessions[id].lastAccess, now)
    {
      ExpiryIsExact(setup.config, s.sessions[id], now);
    }
  }

  lemma {:induction false} StepSimulates(setup: Setup, s: State, e: State, c: Timed, now: Instant)
    requires setup.Ok() && Simulates(setup, s, e, now) && now <= c.first <= c.second
    ensures Simulates(setup, Step(setup, s, c).1, EagerStep(setup, e, c).1, c.second)
    ensures !c.call.Close? ==> Step(setup, s, c).0 == EagerStep(setup, e, c).0
    ensures c.call.Close? ==>
      (Step(setup, s, c).0 != EagerStep(setup, e, c).0 <==>
        c.call.id in s.sessions && Expired(setup.config, s.sessions[c.call.id], c.first))
  {
    if c.call.Close? {
      CloseSimulates(setup, s, e, c, now);
    } else {
      var held := Dropped(setup.config, e.sessions, c.first);
      PruneDropsExactly(setup, s, c.first);
      assert held == Pruned(setup.config, s.sessions, c.first);
    }
  }

  lemma {:induction false} CloseSimulates(setup: Setup, s: State, e: State, c: Timed, now: Instant)
    requires setup.Ok() && Simulates(setup, s, e, now) && now <= c.first <= c.second
    requires c.call.Close?
    ensures Simulates(setup, Step(setup, s, c).1, EagerStep(setup, e, c).1, c.second)
    ensures Step(setup, s, c).0 != EagerStep(setup, e, c).0 <==>
      c.call.id in s.sessions && Expired(setup.config, s.sessions[c.call.id], c.first)
  {
    var id := c.call.id;
    var held := Dropped(setup.config, e.sessions, c.first);
    if id in s.sessions {
      ExpiryIsExact(setup.config, s.sessions[id], c.first);
    }
    assert Dropped(setup.config, s.sessions - {id}, c.second) == Dropped(setup.config, held - {id}, c.second);
  }

  /** An eager run of the same calls, from the live sessions of the same state. */
  ghost predicate EagerTwin(setup: Setup, r: Run, e: Run, from: Instant)
    requires setup.Ok() && Shaped(r)
  {
    && Legal(Eager, setup, e)
    && e.calls == r.calls
    && e.states[0] == State(Dropped(setup.config, r.states[0].sessions, from), r.states[0].drawn)
  }

  lemma {:induction false} RunSimulates(setup: Setup, r: Run, e: Run, from: Instant, i: nat)
    requires RunFrom(setup, r, from) && EagerTwin(setup, r, e, from) && i <= |r.calls|
    ensures Simulates(setup, r.states[i], e.states[i], ClockAt(r.calls, from, i))
  {
    if i == 0 {
    } else {
      assert Simulates(setup, r.states[i - 1], e.states[i - 1], ClockAt(r.calls, from, i - 1)) by {
        RunSimulates(setup, r, e, from, i - 1);
      }
      assert r.states[i] == Step(setup, r.states[i - 1], r.calls[i - 1]).1 by {
        StepOf(Lazy, setup, r, i - 1);
      }
      assert e.states[i] == EagerStep(setup, e.states[i - 1], r.calls[i - 1]).1 by {
        StepOf(Eager, setup, e, i - 1);
      }
      ClockOf(r.calls, from, i - 1);
      StepSimulates(setup, r.states[i - 1], e.states[i - 1], r.calls[i - 1], ClockAt(r.calls, from, i - 1));
    }
  }

  /** In every run the lazy store answers as the eager table does, except for some codes of close. */
  lemma {:induction false} LazyRefinesEager(setup: Setup, r: Run, e: Run, from: Instant, i: nat)
    requires RunFrom(setup, r, from) && EagerTwin(setup, r, e, from) && i < |r.calls|
    ensures !r.calls[i].call.Close? ==> r.replies[i] == e.replies[i]
  {
    RunSimulates(setup, r, e, from, i);
    StepOf(Lazy, setup, r, i);
    StepOf(Eager, setup, e, i);
    ClockOf(r.calls, from, i);
    StepSimulates(setup, r.states[i], e.states[i], r.calls[i], ClockAt(r.calls, from, i));
  }

  /**
    Closing an expired session is documented to report that nothing was closed. It does
    exactly when the session is not waiting, expired, for the next call that prunes.
   */
  lemma {:induction false} CloseAgreesExactlyWhenNotStale(setup: Setup, r: Run, e: Run, from: Instant, i: nat)
    requires RunFrom(setup, r, from) && EagerTwin(setup, r, e, from)
    requires i < |r.calls| && r.calls[i].call.Close?
    ensures r.replies[i] == e.replies[i] <==>
      var held := r.states[i].sessions;
      r.calls[i].call.id !in held || !Expired(setup.config, held[r.calls[i].call.id], r.calls[i].first)
    ensures e.replies[i] == Closed ==> r.replies[i] == Closed
  {
    RunSimulates(setup, r, e, from, i);
    StepOf(Lazy, setup, r, i);
    StepOf(Eager, setup, e, i);
    ClockOf(r.calls, from, i);
    StepSimulates(setup, r.states[i], e.states[i], r.calls[i], ClockAt(r.calls, from, i));
  }

  /** A run where it does not: open, wait for the timeout, close. */
  lemma {:induction false} CloseOfExpiredSessionReportsClosed(setup: Setup) returns (r: Run, e: Run)
    requires setup.Ok()
    ensures RunFrom(setup, r, 0) && EagerTwin(setup, r, e, 0) && |r.calls| == 2
    ensures r.replies[0].Opened? && r.calls[1].call == Call.Close(r.replies[0].id)
    ensures r.replies[1] == Closed && e.replies[1] == NotOpen
  {
    assert SomeFresh(setup.texts, 0, {});
    var id := setup.texts(FirstFresh(setup.texts, 0, {}));
    var expiry := setup.config.idleTimeoutSeconds * NANOS;
    var empty := State(map[], 0);
    var cs := [Timed(Call.Open("yolov5"), 0, 0), Timed(Call.Close(id), expiry, expiry)];
    r := RunExists(Lazy, setup, empty, cs);
    e := RunExists(Eager, setup, empty, cs);
    assert Dropped(setup.config, map[], 0) == Pruned(setup.config, map[], 0) == map[];
    assert empty.sessions.Keys == {};
    StepOf(Lazy, setup, r, 0);
    StepOf(Lazy, setup, r, 1);
    assert r.states[1].sessions == map[id := Entry("yolov5", 0)];
    ExpiryIsExact(setup.config, Entry("yolov5", 0), expiry);
    CloseAgreesExactlyWhenNotStale(setup, r, e, 0, 1);
    StepOf(Eager, setup, e, 1);
  }

  /** The eager table never shows an expired lease, not even between calls. */
  lemma {:induction false} EagerHoldsOnlyLiveLeases(setup: Setup, r: Run, e: Run, from: Instant, i: nat, id: string)
    requires RunFrom(setup, r, from) && EagerTwin(setup, r, e, from)
    requires i <= |r.calls| && id in e.states[i].sessions
    ensures Alive(setup.config, e.states[i].sessions[id].lastAccess, ClockAt(r.calls, from, i))
    ensures id in r.states[i].sessions && r.states[i].sessions[id] == e.states[i].sessions[id]
  {
    RunSimulates(setup, r, e, from, i);
  }

  // ---------------------------------------------------------------------
  // Monitoring does not interfere
  // ---------------------------------------------------------------------

  /** A call both stores receive, or a count that only the monitored store receives. */
  datatype Arrival = Both(call: Timed) | Monitor(first: Instant, second: Instant)

  function Received(a: Arrival): Timed {
    match a
    case Both(call) => call
    case Monitor(first, second) => Timed(Call.Count, first, second)
  }

  /** The monitored store and the plain one before arrival `i`. */
  ghost function PairAt(setup: Setup, s: State, arrivals: seq<Arrival>, i: nat): (State, State)
    requires setup.Ok() && i <= |arrivals|
  {
    if i == 0 then (s, s)
    else
      var (monitored, plain) := PairAt(setup, s, arrivals, i - 1);
      ( Step(setup, monitored, Received(arrivals[i - 1])).1,
        if arrivals[i - 1].Both? then Step(setup, plain, arrivals[i - 1].call).1 else plain )
  }

  ghost predicate MonotoneArrivals(arrivals: seq<Arrival>, from: Instant) {
    && (forall i | 0 <= i < |arrivals| :: from <= Received(arrivals[i]).first <= Received(arrivals[i]).second)
    && (forall i, j | 0 <= i < j < |arrivals| :: Received(arrivals[i]).second <= Received(arrivals[j]).first)
  }

  /** Same leases, same generator position; the monitored map may have been pruned further. */
  ghost predicate SameLeases(setup: Setup, monitored: State, plain: State, now: Instant) {
    && StampedBy(plain, now)
    && monitored.drawn == plain.drawn
    && (forall id | id in monitored.sessions ::
         id in plain.sessions && plain.sessions[id] == monitored.sessions[id])
    && Dropped(setup.config, monitored.sessions, now) == Dropped(setup.config, plain.sessions, now)
  }

  ghost predicate CloseMayOnlyTurnToNotOpen(setup: Setup, monitored: State, plain: State, c: Timed)
    requires setup.Ok() && c.call.Close?
  {
    var id := c.call.id;
    && (Step(setup, monitored, c).0 != Step(setup, plain, c).0 <==> id in plain.sessions && id !in monitored.sessions)
    && (Step(setup, monitored, c).0 != Step(setup, plain, c).0 ==>
         && Step(setup, plain, c).0 == Closed
         && Step(setup, monitored, c).0 == NotOpen
         && Expired(setup.config, plain.sessions[id], c.first))
  }

  lemma {:induction false} DropLater(setup: Setup, a: Table, b: Table, now: Instant, later: Instant)
    requires Dropped(setup.config, a, now) == Dropped(setup.config, b, now) && now <= later
    ensures Dropped(setup.config, a, later) == Dropped(setup.config, b, later)
  {
    var c := setup.config;
    forall id | id in Dropped(c, a, later) || id in Dropped(c, b, later)
      ensures id in Dropped(c, a, later) && id in Dropped(c, b, later)
        && Dropped(c, a, later)[id] == Dropped(c, b, later)[id]
    {
      assert id in Dropped(c, a, now) && id in Dropped(c, b, now);
    }
  }

  lemma {:induction false} MonitorStepKeepsLeases(setup: Setup, monitored: State, plain: State, c: Timed, now: Instant)
    requires setup.Ok() && SameLeases(setup, monitored, plain, now) && now <= c.first <= c.second
    requires c.call.Count?
    ensures SameLeases(setup, Step(setup, monitored, c).1, plain, c.second)
  {
    PruneDropsExactly(setup, monitored, c.first);
    DropLater(setup, monitored.sessions, plain.sessions, now, c.second);
    assert Dropped(setup.config, Dropped(setup.config, monitored.sessions, c.first), c.second)
        == Dropped(setup.config, monitored.sessions, c.second);
  }

  lemma {:induction false} BothStepKeepsLeases(setup: Setup, monitored: State, plain: State, c: Timed, now: Instant)
    requires setup.Ok() && SameLeases(setup, monitored, plain, now) && now <= c.first <= c.second
    ensures SameLeases(setup, Step(setup, monitored, c).1, Step(setup, plain, c).1, c.second)
    ensures !c.call.Close? ==> Step(setup, monitored, c).0 == Step(setup, plain, c).0
    ensures c.call.Close? ==> CloseMayOnlyTurnToNotOpen(setup, monitored, plain, c)
  {
    DropLater(setup, monitored.sessions, plain.sessions, now, c.first);
    if c.call.Close? {
      BothClose(setup, monitored, plain, c, now);
    } else {
      PruneDropsExactly(setup, monitored, c.first);
      PruneDropsExactly(setup, plain, c.first);
    }
  }

  lemma {:induction false} BothClose(setup: Setup, monitored: State, plain: State, c: Timed, now: Instant)
    requires setup.Ok() && SameLeases(setup, monitored, plain, now) && now <= c.first <= c.second
    requires c.call.Close?
    ensures SameLeases(setup, Step(setup, monitored, c).1, Step(setup, plain, c).1, c.second)
    ensures CloseMayOnlyTurnToNotOpen(setup, monitored, plain, c)
  {
    var id := c.call.id;
    assert SameLeases(setup, Step(setup, monitored, c).1, Step(setup, plain, c).1, c.second) by {
      DropLater(setup, monitored.sessions, plain.sessions, now, c.second);
      DroppedWithout(setup.config, monitored.sessions, id, c.second);
      DroppedWithout(setup.config, plain.sessions, id, c.second);
      ClosedTable(setup, monitored, c);
      ClosedTable(setup, plain, c);
    }
    if id in plain.sessions && id !in monitored.sessions {
      DropLater(setup, monitored.sessions, plain.sessions, now, c.first);
      assert id !in Dropped(setup.config, monitored.sessions, c.first);
      ExpiryIsExact(setup.config, plain.sessions[id], c.first);
    }
  }

  lemma {:induction false} ClosedTable(setup: Setup, s: State, c: Timed)
    requires setup.Ok() && c.call.Close?
    ensures Step(setup, s, c).1 == s.(sessions := s.sessions - {c.call.id})
  {
    if c.call.id !in s.sessions {
      assert s.sessions - {c.call.id} == s.sessions;
    }
  }

  lemma {:induction false} DroppedWithout(config: Config, t: Table, id: string, now: Instant)
    ensures Dropped(config, t - {id}, now) == Dropped(config, t, now) - {id}
  {
  }

  lemma {:induction false} MonitoringKeepsLeases(setup: Setup, s: State, arrivals: seq<Arrival>, from: Instant, i: nat)
    requires setup.Ok() && StampedBy(s, from) && MonotoneArrivals(arrivals, from) && i <= |arrivals|
    ensures
      var (monitored, plain) := PairAt(setup, s, arrivals, i);
      SameLeases(setup, monitored, plain, if i == 0 then from else Received(arrivals[i - 1]).second)
  {
    if i == 0 {
    } else {
      var (monitored, plain) := PairAt(setup, s, arrivals, i - 1);
      var c := Received(arrivals[i - 1]);
      var now := if i == 1 then from else Received(arrivals[i - 2]).second;
      assert SameLeases(setup, monitored, plain, now) by {
        MonitoringKeepsLeases(setup, s, arrivals, from, i - 1);
      }
      assert now <= c.first <= c.second by {
        ArrivesInOrder(arrivals, from, i - 1);
      }
      ArrivalKeepsLeases(setup, monitored, plain, arrivals[i - 1], now);
    }
  }

  lemma {:induction false} ArrivesInOrder(arrivals: seq<Arrival>, from: Instant, i: nat)
    requires MonotoneArrivals(arrivals, from) && i < |arrivals|
    ensures
      var now := if i == 0 then from else Received(arrivals[i - 1]).second;
      now <= Received(arrivals[i]).first <= Received(arrivals[i]).second
  {
  }

  lemma {:induction false} ArrivalKeepsLeases(setup: Setup, monitored: State, plain: State, arrival: Arrival,
        now: Instant)
    requires setup.Ok() && SameLeases(setup, monitored, plain, now)
    requires now <= Received(arrival).first <= Received(arrival).second
    ensures
      var c := Received(arrival);
      SameLeases(setup, Step(setup, monitored, c).1, if arrival.Both? then Step(setup, plain, c).1 else plain, c.second)
  {
    if arrival.Both? {
      BothStepKeepsLeases(setup, monitored, plain, Received(arrival), now);
    } else {
      MonitorStepKeepsLeases(setup, monitored, plain, Received(arrival), now);
    }
  }

  /**
    Counts inserted anywhere change no later reply, no generated id and no lease. Only the
    code of close can differ: from closed to not open, for an id that had expired.
   */
  lemma {:induction false} MonitoringDoesNotInterfere(setup: Setup, s: State, arrivals: seq<Arrival>, from: Instant,
        i: nat)
    requires setup.Ok() && StampedBy(s, from) && MonotoneArrivals(arrivals, from)
    requires i < |arrivals| && arrivals[i].Both?
    ensures
      var (monitored, plain) := PairAt(setup, s, arrivals, i);
      var c := arrivals[i].call;
      && monitored.drawn == plain.drawn
      && Dropped(setup.config, monitored.sessions, c.first) == Dropped(setup.config, plain.sessions, c.first)
      && (!c.call.Close? ==> Step(setup, monitored, c).0 == Step(setup, plain, c).0)
      && (c.call.Close? ==> CloseMayOnlyTurnToNotOpen(setup, monitored, plain, c))
  {
    MonitoringKeepsLeases(setup, s, arrivals, from, i);
    var (monitored, plain) := PairAt(setup, s, arrivals, i);
    var now := if i == 0 then from else Received(arrivals[i - 1]).second;
    assert Received(arrivals[i]) == arrivals[i].call;
    BothStepKeepsLeases(setup, monitored, plain, arrivals[i].call, now);
    DropLater(setup, monitored.sessions, plain.sessions, now, arrivals[i].call.first);
  }

  // ---------------------------------------------------------------------
  // One id is one lease
  // ---------------------------------------------------------------------

  datatype Lease = NoLease | Held(stamp: Instant)

  /** The lease of a single id as its holder can account for it, blind to every other session. */
  ghost function LeaseAfter(setup: Setup, lease: Lease, id: string, c: Timed, reply: Reply): Lease {
    match c.call
    case Open(_) => if reply == Opened(id) then Held(c.second) else lease
    case Validate(other) =>
      if other != id then lease
      else if lease.Held? && Alive(setup.config, lease.stamp, c.first) then Held(c.second)
      else NoLease
    case Close(other) => if other == id then NoLease else lease
    case Count => lease
  }

  ghost function LeaseAt(setup: Setup, r: Run, id: string, i: nat): Lease
    requires setup.Ok() && Legal(Lazy, setup, r) && i <= |r.calls|
  {
    if i == 0 then if id in r.states[0].sessions then Held(r.states[0].sessions[id].lastAccess) else NoLease
    else LeaseAfter(setup, LeaseAt(setup, r, id, i - 1), id, r.calls[i - 1], r.replies[i - 1])
  }

  ghost predicate LeaseDescribes(setup: Setup, lease: Lease, s: State, id: string, now: Instant) {
    && (id in s.sessions ==> lease == Held(s.sessions[id].lastAccess))
    && (id !in s.sessions && lease.Held? ==> !Alive(setup.config, lease.stamp, now))
  }

  lemma {:induction false} LeaseStep(setup: Setup, lease: Lease, s: State, id: string, c: Timed, now: Instant)
    requires setup.Ok() && StampedBy(s, now) && now <= c.first <= c.second
    requires LeaseDescribes(setup, lease, s, id, now)
    ensures
      var (reply, next) := Step(setup, s, c);
      LeaseDescribes(setup, LeaseAfter(setup, lease, id, c, reply), next, id, c.second)
    ensures c.call == Validate(id) ==>
      (Step(setup, s, c).0.Valid? <==> lease.Held? && Alive(setup.config, lease.stamp, c.first))
  {
    PruneDropsExactly(setup, s, c.first);
    match c.call
    case Open(_) =>
    case Validate(_) =>
    case Close(_) =>
    case Count =>
  }

  lemma {:induction false} LeaseRun(setup: Setup, r: Run, from: Instant, id: string, i: nat)
    requires RunFrom(setup, r, from) && i <= |r.calls|
    ensures LeaseDescribes(setup, LeaseAt(setup, r, id, i), r.states[i], id, ClockAt(r.calls, from, i))
  {
    if i == 0 {
    } else {
      LeaseRun(setup, r, from, id, i - 1);
      StepOf(Lazy, setup, r, i - 1);
      ClockOf(r.calls, from, i - 1);
      RunKeepsLimit(setup, r, from, i - 1);
      LeaseStep(setup, LeaseAt(setup, r, id, i - 1), r.states[i - 1], id, r.calls[i - 1],
                ClockAt(r.calls, from, i - 1));
    }
  }

  /** Whatever other clients do in between, an id validates exactly while its own lease lives. */
  lemma {:induction false} ValidatesExactlyWhileLeased(setup: Setup, r: Run, from: Instant, id: string, i: nat)
    requires RunFrom(setup, r, from) && i < |r.calls| && r.calls[i].call == Validate(id)
    ensures
      var lease := LeaseAt(setup, r, id, i);
      r.replies[i].Valid? <==> lease.Held? && Alive(setup.config, lease.stamp, r.calls[i].first)
  {
    LeaseRun(setup, r, from, id, i);
    StepOf(Lazy, setup, r, i);
    ClockOf(r.calls, from, i);
    RunKeepsLimit(setup, r, from, i);
    LeaseStep(setup, LeaseAt(setup, r, id, i), r.states[i], id, r.calls[i], ClockAt(r.calls, from, i));
  }

  /** Calls `0..i` never close `id`, and each validate of it comes in time after the previous stamp. */
  ghost predicate KeptAlive(setup: Setup, cs: seq<Timed>, id: string, stamp: Instant, i: nat)
    requires i <= |cs|
    decreases i
  {
    forall j | 0 <= j < i ::
      && cs[j].call != Close(id)
      && (cs[j].call == Validate(id) ==> Alive(setup.config, LastStamp(cs, id, stamp, j), cs[j].first))
  }

  /** The stamp the last validate of `id` among calls `0..i` left, if each succeeded. */
  ghost function LastStamp(cs: seq<Timed>, id: string, stamp: Instant, i: nat): Instant
    requires i <= |cs|
  {
    if i == 0 then stamp
    else if cs[i - 1].call == Validate(id) then cs[i - 1].second
    else LastStamp(cs, id, stamp, i - 1)
  }

  /** Until its next validate in time, a session is alive at every call in between. */
  lemma {:induction false} AliveUntilRenewed(setup: Setup, cs: seq<Timed>, from: Instant, id: string, stamp: Instant,
                                             j: nat, i: nat)
    requires Monotone(cs, from) && j <= i < |cs| && cs[i].call == Validate(id)
    requires KeptAlive(setup, cs, id, stamp, i + 1)
    ensures Alive(setup.config, LastStamp(cs, id, stamp, j), cs[j].first)
    decreases i - j
  {
    if cs[j].call != Validate(id) {
      AliveUntilRenewed(setup, cs, from, id, stamp, j + 1, i);
      ClockOf(cs, from, j);
      ClockOf(cs, from, j + 1);
    }
  }

  /** One call, whoever makes it, leaves a live session alone: no open can be given its id. */
  lemma {:induction false} LiveSessionStays(setup: Setup, s: State, c: Timed, id: string)
    requires setup.Ok() && id in s.sessions && c.call != Close(id)
    requires s.sessions[id].lastAccess <= c.first && Alive(setup.config, s.sessions[id].lastAccess, c.first)
    ensures
      var (reply, next) := Step(setup, s, c);
      && id in next.sessions && (c.call == Validate(id) ==> reply.Valid?)
      && next.sessions[id].lastAccess == (if c.call == Validate(id) then c.second else s.sessions[id].lastAccess)
  {
    ExpiryIsExact(setup.config, s.sessions[id], c.first);
    assert id in Pruned(setup.config, s.sessions, c.first);
  }

  lemma {:induction false} KeptSessionStays(setup: Setup, r: Run, from: Instant, id: string, j: nat, i: nat)
    requires RunFrom(setup, r, from) && j <= i < |r.calls| && r.calls[i].call == Validate(id)
    requires id in r.states[0].sessions
    requires KeptAlive(setup, r.calls, id, r.states[0].sessions[id].lastAccess, i + 1)
    ensures id in r.states[j].sessions
    ensures r.states[j].sessions[id].lastAccess == LastStamp(r.calls, id, r.states[0].sessions[id].lastAccess, j)
    ensures r.states[j].sessions[id].lastAccess <= r.calls[j].first
    ensures Alive(setup.config, r.states[j].sessions[id].lastAccess, r.calls[j].first)
  {
    var stamp := r.states[0].sessions[id].lastAccess;
    if j > 0 {
      KeptSessionStays(setup, r, from, id, j - 1, i);
      assert (r.replies[j - 1], r.states[j]) == Step(setup, r.states[j - 1], r.calls[j - 1]) by {
        StepOf(Lazy, setup, r, j - 1);
      }
      LiveSessionStays(setup, r.states[j - 1], r.calls[j - 1], id);
    }
    assert Alive(setup.config, LastStamp(r.calls, id, stamp, j), r.calls[j].first) by {
      AliveUntilRenewed(setup, r.calls, from, id, stamp, j, i);
    }
    assert r.states[j].sessions[id].lastAccess <= r.calls[j].first by {
      RunKeepsLimit(setup, r, from, j);
      ClockOf(r.calls, from, j);
    }
  }

  /** A session used often enough is never lost, whatever calls of others come in between. */
  lemma {:induction false} RenewalKeepsSession(setup: Setup, r: Run, from: Instant, id: string, i: nat)
    requires RunFrom(setup, r, from) && i < |r.calls| && r.calls[i].call == Validate(id)
    requires id in r.states[0].sessions
    requires KeptAlive(setup, r.calls, id, r.states[0].sessions[id].lastAccess, i + 1)
    ensures r.replies[i].Valid?
  {
    KeptSessionStays(setup, r, from, id, i, i);
    StepOf(Lazy, setup, r, i);
    LiveSessionStays(setup, r.states[i], r.calls[i], id);
  }

  // ---------------------------------------------------------------------
  // Exclusive use
  // ---------------------------------------------------------------------

  /** With the server's limit of one, no two ids validate in the same state, at whatever times. */
  lemma {:induction false} AtMostOneIdValidates(setup: Setup, r: Run, from: Instant, i: nat, a: Timed, b: Timed)
    requires RunFrom(setup, r, from) && i <= |r.calls| && setup.config.maxSessions == 1
    requires a.call.Validate? && Step(setup, r.states[i], a).0.Valid?
    requires b.call.Validate? && Step(setup, r.states[i], b).0.Valid?
    ensures a.call.id == b.call.id
  {
    RunKeepsLimit(setup, r, from, i);
    var held := r.states[i].sessions;
    if a.call.id != b.call.id {
      SubsetIsNoLarger({a.call.id, b.call.id}, held.Keys);
    }
  }

  lemma {:induction false} DrawnGrows(setup: Setup, r: Run, i: nat, j: nat)
    requires setup.Ok() && Legal(Lazy, setup, r) && i <= j <= |r.calls|
    ensures r.states[i].drawn <= r.states[j].drawn
    decreases j - i
  {
    if i < j {
      DrawnGrows(setup, r, i, j - 1);
      StepOf(Lazy, setup, r, j - 1);
      StepFrame(setup, r.states[j - 1], r.calls[j - 1]);
    }
  }

  lemma {:induction false} RetiredStep(setup: Setup, s: State, c: Timed, k: nat, limit: nat)
    requires setup.Ok() && DistinctBetween(setup.texts, 0, limit)
    requires k < s.drawn && Step(setup, s, c).1.drawn <= limit
    requires setup.texts(k) !in s.sessions
    ensures setup.texts(k) !in Step(setup, s, c).1.sessions
  {
    StepFrame(setup, s, c);
    var (reply, next) := Step(setup, s, c);
    if reply == Opened(setup.texts(k)) {
      assert k < next.drawn - 1;
    }
  }

  /** While the generator does not repeat itself, an issued id that is gone never comes back. */
  lemma {:induction false} RetiredIdStaysGone(setup: Setup, r: Run, k: nat, i: nat, j: nat, limit: nat)
    requires setup.Ok() && Legal(Lazy, setup, r) && i <= j <= |r.calls|
    requires k < r.states[i].drawn
    requires setup.texts(k) !in r.states[i].sessions
    requires r.states[j].drawn <= limit && DistinctBetween(setup.texts, 0, limit)
    ensures setup.texts(k) !in r.states[j].sessions
    decreases j - i
  {
    if i < j {
      assert k < r.states[j - 1].drawn <= limit && setup.texts(k) !in r.states[j - 1].sessions by {
        DrawnGrows(setup, r, i, j - 1);
        DrawnGrows(setup, r, j - 1, j);
        RetiredIdStaysGone(setup, r, k, i, j - 1, limit);
      }
      RetiredAfter(setup, r, k, j - 1, limit);
    }
  }

  lemma {:induction false} RetiredAfter(setup: Setup, r: Run, k: nat, i: nat, limit: nat)
    requires setup.Ok() && Legal(Lazy, setup, r) && i < |r.calls|
    requires k < r.states[i].drawn && setup.texts(k) !in r.states[i].sessions
    requires r.states[i + 1].drawn <= limit && DistinctBetween(setup.texts, 0, limit)
    ensures setup.texts(k) !in r.states[i + 1].sessions
  {
    assert r.states[i + 1] == Step(setup, r.states[i], r.calls[i]).1 by {
      StepOf(Lazy, setup, r, i);
    }
    RetiredStep(setup, r.states[i], r.calls[i], k, limit);
  }

  lemma {:induction false} IssuedStep(setup: Setup, s: State, c: Timed) returns (k: nat)
    requires setup.Ok() && Step(setup, s, c).0.Opened?
    ensures s.drawn <= k < Step(setup, s, c).1.drawn
    ensures Step(setup, s, c).0.id == setup.texts(k)
    ensures Step(setup, s, c).0.id in Step(setup, s, c).1.sessions
  {
    StepFrame(setup, s, c);
    OpenedIsHeld(setup, s, c);
    k := Step(setup, s, c).1.drawn - 1;
  }

  lemma {:induction false} OnlyOneHeld(setup: Setup, s: State, a: string, b: string)
    requires WithinLimit(setup, s) && setup.config.maxSessions == 1
    requires a in s.sessions && b in s.sessions
    ensures a == b
  {
    if a != b {
      SubsetIsNoLarger({a, b}, s.sessions.Keys);
    }
  }

  /** After a second open the first id is retired. */
  lemma {:induction false} SecondOpenRetiresFirst(setup: Setup, r: Run, from: Instant, i: nat, j: nat, limit: nat)
    returns (k: nat)
    requires RunFrom(setup, r, from) && setup.config.maxSessions == 1
    requires i < j < |r.calls| && r.states[j + 1].drawn <= limit && DistinctBetween(setup.texts, 0, limit)
    requires r.replies[i].Opened? && r.replies[j].Opened?
    ensures k < r.states[j + 1].drawn
    ensures r.replies[i].id == setup.texts(k)
    ensures setup.texts(k) !in r.states[j + 1].sessions
  {
    StepOf(Lazy, setup, r, i);
    StepOf(Lazy, setup, r, j);
    k := IssuedStep(setup, r.states[i], r.calls[i]);
    var l := IssuedStep(setup, r.states[j], r.calls[j]);
    DrawnGrows(setup, r, i + 1, j);
    RunKeepsLimit(setup, r, from, j + 1);
    if setup.texts(k) in r.states[j + 1].sessions {
      OnlyOneHeld(setup, r.states[j + 1], setup.texts(k), setup.texts(l));
    }
  }

  /** With a limit of one, a session that another open has followed never validates again. */
  lemma {:induction false} HandOverIsFinal(setup: Setup, r: Run, from: Instant, i: nat, j: nat, l: nat)
    requires RunFrom(setup, r, from) && setup.config.maxSessions == 1
    requires i < j < l < |r.calls|
    requires r.replies[i].Opened? && r.replies[j].Opened?
    requires r.calls[l].call == Validate(r.replies[i].id)
    requires DistinctBetween(setup.texts, 0, r.states[l].drawn)
    ensures r.replies[l] == Unknown
  {
    var limit := r.states[l].drawn;
    DrawnGrows(setup, r, j + 1, l);
    var k := SecondOpenRetiresFirst(setup, r, from, i, j, limit);
    RetiredIdStaysGone(setup, r, k, j + 1, l, limit);
    StepOf(Lazy, setup, r, l);
    UnheldIsUnknown(setup, r.states[l], r.calls[l]);
  }

  lemma {:induction false} UnheldIsUnknown(setup: Setup, s: State, c: Timed)
    requires setup.Ok() && c.call.Validate? && c.call.id !in s.sessions
    ensures Step(setup, s, c).0 == Unknown
  {
  }

  // ---------------------------------------------------------------------
  // Recovery of an orphaned session
  // ---------------------------------------------------------------------

  /** No call in `0..i` obtained or renewed a session. */
  ghost predicate NobodyServed(setup: Setup, r: Run, i: nat)
    requires setup.Ok() && Legal(Lazy, setup, r) && i <= |r.calls|
  {
    forall j | 0 <= j < i :: !r.replies[j].Valid? && !r.replies[j].Opened?
  }

  lemma {:induction false} UnservedSessionsOnlyShrink(setup: Setup, r: Run, i: nat)
    requires setup.Ok() && Legal(Lazy, setup, r) && i <= |r.calls| && NobodyServed(setup, r, i)
    ensures
      var t := r.states[i].sessions;
      forall id | id in t :: id in r.states[0].sessions && t[id] == r.states[0].sessions[id]
  {
    if i == 0 {
    } else {
      UnservedSessionsOnlyShrink(setup, r, i - 1);
      assert !r.replies[i - 1].Valid? && !r.replies[i - 1].Opened?;
      StepOf(Lazy, setup, r, i - 1);
      UnservedStepOnlyShrinks(setup, r.states[i - 1], r.calls[i - 1]);
    }
  }

  /**
    Sessions whose clients are gone block others for the idle timeout and no longer: if
    nobody was served since `from`, an open after the timeout succeeds.
   */
  lemma {:induction false} OrphansExpire(setup: Setup, r: Run, from: Instant, i: nat)
    requires RunFrom(setup, r, from) && i < |r.calls| && r.calls[i].call.Open?
    requires NobodyServed(setup, r, i)
    requires r.calls[i].first - from >= setup.config.idleTimeoutSeconds * NANOS
    ensures r.replies[i].Opened?
  {
    UnservedSessionsOnlyShrink(setup, r, i);
    StepOf(Lazy, setup, r, i);
    ClockOf(r.calls, from, i);
    RunKeepsLimit(setup, r, from, i);
    var t := r.states[i];
    forall id | id in t.sessions ensures Expired(setup.config, t.sessions[id], r.calls[i].first) {
      ExpiryIsExact(setup.config, t.sessions[id], r.calls[i].first);
    }
    assert Pruned(setup.config, t.sessions, r.calls[i].first) == map[];
  }

  /**
    With a limit of one the block lasts exactly that long: while the orphan is neither
    validated nor closed, an open is refused if and only if the timeout has not passed.
   */
  lemma {:induction false} OrphanBlocksExactlyForTheTimeout(setup: Setup, r: Run, from: Instant, id: string, i: nat)
    requires RunFrom(setup, r, from) && setup.config.maxSessions == 1
    requires r.states[0].sessions.Keys == {id}
    requires i < |r.calls| && r.calls[i].call.Open?
    requires forall j | 0 <= j < i :: r.calls[j].call != Validate(id) && r.calls[j].call != Close(id)
    requires forall j | 0 <= j < i :: r.replies[j] == Full || !r.calls[j].call.Open?
    ensures r.replies[i] == Full <==> Alive(setup.config, r.states[0].sessions[id].lastAccess, r.calls[i].first)
  {
    OrphanIsAlone(setup, r, from, id, i);
    LeaseRun(setup, r, from, id, i);
    StepOf(Lazy, setup, r, i);
    ClockOf(r.calls, from, i);
    RunKeepsLimit(setup, r, from, i);
    var t := r.states[i];
    PruneDropsExactly(setup, t, r.calls[i].first);
    var live := Pruned(setup.config, t.sessions, r.calls[i].first);
    if id in live {
      assert live.Keys == {id};
    } else {
      assert live == map[];
    }
  }

  lemma {:induction false} OrphanIsAlone(setup: Setup, r: Run, from: Instant, id: string, i: nat)
    requires RunFrom(setup, r, from) && i <= |r.calls|
    requires r.states[0].sessions.Keys == {id}
    requires forall j | 0 <= j < i :: r.calls[j].call != Validate(id) && r.calls[j].call != Close(id)
    requires forall j | 0 <= j < i :: r.replies[j] == Full || !r.calls[j].call.Open?
    ensures r.states[i].sessions.Keys <= {id}
    ensures LeaseAt(setup, r, id, i) == Held(r.states[0].sessions[id].lastAccess)
  {
    if i == 0 {
    } else {
      var s, c, lease := r.states[i - 1], r.calls[i - 1], LeaseAt(setup, r, id, i - 1);
      assert s.sessions.Keys <= {id} && lease == Held(r.states[0].sessions[id].lastAccess) by {
        OrphanIsAlone(setup, r, from, id, i - 1);
      }
      assert (r.replies[i - 1], r.states[i]) == Step(setup, s, c) by {
        StepOf(Lazy, setup, r, i - 1);
      }
      OrphanStep(setup, lease, s, id, c);
    }
  }

  lemma {:induction false} OrphanStep(setup: Setup, lease: Lease, s: State, id: string, c: Timed)
    requires setup.Ok() && s.sessions.Keys <= {id}
    requires c.call != Validate(id) && c.call != Close(id)
    requires Step(setup, s, c).0 == Full || !c.call.Open?
    ensures Step(setup, s, c).1.sessions.Keys <= {id}
    ensures LeaseAfter(setup, lease, id, c, Step(setup, s, c).0) == lease
  {
    StepFrame(setup, s, c);
  }
}
