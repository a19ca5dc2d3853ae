/**
  The session store and the engine together: requests are admitted with a session and then run in the
  engine without the store's mutex, while other calls change the store. There is one clock, the engine's.
 */
module SessionsOnNpu {
  import opened SessionStore
  import opened Wrappers
  import Leases
  import Npu
  import NpuProgress
  import NpuTheorems
  import SessionIds

  const CLOCK_END := 0x8000_0000_0000_0000

  /** `owners` tells for every request that reached the engine the id it was admitted with. */
  datatype Joint = Joint(store: State, engine: Npu.State, owners: map<nat, string>)

  /**
    A call on the store; a request whose id validates and that goes on to the engine, in a thread of its own;
    a thread's next action; time. Between admission and the thread's first action anything may happen.
   */
  datatype Action =
    | CallStore(call: Timed)
    | Admit(thread: nat, request: Npu.Request, id: string, first: Instant, second: Instant)
    | Proceed(thread: nat, fault: Npu.Fault)
    | Wait(nanos: nat)

  /** The call an action makes on the store. */
  function CallOf(a: Action): Option<Timed> {
    match a
    case CallStore(call) => Some(call)
    case Admit(_, _, id, first, second) => Some(Timed(Call.Validate(id), first, second))
    case _ => None
  }

  ghost predicate Possible(setup: Setup, s: Joint, a: Action)
    requires setup.Ok()
  {
    && (CallOf(a).Some? ==> s.engine.now <= CallOf(a).value.first <= CallOf(a).value.second)
    && (a.Admit? ==> a.thread !in s.engine.threads && Step(setup, s.store, CallOf(a).value).0.Valid?)
    && (a.Proceed? ==> Npu.Enabled(s.engine, Npu.Act(a.thread, a.fault)))
    && (a.Wait? ==> s.engine.now + a.nanos < CLOCK_END)
  }

  ghost function Next(setup: Setup, dev: Npu.Device, s: Joint, a: Action): Joint
    requires setup.Ok() && dev.Ok() && Possible(setup, s, a)
  {
    match a
    case CallStore(c) => s.(store := Step(setup, s.store, c).1, engine := s.engine.(now := c.second))
    case Admit(t, request, id, _, second) =>
      Joint(Step(setup, s.store, CallOf(a).value).1,
            Npu.Apply(dev, s.engine.(now := second), Npu.Arrive(t, request)),
            s.owners[t := id])
    case Proceed(t, fault) => s.(engine := Npu.Apply(dev, s.engine, Npu.Act(t, fault)))
    case Wait(nanos) => s.(engine := Npu.Apply(dev, s.engine, Npu.Tick(nanos)))
  }

  datatype Run = Run(actions: seq<Action>, states: seq<Joint>)

  ghost predicate StepHolds(setup: Setup, dev: Npu.Device, r: Run, i: nat)
    requires setup.Ok() && dev.Ok() && |r.states| == |r.actions| + 1 && i < |r.actions|
  {
    Possible(setup, r.states[i], r.actions[i]) && r.states[i + 1] == Next(setup, dev, r.states[i], r.actions[i])
  }

  /** A run of the server from its start. */
  ghost predicate Legal(setup: Setup, dev: Npu.Device, r: Run) {
    && setup.Ok() && dev.Ok()
    && |r.states| == |r.actions| + 1
    && r.states[0].store == State(map[], 0) && r.states[0].owners == map[]
    && Npu.Idle(dev, r.states[0].engine) && r.states[0].engine.now < CLOCK_END
    && forall i: nat | i < |r.actions| :: StepHolds(setup, dev, r, i)
  }

  lemma {:induction false} StepOf(setup: Setup, dev: Npu.Device, r: Run, i: nat)
    requires Legal(setup, dev, r) && i < |r.actions|
    ensures Possible(setup, r.states[i], r.actions[i])
    ensures r.states[i + 1] == Next(setup, dev, r.states[i], r.actions[i])
  {
    assert StepHolds(setup, dev, r, i);
  }

  // ---------------------------------------------------------------------
  // Each part behaves as it does alone
  // ---------------------------------------------------------------------

  ghost predicate Sound(setup: Setup, s: Joint) {
    && s.engine.now < CLOCK_END
    && WithinLimit(setup, s.store)
    && Leases.StampedBy(s.store, s.engine.now)
    && s.owners.Keys == s.engine.threads.Keys
  }

  lemma {:induction false} ClockAndThreads(dev: Npu.Device, s: Npu.State, t: nat, fault: Npu.Fault)
    requires dev.Ok() && Npu.Enabled(s, Npu.Act(t, fault))
    ensures
      var next := Npu.Apply(dev, s, Npu.Act(t, fault));
      next.now == s.now && next.threads.Keys == s.threads.Keys
  {
  }

  lemma {:induction false} SoundKept(setup: Setup, dev: Npu.Device, s: Joint, a: Action)
    requires setup.Ok() && dev.Ok() && Sound(setup, s) && Possible(setup, s, a)
    ensures Sound(setup, Next(setup, dev, s, a))
  {
    match a
    case Proceed(t, fault) => ClockAndThreads(dev, s.engine, t, fault);
    case Wait(_) =>
    case _ =>
      StepKeepsLimit(setup, s.store, CallOf(a).value);
      StampsKept(setup, s.store, s.engine.now, CallOf(a).value);
  }

  lemma {:induction false} StampsKept(setup: Setup, s: State, now: Instant, c: Timed)
    requires setup.Ok() && Leases.StampedBy(s, now) && now <= c.first <= c.second
    ensures Leases.StampedBy(Step(setup, s, c).1, c.second)
  {
  }

  lemma {:induction false} RunIsSound(setup: Setup, dev: Npu.Device, r: Run, i: nat)
    requires Legal(setup, dev, r) && i <= |r.actions|
    ensures Sound(setup, r.states[i])
  {
    if i > 0 {
      RunIsSound(setup, dev, r, i - 1);
      StepOf(setup, dev, r, i - 1);
      SoundKept(setup, dev, r.states[i - 1], r.actions[i - 1]);
    }
  }

  /** What happens in the engine is a run of the engine alone, in which calls on the store pass as time. */
  lemma {:induction false} EngineRun(setup: Setup, dev: Npu.Device, r: Run, i: nat) returns (alone: Npu.Run)
    requires Legal(setup, dev, r) && i <= |r.actions|
    ensures Npu.Legal(dev, alone) && NpuProgress.Last(alone) == r.states[i].engine
  {
    if i == 0 {
      alone := Npu.Run([], [r.states[0].engine]);
    } else {
      alone := EngineRun(setup, dev, r, i - 1);
      var s, a := r.states[i - 1], r.actions[i - 1];
      StepOf(setup, dev, r, i - 1);
      match a
      case Proceed(t, fault) => alone := NpuProgress.Extend(dev, alone, Npu.Act(t, fault));
      case Wait(nanos) => alone := NpuProgress.Extend(dev, alone, Npu.Tick(nanos));
      case CallStore(c) => alone := NpuProgress.Extend(dev, alone, Npu.Tick(c.second - s.engine.now));
      case Admit(t, request, _, _, second) =>
        alone := NpuProgress.Extend(dev, alone, Npu.Tick(second - s.engine.now));
        alone := NpuProgress.Extend(dev, alone, Npu.Arrive(t, request));
    }
  }

  /** So a request gets its own result and shares the NPU with nobody, whatever has become of its session. */
  lemma {:induction false} RequestsKeepTheirGuarantees(setup: Setup, dev: Npu.Device, r: Run, i: nat, t: nat, u: nat)
    requires Legal(setup, dev, r) && i <= |r.actions|
    requires t in r.states[i].engine.threads && u in r.states[i].engine.threads
    ensures
      var threads := r.states[i].engine.threads;
      && (threads[t].pc.Returned? && threads[t].reply.Done? ==>
            threads[t].reply.outcome == NpuTheorems.PureOutcome(dev, threads[t].request))
      && (Npu.Critical(threads[t].pc) && Npu.Critical(threads[u].pc) ==> t == u)
  {
    var alone := EngineRun(setup, dev, r, i);
    var last := |alone.events|;
    var threads := r.states[i].engine.threads;
    if threads[t].pc.Returned? && threads[t].reply.Done? {
      NpuTheorems.CompletedRequestsGetTheirOwnResult(dev, alone, last, t);
    }
    if Npu.Critical(threads[t].pc) && Npu.Critical(threads[u].pc) {
      NpuTheorems.MutualExclusion(dev, alone, last, t, u);
    }
  }

  // ---------------------------------------------------------------------
  // The session of a request in the engine
  // ---------------------------------------------------------------------

  /** The lease of the request admitted by action `a`, as the calls on its own id since then leave it. */
  ghost function OwnLease(setup: Setup, r: Run, a: nat, i: nat): Leases.Lease
    requires setup.Ok() && |r.states| == |r.actions| + 1
    requires a < i <= |r.actions| && r.actions[a].Admit?
  {
    if i == a + 1 then Leases.Held(r.actions[a].second)
    else
      var before := OwnLease(setup, r, a, i - 1);
      match CallOf(r.actions[i - 1])
      case None => before
      case Some(c) =>
        Leases.LeaseAfter(setup, before, r.actions[a].id, c, Step(setup, r.states[i - 1].store, c).0)
  }

  ghost predicate Lives(setup: Setup, lease: Leases.Lease, now: Instant) {
    lease.Held? && Leases.Alive(setup.config, lease.stamp, now)
  }

  lemma {:induction false} OwnLeaseDescribes(setup: Setup, dev: Npu.Device, r: Run, a: nat, i: nat)
    requires Legal(setup, dev, r) && a < i <= |r.actions| && r.actions[a].Admit?
    ensures Sound(setup, r.states[i])
    ensures
      Leases.LeaseDescribes(setup, OwnLease(setup, r, a, i), r.states[i].store, r.actions[a].id, r.states[i].engine.now)
  {
    RunIsSound(setup, dev, r, i);
    var s, action, id := r.states[i - 1], r.actions[i - 1], r.actions[a].id;
    assert Possible(setup, s, action) && r.states[i] == Next(setup, dev, s, action) by {
      StepOf(setup, dev, r, i - 1);
    }
    if i == a + 1 {
      AdmittedIsHeld(setup, s.store, CallOf(action).value);
    } else {
      OwnLeaseDescribes(setup, dev, r, a, i - 1);
      LeaseKept(setup, dev, s, action, OwnLease(setup, r, a, i - 1), id);
    }
  }

  lemma {:induction false} LeaseKept(setup: Setup, dev: Npu.Device, s: Joint, action: Action, lease: Leases.Lease,
        id: string)
    requires setup.Ok() && dev.Ok() && Sound(setup, s) && Possible(setup, s, action)
    requires Leases.LeaseDescribes(setup, lease, s.store, id, s.engine.now)
    requires Next(setup, dev, s, action).engine.now < CLOCK_END
    ensures
      var after := match CallOf(action)
        case None => lease
        case Some(c) => Leases.LeaseAfter(setup, lease, id, c, Step(setup, s.store, c).0);
      var next := Next(setup, dev, s, action);
      Leases.LeaseDescribes(setup, after, next.store, id, next.engine.now)
  {
    match action
    case Proceed(t, fault) => ClockAndThreads(dev, s.engine, t, fault);
    case Wait(_) =>
    case _ => Leases.LeaseStep(setup, lease, s.store, id, CallOf(action).value, s.engine.now);
  }

  lemma {:induction false} AdmittedIsHeld(setup: Setup, s: State, c: Timed)
    requires setup.Ok() && c.call.Validate? && Step(setup, s, c).0.Valid?
    ensures c.call.id in Step(setup, s, c).1.sessions
    ensures Step(setup, s, c).1.sessions[c.call.id].lastAccess == c.second
  {
  }

  /**
    At any time after its admission, the id of a request would validate if and only if its own lease lives,
    whatever other clients do and however far the request has come in the engine.
   */
  lemma {:induction false} RequestStillValidatesExactlyWhileLeased(setup: Setup, dev: Npu.Device, r: Run, a: nat,
        i: nat, c: Timed)
    requires Legal(setup, dev, r) && a < i <= |r.actions| && r.actions[a].Admit?
    requires c.call == Validate(r.actions[a].id) && r.states[i].engine.now <= c.first <= c.second
    ensures Step(setup, r.states[i].store, c).0.Valid? <==> Lives(setup, OwnLease(setup, r, a, i), c.first)
  {
    OwnLeaseDescribes(setup, dev, r, a, i);
    Leases.LeaseStep(setup, OwnLease(setup, r, a, i), r.states[i].store, r.actions[a].id, c, r.states[i].engine.now);
  }

  /** Every request in the engine was admitted, with the id that owns it. */
  lemma {:induction false} RequestWasAdmitted(setup: Setup, dev: Npu.Device, r: Run, i: nat, t: nat) returns (a: nat)
    requires Legal(setup, dev, r) && i <= |r.actions| && t in r.states[i].engine.threads
    ensures a < i && r.actions[a].Admit? && r.actions[a].thread == t
    ensures t in r.states[i].owners && r.states[i].owners[t] == r.actions[a].id
  {
    RunIsSound(setup, dev, r, i);
    RunIsSound(setup, dev, r, i - 1);
    StepOf(setup, dev, r, i - 1);
    if r.actions[i - 1].Admit? && r.actions[i - 1].thread == t {
      a := i - 1;
    } else {
      assert t in r.states[i - 1].owners;
      a := RequestWasAdmitted(setup, dev, r, i - 1, t);
    }
  }

  /** The same for a request that is in the engine, through the action that admitted it. */
  lemma {:induction false} OwnerValidatesExactlyWhileLeased(setup: Setup, dev: Npu.Device, r: Run, i: nat, t: nat,
                                                            first: Instant, second: Instant) returns (a: nat)
    requires Legal(setup, dev, r) && i <= |r.actions| && t in r.states[i].engine.threads
    requires r.states[i].engine.now <= first <= second
    ensures a < i && r.actions[a].Admit? && r.actions[a].thread == t
    ensures t in r.states[i].owners && r.states[i].owners[t] == r.actions[a].id
    ensures
      Step(setup, r.states[i].store, Timed(Call.Validate(r.states[i].owners[t]), first, second)).0.Valid? <==>
        Lives(setup, OwnLease(setup, r, a, i), first)
  {
    a := RequestWasAdmitted(setup, dev, r, i, t);
    var c := Timed(Call.Validate(r.actions[a].id), first, second);
    RequestStillValidatesExactlyWhileLeased(setup, dev, r, a, i, c);
  }

  // ---------------------------------------------------------------------
  // Requests of two sessions
  // ---------------------------------------------------------------------

  /** Action `k` closes the id admitted by action `a`. */
  ghost predicate ClosedAt(r: Run, a: nat, k: nat)
    requires a < |r.actions| && r.actions[a].Admit? && k < |r.actions|
  {
    CallOf(r.actions[k]).Some? && CallOf(r.actions[k]).value.call == Close(r.actions[a].id)
  }

  /** At action `k`'s call, the timeout has passed since the last stamp of the id admitted by action `a`. */
  ghost predicate ExpiredAt(setup: Setup, r: Run, a: nat, k: nat)
    requires setup.Ok() && |r.states| == |r.actions| + 1
    requires a < k < |r.actions| && r.actions[a].Admit?
  {
    var lease := OwnLease(setup, r, a, k);
    && CallOf(r.actions[k]).Some? && lease.Held?
    && !Leases.Alive(setup.config, lease.stamp, CallOf(r.actions[k]).value.first)
  }

  lemma {:induction false} LostLease(setup: Setup, r: Run, a: nat, i: nat) returns (k: nat)
    requires setup.Ok() && |r.states| == |r.actions| + 1
    requires a < i <= |r.actions| && r.actions[a].Admit? && OwnLease(setup, r, a, i).NoLease?
    ensures a < k < i && (ClosedAt(r, a, k) || ExpiredAt(setup, r, a, k))
  {
    if OwnLease(setup, r, a, i - 1).NoLease? {
      k := LostLease(setup, r, a, i - 1);
    } else {
      k := i - 1;
    }
  }

  /**
    With the server's limit of one: before a request of another session is admitted, the session of every
    request admitted earlier has been closed or has expired, whether or not that request is still in the engine.
   */
  lemma {:induction false} OtherSessionComesAfterTheEnd(setup: Setup, dev: Npu.Device, r: Run, a: nat, b: nat)
    returns (k: nat)
    requires Legal(setup, dev, r) && setup.config.maxSessions == 1 && a < b < |r.actions|
    requires r.actions[a].Admit? && r.actions[b].Admit? && r.actions[a].id != r.actions[b].id
    ensures !Lives(setup, OwnLease(setup, r, a, b), r.actions[b].first)
    ensures a < k <= b && (ClosedAt(r, a, k) || ExpiredAt(setup, r, a, k))
  {
    StepOf(setup, dev, r, b);
    RunIsSound(setup, dev, r, b);
    var store, c := r.states[b].store, CallOf(r.actions[b]).value;
    RequestStillValidatesExactlyWhileLeased(setup, dev, r, a, b, c.(call := Validate(r.actions[a].id)));
    OnlyOneValidates(setup, store, r.actions[a].id, c);
    if OwnLease(setup, r, a, b).NoLease? {
      k := LostLease(setup, r, a, b);
    } else {
      k := b;
    }
  }

  /** Two requests of different sessions in the engine: the earlier one's session ended before the later one came. */
  lemma {:induction false} TwoSessionsMeetOnlyAfterTheEnd(setup: Setup, dev: Npu.Device, r: Run, i: nat, t: nat, u: nat)
    returns (a: nat, b: nat, k: nat)
    requires Legal(setup, dev, r) && setup.config.maxSessions == 1 && i <= |r.actions|
    requires t in r.states[i].owners && u in r.states[i].owners && r.states[i].owners[t] != r.states[i].owners[u]
    ensures a < b < i && r.actions[a].Admit? && r.actions[b].Admit?
    ensures {r.actions[a].thread, r.actions[b].thread} == {t, u}
    ensures a < k <= b && (ClosedAt(r, a, k) || ExpiredAt(setup, r, a, k))
  {
    RunIsSound(setup, dev, r, i);
    a := RequestWasAdmitted(setup, dev, r, i, t);
    b := RequestWasAdmitted(setup, dev, r, i, u);
    if b < a {
      a, b := b, a;
    }
    k := OtherSessionComesAfterTheEnd(setup, dev, r, a, b);
  }

  lemma {:induction false} OnlyOneValidates(setup: Setup, s: State, id: string, c: Timed)
    requires setup.Ok() && setup.config.maxSessions == 1 && WithinLimit(setup, s)
    requires c.call.Validate? && c.call.id != id && Step(setup, s, c).0.Valid?
    ensures !Step(setup, s, c.(call := Validate(id))).0.Valid?
  {
    if id in s.sessions {
      SessionIds.SubsetIsNoLarger({id, c.call.id}, s.sessions.Keys);
    }
  }

  // ---------------------------------------------------------------------
  // A request outlives its session
  // ---------------------------------------------------------------------

  function Last(r: Run): Joint
    requires r.states != []
  {
    r.states[|r.states| - 1]
  }

  lemma {:induction false} Extend(setup: Setup, dev: Npu.Device, r: Run, a: Action) returns (longer: Run)
    requires Legal(setup, dev, r) && Possible(setup, Last(r), a)
    ensures Legal(setup, dev, longer) && Last(longer) == Next(setup, dev, Last(r), a)
    ensures longer.states[0] == r.states[0]
  {
    longer := Run(r.actions + [a], r.states + [Next(setup, dev, Last(r), a)]);
    forall i: nat | i < |longer.actions| ensures StepHolds(setup, dev, longer, i) {
      if i < |r.actions| {
        StepOf(setup, dev, r, i);
      }
    }
  }

  /** An id that was just opened, alone in the store. */
  ghost predicate HoldsOnly(s: State, id: string, stamp: Instant) {
    s.sessions.Keys == {id} && s.sessions[id].lastAccess == stamp
  }

  lemma {:induction false} OpenInEmpty(setup: Setup, s: State, modelName: string, now: Instant)
    requires setup.Ok() && s.sessions == map[]
    ensures
      var next := Step(setup, s, Timed(Call.Open(modelName), now, now)).1;
      && next.drawn == s.drawn + 1 && HoldsOnly(next, setup.texts(s.drawn), now)
  {
    assert Pruned(setup.config, s.sessions, now) == map[];
    SessionIds.OneSessionNeedsOneAttempt(setup.texts, s.drawn, {});
  }

  lemma {:induction false} ValidateAtOnce(setup: Setup, s: State, id: string, now: Instant)
    requires setup.Ok() && HoldsOnly(s, id, now)
    ensures
      var (reply, next) := Step(setup, s, Timed(Call.Validate(id), now, now));
      reply.Valid? && next.drawn == s.drawn && HoldsOnly(next, id, now)
  {
    ExpiryIsExact(setup.config, s.sessions[id], now);
  }

  /** An engine with the threads given, nothing in the NPU, at the start of time. */
  ghost predicate Calm(s: Npu.State, threads: map<nat, Npu.Thread>) {
    s.now == 0 && s.holder == Npu.Free && s.threads == threads
  }

  /** A client opens a session and is admitted. */
  lemma {:induction false} FirstClient(setup: Setup, dev: Npu.Device, engine: Npu.State, modelName: string,
                                       request: Npu.Request) returns (r: Run)
    requires setup.Ok() && dev.Ok() && Npu.Idle(dev, engine) && engine.now == 0
    ensures Legal(setup, dev, r)
    ensures
      var s := Last(r);
      && s.store.drawn == 1 && HoldsOnly(s.store, setup.texts(0), 0)
      && Calm(s.engine, map[0 := Npu.NewThread(request)])
      && s.owners == map[0 := setup.texts(0)]
  {
    r := Run([], [Joint(State(map[], 0), engine, map[])]);
    OpenInEmpty(setup, Last(r).store, modelName, 0);
    r := Extend(setup, dev, r, CallStore(Timed(Call.Open(modelName), 0, 0)));
    ValidateAtOnce(setup, Last(r).store, setup.texts(0), 0);
    r := Extend(setup, dev, r, Admit(0, request, setup.texts(0), 0, 0));
  }

  /** Its session is closed, another client's is opened. */
  lemma {:induction false} NextClient(setup: Setup, dev: Npu.Device, engine: Npu.State, modelName: string,
                                      request: Npu.Request) returns (r: Run)
    requires setup.Ok() && dev.Ok() && Npu.Idle(dev, engine) && engine.now == 0
    ensures Legal(setup, dev, r)
    ensures
      var s := Last(r);
      && HoldsOnly(s.store, setup.texts(1), 0)
      && Calm(s.engine, map[0 := Npu.NewThread(request)])
      && s.owners == map[0 := setup.texts(0)]
  {
    r := FirstClient(setup, dev, engine, modelName, request);
    r := Extend(setup, dev, r, CallStore(Timed(Call.Close(setup.texts(0)), 0, 0)));
    assert Last(r).store.sessions == map[];
    OpenInEmpty(setup, Last(r).store, modelName, 0);
    r := Extend(setup, dev, r, CallStore(Timed(Call.Open(modelName), 0, 0)));
  }

  /** The other client's request is admitted as well. */
  lemma {:induction false} HandOver(setup: Setup, dev: Npu.Device, engine: Npu.State, modelName: string,
                                    request: Npu.Request) returns (r: Run)
    requires setup.Ok() && dev.Ok() && Npu.Idle(dev, engine) && engine.now == 0
    ensures Legal(setup, dev, r)
    ensures
      var s := Last(r);
      && HoldsOnly(s.store, setup.texts(1), 0)
      && Calm(s.engine, map[0 := Npu.NewThread(request), 1 := Npu.NewThread(request)])
      && s.owners == map[0 := setup.texts(0), 1 := setup.texts(1)]
  {
    r := NextClient(setup, dev, engine, modelName, request);
    ValidateAtOnce(setup, Last(r).store, setup.texts(1), 0);
    r := Extend(setup, dev, r, Admit(1, request, setup.texts(1), 0, 0));
  }

  /**
    Exclusive sessions do not make the NPU exclusive. For every configuration, with any decodable image and a
    generator whose first two ids differ: a run in which a request holds the NPU although its session is
    closed, while the request of the client that now holds the only session waits in the engine.
   */
  lemma {:induction false} RequestOutlivesItsSession(setup: Setup, dev: Npu.Device, engine: Npu.State,
        modelName: string, request: Npu.Request)
    returns (r: Run)
    requires setup.Ok() && dev.Ok() && Npu.Idle(dev, engine) && engine.now == 0
    requires setup.texts(0) != setup.texts(1)
    requires request.encoded != [] && !dev.decode(request.encoded).Empty()
    ensures Legal(setup, dev, r)
    ensures
      var s := Last(r);
      && 0 in s.engine.threads && Npu.Critical(s.engine.threads[0].pc)
      && 0 in s.owners && s.owners[0] !in s.store.sessions
      && 1 in s.engine.threads && s.engine.threads[1].pc == Npu.Entering
      && 1 in s.owners && s.store.sessions.Keys == {s.owners[1]}
  {
    r := HandOver(setup, dev, engine, modelName, request);
    r := ProceedToNpu(setup, dev, r, request);
  }

  lemma {:induction false} ProceedToNpu(setup: Setup, dev: Npu.Device, before: Run, request: Npu.Request)
    returns (r: Run)
    requires Legal(setup, dev, before)
    requires 0 in Last(before).engine.threads && Last(before).engine.threads[0] == Npu.NewThread(request)
    requires Last(before).engine.holder == Npu.Free
    requires request.encoded != [] && !dev.decode(request.encoded).Empty()
    ensures Legal(setup, dev, r)
    ensures Last(r).store == Last(before).store && Last(r).owners == Last(before).owners
    ensures 0 in Last(r).engine.threads && Npu.Critical(Last(r).engine.threads[0].pc)
    ensures Last(r).engine.threads == Last(before).engine.threads[0 := Last(r).engine.threads[0]]
  {
    r := Extend(setup, dev, before, Proceed(0, Npu.NoFault));
    r := Extend(setup, dev, r, Proceed(0, Npu.NoFault));
    r := Extend(setup, dev, r, Proceed(0, Npu.NoFault));
    r := Extend(setup, dev, r, Proceed(0, Npu.NoFault));
    r := Extend(setup, dev, r, Proceed(0, Npu.NoFault));
  }
}
