/**
  The results about whole runs of the engine, for any number of threads and any
  interleaving.
 */
module NpuTheorems {
  import opened MachineInts
  import opened Npu
  import opened NpuSafety
  import opened NpuTiming

  ghost predicate Inv(dev: Device, first: State, s: State)
    requires dev.Ok()
  {
    && Exclusive(s)
    && OneTurnEach(s)
    && OwnImages(dev, s)
    && AsIfSequential(dev, first.memory, s)
    && AllAnswered(dev, first.memory, s)
    && DepthExact(s)
    && TimesKept(s, first.now)
  }

  lemma {:induction false} IdleInv(dev: Device, s: State)
    requires dev.Ok() && Idle(dev, s)
    ensures Inv(dev, s, s)
  {
    assert Waiters(s) == {};
  }

  lemma {:induction false} InvKeptByOthers(dev: Device, first: State, s: State, e: Event)
    requires dev.Ok() && Enabled(s, e) && !e.Act? && Inv(dev, first, s)
    ensures Inv(dev, first, Apply(dev, s, e))
  {
    var next := Apply(dev, s, e);
    assert Exclusive(next) && OwnImages(dev, next) && DepthExact(next) by {
      ExclusiveKept(dev, s, e);
      OwnImagesKept(dev, s, e);
      DepthKept(dev, s, e);
    }
    assert OneTurnEach(next) && AllAnswered(dev, first.memory, next) by {
      TurnsKeptByOthers(dev, first, s, e);
    }
    assert AsIfSequential(dev, first.memory, next) by {
      SequentialKeptByOthers(dev, first, s, e);
    }
    assert TimesKept(next, first.now) by {
      TimesKeptByOthers(dev, s, e, first.now);
    }
  }

  lemma {:induction false} SequentialKeptByOthers(dev: Device, first: State, s: State, e: Event)
    requires dev.Ok() && Enabled(s, e) && !e.Act? && AsIfSequential(dev, first.memory, s)
    ensures AsIfSequential(dev, first.memory, Apply(dev, s, e))
  {
  }

  lemma {:induction false} TurnsKeptByOthers(dev: Device, first: State, s: State, e: Event)
    requires dev.Ok() && Enabled(s, e) && !e.Act?
    requires Exclusive(s) && OneTurnEach(s) && AllAnswered(dev, first.memory, s)
    ensures OneTurnEach(Apply(dev, s, e)) && AllAnswered(dev, first.memory, Apply(dev, s, e))
  {
    var next := Apply(dev, s, e);
    forall t | t in next.threads ensures TurnOf(next, t) && Answered(dev, first.memory, next, t) {
      if t in s.threads {
        assert TurnOf(s, t) && Answered(dev, first.memory, s, t);
      }
    }
    forall i: nat | i < |next.tickets| ensures OwnerOf(next, i) {
      assert OwnerOf(s, i);
    }
  }

  lemma {:induction false} InvKeptAlone(dev: Device, first: State, s: State, t: nat)
    requires dev.Ok() && Enabled(s, Act(t, NoFault)) && BeforeLock(s.threads[t].pc) && Inv(dev, first, s)
    ensures Inv(dev, first, ActAlone(dev, s, t))
  {
    var e := Act(t, NoFault);
    ExclusiveKept(dev, s, e);
    OwnImagesKept(dev, s, e);
    DepthKept(dev, s, e);
    OneTurnEachKeptAlone(dev, s, t);
    SequentialKeptAlone(dev, first.memory, s, t);
    AnswersKeptAlone(dev, first.memory, s, t);
    TimesKeptAlone(dev, s, t, first.now);
  }

  lemma {:induction false} InvKeptHolding(dev: Device, first: State, s: State, t: nat, fault: Fault)
    requires dev.Ok() && |first.memory.input| == dev.inputSize
    requires Enabled(s, Act(t, fault)) && Critical(s.threads[t].pc) && Inv(dev, first, s)
    ensures Inv(dev, first, ActHolding(dev, s, t, fault))
  {
    var e := Act(t, fault);
    ExclusiveKept(dev, s, e);
    OwnImagesKept(dev, s, e);
    DepthKept(dev, s, e);
    OneTurnEachKeptHolding(dev, s, t, fault);
    SequentialKeptHolding(dev, first.memory, s, t, fault);
    AnswersKeptHolding(dev, first.memory, s, t, fault);
    TimesKeptHolding(dev, s, t, fault, first.now);
  }

  lemma {:induction false} RunKeepsInv(dev: Device, r: Run, i: nat)
    requires Legal(dev, r) && i <= |r.events|
    ensures Inv(dev, r.states[0], r.states[i])
  {
    if i == 0 {
      IdleInv(dev, r.states[0]);
    } else {
      RunKeepsInv(dev, r, i - 1);
      StepOf(dev, r, i - 1);
      var s, e := r.states[i - 1], r.events[i - 1];
      match e
      case Arrive(_, _) => InvKeptByOthers(dev, r.states[0], s, e);
      case Tick(_) => InvKeptByOthers(dev, r.states[0], s, e);
      case Act(t, fault) =>
        if BeforeLock(s.threads[t].pc) {
          InvKeptAlone(dev, r.states[0], s, t);
        } else {
          InvKeptHolding(dev, r.states[0], s, t, fault);
        }
    }
  }

  /** The engine's answer to a request nobody else competes for, when the NPU does not fail. */
  function PureOutcome(dev: Device, request: Request): Outcome
    requires dev.modelWidth > 0 && dev.modelHeight > 0
  {
    Serve(dev, Memory([], []), Ticket(0, request, NoFault, 0, 0)).0
  }

  /** No two threads are between taking and releasing the mutex. */
  lemma {:induction false} MutualExclusion(dev: Device, r: Run, i: nat, t: nat, u: nat)
    requires Legal(dev, r) && i <= |r.events|
    requires t in r.states[i].threads && Critical(r.states[i].threads[t].pc)
    requires u in r.states[i].threads && Critical(r.states[i].threads[u].pc)
    ensures t == u
  {
    RunKeepsInv(dev, r, i);
  }

  /**
    Linearizability. Whenever the mutex is free, the shared memories are what the turns taken so
    far leave when they are taken one after the other; and every request that took a
    turn and has returned was answered as its turn is in that sequence.
   */
  lemma {:induction false} Linearizable(dev: Device, r: Run, i: nat)
    requires Legal(dev, r) && i <= |r.events|
    ensures
      var s, start := r.states[i], r.states[0].memory;
      && (s.holder == Free ==> s.memory == MemoryAfter(dev, start, s.tickets, |s.tickets|))
      && (forall t | t in s.threads && s.threads[t].pc.Returned? && Ticketed(s.threads[t]) ::
            && s.threads[t].turn < |s.tickets|
            && s.tickets[s.threads[t].turn].thread == t
            && s.tickets[s.threads[t].turn].request == s.threads[t].request
            && Answers(s.threads[t].reply, OutcomeOf(dev, start, s.tickets, s.threads[t].turn)))
  {
    RunKeepsInv(dev, r, i);
    var s := r.states[i];
    forall t | t in s.threads && s.threads[t].pc.Returned? && Ticketed(s.threads[t])
      ensures TurnOf(s, t) && Answered(dev, r.states[0].memory, s, t)
    {
    }
  }

  /** A request that completes gets its own result, although all share one input and one output memory. */
  lemma {:induction false} CompletedRequestsGetTheirOwnResult(dev: Device, r: Run, i: nat, t: nat)
    requires Legal(dev, r) && i <= |r.events|
    requires t in r.states[i].threads && r.states[i].threads[t].pc.Returned? && r.states[i].threads[t].reply.Done?
    ensures r.states[i].threads[t].reply.outcome == PureOutcome(dev, r.states[i].threads[t].request)
    ensures IsOwnResult(dev, r.states[i].threads[t].request, r.states[i].threads[t].reply.outcome)
  {
    RunKeepsInv(dev, r, i);
    assert Answered(dev, r.states[0].memory, r.states[i], t) && TurnOf(r.states[i], t);
    UndisturbedTurn(dev, Memory([], []), Ticket(0, r.states[i].threads[t].request, NoFault, 0, 0));
  }

  /** Requests are refused without a turn exactly for missing or undecodable images. */
  lemma {:induction false} RefusalsAreExact(dev: Device, r: Run, i: nat, t: nat)
    requires Legal(dev, r) && i <= |r.events|
    requires t in r.states[i].threads && r.states[i].threads[t].pc.Returned?
    ensures
      var th := r.states[i].threads[t];
      && (th.reply == BadArguments <==> th.request.encoded == [])
      && (th.reply == Undecodable <==> th.request.encoded != [] && dev.decode(th.request.encoded).Empty())
  {
    RunKeepsInv(dev, r, i);
    assert Answered(dev, r.states[0].memory, r.states[i], t);
  }

  /** The reported queue depth is the number of waiters while fewer than 2^32 requests wait. */
  lemma {:induction false} QueueDepthIsExact(dev: Device, r: Run, i: nat)
    requires Legal(dev, r) && i <= |r.events|
    ensures |Waiters(r.states[i])| < UINT32 ==> r.states[i].waiting == |Waiters(r.states[i])|
    ensures forall t, u | t in Waiters(r.states[i]) && u in Waiters(r.states[i]) ::
      Critical(r.states[i].threads[t].pc) && Critical(r.states[i].threads[u].pc) ==> t == u
  {
    RunKeepsInv(dev, r, i);
  }

  /** The turns on the NPU never overlap, so together they take no longer than the engine has run. */
  lemma {:induction false} NpuTimeFitsInWallTime(dev: Device, r: Run, i: nat)
    requires Legal(dev, r) && i <= |r.events|
    ensures Disjoint(r.states[i].tickets, r.states[0].now, r.states[i].now)
    ensures TotalUs(r.states[i].tickets, |r.states[i].tickets|) * 1000 <= r.states[i].now - r.states[0].now
  {
    RunKeepsInv(dev, r, i);
    TurnsFitInTime(r.states[i].tickets, |r.states[i].tickets|, r.states[0].now, r.states[i].now);
  }

  /** The times reported to a client: its own turn on the NPU, and stages that fit in the total. */
  lemma {:induction false} ReportedTimesAddUp(dev: Device, r: Run, i: nat, t: nat)
    requires Legal(dev, r) && i <= |r.events|
    requires t in r.states[i].threads && r.states[i].threads[t].pc.Returned? && r.states[i].threads[t].reply.Done?
    ensures
      var th, tickets := r.states[i].threads[t], r.states[i].tickets;
      && th.turn < |tickets|
      && th.reply.timing.inferenceUs == ElapsedUs(tickets[th.turn].start, tickets[th.turn].end)
      && th.reply.timing.decodeUs + th.reply.timing.queueUs + th.reply.timing.inferenceUs <= th.reply.timing.totalUs
  {
    RunKeepsInv(dev, r, i);
    var th := r.states[i].threads[t];
    assert TurnOf(r.states[i], t) && Chain(th, r.states[i].now);
    StagesFitInTotal(th.stamps);
  }

  // ---------------------------------------------------------------------
  // The sequence of turns respects real time
  // ---------------------------------------------------------------------

  ghost predicate HasTurn(s: State, t: nat) {
    t in s.threads && Ticketed(s.threads[t])
  }

  lemma {:induction false} TurnStep(dev: Device, s: State, e: Event, t: nat)
    requires dev.Ok() && Enabled(s, e) && Exclusive(s) && OneTurnEach(s)
    requires forall u | u in s.threads && s.threads[u].pc == Releasing ::
      s.threads[u].reply.Failed? || s.threads[u].reply.Done?
    ensures |s.tickets| <= |Apply(dev, s, e).tickets|
    ensures HasTurn(s, t) ==>
      HasTurn(Apply(dev, s, e), t) && Apply(dev, s, e).threads[t].turn == s.threads[t].turn
    ensures !HasTurn(s, t) && HasTurn(Apply(dev, s, e), t) ==> Apply(dev, s, e).threads[t].turn == |s.tickets|
  {
    match e
    case Arrive(_, _) =>
    case Tick(_) =>
    case Act(u, fault) =>
      if BeforeLock(s.threads[u].pc) {
        AloneFrame(dev, s, u);
      } else {
        HoldingFrame(dev, s, u, fault);
        HoldingKeepsTickets(dev, s, u, fault);
      }
  }

  lemma {:induction false} RunTurnStep(dev: Device, r: Run, i: nat, t: nat)
    requires Legal(dev, r) && i < |r.events|
    ensures
      var s, next := r.states[i], r.states[i + 1];
      && |s.tickets| <= |next.tickets|
      && (HasTurn(s, t) ==> HasTurn(next, t) && next.threads[t].turn == s.threads[t].turn)
      && (!HasTurn(s, t) && HasTurn(next, t) ==> next.threads[t].turn == |s.tickets|)
  {
    RunKeepsInv(dev, r, i);
    StepOf(dev, r, i);
    TurnStep(dev, r.states[i], r.events[i], t);
  }

  lemma {:induction false} TurnPersists(dev: Device, r: Run, i: nat, j: nat, t: nat)
    requires Legal(dev, r) && i <= j <= |r.events| && HasTurn(r.states[i], t)
    ensures HasTurn(r.states[j], t) && r.states[j].threads[t].turn == r.states[i].threads[t].turn
    decreases j - i
  {
    if i < j {
      TurnPersists(dev, r, i, j - 1, t);
      RunTurnStep(dev, r, j - 1, t);
    }
  }

  lemma {:induction false} LaterTurnIsLarger(dev: Device, r: Run, i: nat, j: nat, t: nat)
    requires Legal(dev, r) && i <= j <= |r.events| && !HasTurn(r.states[i], t)
    ensures |r.states[i].tickets| <= |r.states[j].tickets|
    ensures HasTurn(r.states[j], t) ==> r.states[j].threads[t].turn >= |r.states[i].tickets|
    decreases j - i
  {
    if i < j {
      LaterTurnIsLarger(dev, r, i, j - 1, t);
      RunTurnStep(dev, r, j - 1, t);
    }
  }

  /** A request that had its turn before another took the mutex comes first in the sequence. */
  lemma {:induction false} TurnsRespectRealTime(dev: Device, r: Run, i: nat, j: nat, t: nat, u: nat)
    requires Legal(dev, r) && i <= j <= |r.events|
    requires HasTurn(r.states[i], t) && !HasTurn(r.states[i], u) && HasTurn(r.states[j], u)
    ensures HasTurn(r.states[j], t) && r.states[j].threads[t].turn < r.states[j].threads[u].turn
  {
    TurnPersists(dev, r, i, j, t);
    LaterTurnIsLarger(dev, r, i, j, u);
    RunKeepsInv(dev, r, i);
    assert TurnOf(r.states[i], t);
  }
}
